/** The comment-command executor: a command text bound, by a small builder, to a list of
    (comment actions, permission checks, effect) bindings that run, in registration order,
    when a comment whose trimmed body is exactly the command arrives.

    The permission service (`AllOf` over the binding's checks), the effect itself and the
    GitHub comment service are outside the model: their answers come from an `Environment`,
    keyed by the position of the binding being run, and what the executor asks of them is
    recorded as a trace of `Event`s. */
module Command {
  import opened Wrappers
  import opened Text

  /** A comment lifecycle variant: the raw webhook actions it stands for and the verb the
      denial message uses for it. */
  datatype CommentAction = CommentAction(actions: seq<string>, operationMsgName: string)
  {
    predicate IsMatching(action: string) {
      action in actions
    }
  }

  /** Comment deletion. */
  const Deleted := CommentAction(["deleted"], "deleted")

  /** Comment creation and edition. */
  const Triggered := CommentAction(["edited", "created"], "used")

  /** A permission check handed to `By`; what it answers is decided by the permission service. */
  datatype PermissionCheck = PermissionCheck(name: string)

  /** What a function passed to `ThenDo` is: a handle naming the effect. */
  type EffectId = nat

  /** The aggregated answer of the permission checks of one binding. */
  datatype PermissionStatus = PermissionStatus(userIsApproved: bool, message: string)

  /** The collaborators' answers, for the binding at each position: the aggregated
      permission check (status and error), the effect's error, the comment service's error. */
  datatype Environment = Environment(
    allOf: nat -> (PermissionStatus, Option<Error>),
    doFunction: nat -> Option<Error>,
    addComment: nat -> Option<Error>)

  /** The denial comment: built from the verb of the matching action, the command and the
      aggregated reason. */
  datatype DenialMessage = DenialMessage(operation: string, command: string, reason: string)

  /** What a binding asked of the outside world. */
  datatype Event =
    | DoFunctionCalled(binding: nat, effect: EffectId)
    | CommentAdded(binding: nat, message: DenialMessage)

  /** The result of running bindings: the error returned (`None` is Go's `nil`) and the
      events, in order. */
  datatype Outcome = Outcome(err: Option<Error>, trace: seq<Event>)

  /** One entry of `doExecutor`: what `When`, `By` and `ThenDo` collected. */
  datatype Binding = Binding(actions: seq<CommentAction>, permissionChecks: seq<PermissionCheck>, doFunction: EffectId)

  /** Position of the first action in `actions` that matches `action`, or `|actions|`. */
  function FirstMatchIndex(actions: seq<CommentAction>, action: string): (k: nat)
    ensures k <= |actions|
    ensures forall j :: 0 <= j < k ==> !actions[j].IsMatching(action)
    ensures k < |actions| ==> actions[k].IsMatching(action)
  {
    if actions == [] then 0
    else if actions[0].IsMatching(action) then 0
    else 1 + FirstMatchIndex(actions[1..], action)
  }

  /** The action whose verb the denial message uses: the first one that matches. */
  function MatchingAction(actions: seq<CommentAction>, action: string): (r: Option<CommentAction>)
    ensures r.None? <==> forall j :: 0 <= j < |actions| ==> !actions[j].IsMatching(action)
    ensures r.Some? ==> r.value.IsMatching(action) && r.value in actions
  {
    var k := FirstMatchIndex(actions, action);
    if k < |actions| then Some(actions[k]) else None
  }

  /** `getMatchingAction`: an early-exit search over the binding's actions. */
  method GetMatchingAction(actions: seq<CommentAction>, action: string) returns (r: Option<CommentAction>)
    ensures r == MatchingAction(actions, action)
  {
    for i := 0 to |actions|
      invariant forall j :: 0 <= j < i ==> !actions[j].IsMatching(action)
    {
      if actions[i].IsMatching(action) {
        return Some(actions[i]);
      }
    }
    return None;
  }

  /** What the closure built by `ThenDo` does for the binding `b` at position `i`: skip when no
      action matches; otherwise run the effect when approved without error, post one denial
      comment when denied without error and not quiet, and return the check's error otherwise. */
  function RunBinding(command: string, quietMode: bool, b: Binding, i: nat, action: string, env: Environment): (r: Outcome)
    ensures |r.trace| <= 1
    ensures forall e :: e in r.trace ==> e.binding == i
  {
    match MatchingAction(b.actions, action)
    case None => Outcome(None, [])
    case Some(matching) =>
      var (status, err) := env.allOf(i);
      if status.userIsApproved && err.None? then
        Outcome(env.doFunction(i), [DoFunctionCalled(i, b.doFunction)])
      else if err.None? && !quietMode then
        var message := DenialMessage(matching.operationMsgName, command, status.message);
        Outcome(env.addComment(i), [CommentAdded(i, message)])
      else
        Outcome(err, [])
  }

  /** At most one effect or one comment per binding, and each exactly under its condition;
      the binding's result is then the effect's or the comment service's. */
  lemma RunBindingActsAtMostOnce(command: string, quietMode: bool, b: Binding, i: nat, action: string, env: Environment)
    ensures var r := RunBinding(command, quietMode, b, i, action, env);
      && (MatchingAction(b.actions, action).None? ==> r == Outcome(None, []))
      && (r.trace == [DoFunctionCalled(i, b.doFunction)] <==>
            MatchingAction(b.actions, action).Some? && env.allOf(i).0.userIsApproved && env.allOf(i).1.None?)
      && (r.trace == [DoFunctionCalled(i, b.doFunction)] ==> r.err == env.doFunction(i))
      && ((|r.trace| == 1 && r.trace[0].CommentAdded?) <==>
            MatchingAction(b.actions, action).Some? && !env.allOf(i).0.userIsApproved
            && env.allOf(i).1.None? && !quietMode)
      && ((|r.trace| == 1 && r.trace[0].CommentAdded?) ==>
            r.trace[0] == CommentAdded(i, DenialMessage(MatchingAction(b.actions, action).value.operationMsgName,
                                                        command, env.allOf(i).0.message))
            && r.err == env.addComment(i))
      && (MatchingAction(b.actions, action).Some? && env.allOf(i).1.Some? ==> r == Outcome(env.allOf(i).1, []))
      && ((MatchingAction(b.actions, action).Some? && !env.allOf(i).0.userIsApproved
           && env.allOf(i).1.None? && quietMode) ==> r == Outcome(None, []))
  {
  }

  /** The closure itself, as a method over the binding. */
  method ExecuteBinding(command: string, quietMode: bool, b: Binding, i: nat, action: string, env: Environment)
    returns (r: Outcome)
    ensures r == RunBinding(command, quietMode, b, i, action, env)
  {
    var matching := GetMatchingAction(b.actions, action);
    if matching.None? {
      return Outcome(None, []);
    }
    var (status, err) := env.allOf(i);
    if status.userIsApproved && err.None? {
      return Outcome(env.doFunction(i), [DoFunctionCalled(i, b.doFunction)]);
    }
    var message := DenialMessage(matching.value.operationMsgName, command, status.message);
    if err.None? && !quietMode {
      return Outcome(env.addComment(i), [CommentAdded(i, message)]);
    }
    return Outcome(err, []);
  }

  /** Running the bindings from position `i` on: stop at the first one that returns an error. */
  function ExecuteFrom(command: string, quietMode: bool, bs: seq<Binding>, i: nat, action: string, env: Environment): (r: Outcome)
    requires i <= |bs|
    ensures forall a :: 0 <= a < |r.trace| ==> i <= r.trace[a].binding < |bs|
    ensures forall a, c :: 0 <= a < c < |r.trace| ==> r.trace[a].binding < r.trace[c].binding
    decreases |bs| - i
  {
    if i == |bs| then Outcome(None, [])
    else
      var step := RunBinding(command, quietMode, bs[i], i, action, env);
      if step.err.Some? then step
      else
        var rest := ExecuteFrom(command, quietMode, bs, i + 1, action, env);
        Outcome(rest.err, step.trace + rest.trace)
  }

  lemma ExecuteFromUnfold(command: string, quietMode: bool, bs: seq<Binding>, i: nat, action: string, env: Environment)
    requires i < |bs|
    ensures var step := RunBinding(command, quietMode, bs[i], i, action, env);
            var rest := ExecuteFrom(command, quietMode, bs, i + 1, action, env);
            ExecuteFrom(command, quietMode, bs, i, action, env)
            == if step.err.Some? then step else Outcome(rest.err, step.trace + rest.trace)
  {
  }

  /** One step of the executor's loop: with `trace` recorded before binding `i`, the
      binding either ends the run with its error or extends the trace. */
  lemma ExecuteStep(command: string, quietMode: bool, bs: seq<Binding>, i: nat, action: string, env: Environment,
                    trace: seq<Event>, whole: Outcome)
    requires i < |bs|
    requires whole == Outcome(ExecuteFrom(command, quietMode, bs, i, action, env).err,
                              trace + ExecuteFrom(command, quietMode, bs, i, action, env).trace)
    ensures var step := RunBinding(command, quietMode, bs[i], i, action, env);
            && (step.err.Some? ==> whole == Outcome(step.err, trace + step.trace))
            && (step.err.None? ==>
                  whole == Outcome(ExecuteFrom(command, quietMode, bs, i + 1, action, env).err,
                                   (trace + step.trace) + ExecuteFrom(command, quietMode, bs, i + 1, action, env).trace))
  {
    var step := RunBinding(command, quietMode, bs[i], i, action, env);
    var rest := ExecuteFrom(command, quietMode, bs, i + 1, action, env);
    ExecuteFromUnfold(command, quietMode, bs, i, action, env);
    if step.err.None? {
      var t, u, v := trace, step.trace, rest.trace;
      assert t + (u + v) == (t + u) + v;
    }
  }

  /** `Execute` succeeds exactly when no binding from `i` on fails. */
  lemma {:induction false} ExecuteSucceedsIffNoBindingFails(command: string, quietMode: bool, bs: seq<Binding>, i: nat, action: string, env: Environment)
    requires i <= |bs|
    ensures ExecuteFrom(command, quietMode, bs, i, action, env).err.None? <==>
              forall j :: i <= j < |bs| ==> RunBinding(command, quietMode, bs[j], j, action, env).err.None?
    decreases |bs| - i
  {
    if i < |bs| {
      ExecuteSucceedsIffNoBindingFails(command, quietMode, bs, i + 1, action, env);
    }
  }

  /** When binding `k` is the first to fail, its error is the result and no later binding
      leaves a trace. */
  lemma {:induction false} ExecuteReturnsFirstError(command: string, quietMode: bool, bs: seq<Binding>, i: nat, k: nat, action: string, env: Environment)
    requires i <= k < |bs|
    requires forall j :: i <= j < k ==> RunBinding(command, quietMode, bs[j], j, action, env).err.None?
    requires RunBinding(command, quietMode, bs[k], k, action, env).err.Some?
    ensures ExecuteFrom(command, quietMode, bs, i, action, env).err == RunBinding(command, quietMode, bs[k], k, action, env).err
    ensures forall e :: e in ExecuteFrom(command, quietMode, bs, i, action, env).trace ==> e.binding <= k
    decreases k - i
  {
    if i < k {
      ExecuteReturnsFirstError(command, quietMode, bs, i + 1, k, action, env);
    }
  }

  /** When binding `k` is the first to fail, the events of every binding up to and including
      `k` are recorded, the failing binding's own effect or comment among them. */
  lemma {:induction false} ExecuteRecordsUpToFirstError(command: string, quietMode: bool, bs: seq<Binding>, i: nat, k: nat, action: string, env: Environment)
    requires i <= k < |bs|
    requires forall j :: i <= j < k ==> RunBinding(command, quietMode, bs[j], j, action, env).err.None?
    requires RunBinding(command, quietMode, bs[k], k, action, env).err.Some?
    ensures forall j :: i <= j <= k ==>
              forall e :: e in RunBinding(command, quietMode, bs[j], j, action, env).trace ==>
                e in ExecuteFrom(command, quietMode, bs, i, action, env).trace
    decreases k - i
  {
    ExecuteFromUnfold(command, quietMode, bs, i, action, env);
    if i < k {
      ExecuteRecordsUpToFirstError(command, quietMode, bs, i + 1, k, action, env);
    }
  }

  /** Every recorded event is the one event of its binding's own run, so the guarantees of
      `RunBinding` (effect only when approved, comment only when denied, not quiet and no
      error) hold of the whole trace. */
  lemma {:induction false} ExecuteTraceIsSound(command: string, quietMode: bool, bs: seq<Binding>, i: nat, action: string, env: Environment)
    requires i <= |bs|
    ensures forall e :: e in ExecuteFrom(command, quietMode, bs, i, action, env).trace ==>
              e.binding < |bs| && RunBinding(command, quietMode, bs[e.binding], e.binding, action, env).trace == [e]
    decreases |bs| - i
  {
    if i < |bs| {
      ExecuteTraceIsSound(command, quietMode, bs, i + 1, action, env);
      ExecuteFromUnfold(command, quietMode, bs, i, action, env);
      var step := RunBinding(command, quietMode, bs[i], i, action, env);
      var rest := ExecuteFrom(command, quietMode, bs, i + 1, action, env);
      forall e | e in ExecuteFrom(command, quietMode, bs, i, action, env).trace
        ensures e.binding < |bs| && RunBinding(command, quietMode, bs[e.binding], e.binding, action, env).trace == [e]
      {
        if e in step.trace {
          assert step.trace == [step.trace[0]];
        } else {
          assert e in rest.trace;
        }
      }
    }
  }

  /** When nothing fails, every binding that acts is recorded. */
  lemma {:induction false} ExecuteTraceIsComplete(command: string, quietMode: bool, bs: seq<Binding>, i: nat, action: string, env: Environment)
    requires i <= |bs|
    requires ExecuteFrom(command, quietMode, bs, i, action, env).err.None?
    ensures forall j :: i <= j < |bs| ==>
              forall e :: e in RunBinding(command, quietMode, bs[j], j, action, env).trace ==>
                e in ExecuteFrom(command, quietMode, bs, i, action, env).trace
    decreases |bs| - i
  {
    if i < |bs| {
      ExecuteTraceIsComplete(command, quietMode, bs, i + 1, action, env);
    }
  }

  /** A quiet executor never posts a comment. */
  lemma QuietModeNeverComments(command: string, bs: seq<Binding>, action: string, env: Environment)
    ensures forall e :: e in ExecuteFrom(command, true, bs, 0, action, env).trace ==> e.DoFunctionCalled?
  {
    ExecuteTraceIsSound(command, true, bs, 0, action, env);
  }

  /** The gate `Execute` applies to a comment: a body holding the command padded with white
      space (a trailing newline, say) passes it, while a command that itself starts or ends with
      white space never passes it, whatever the body. */
  lemma CommandGate(command: string, body: string, pre: string, post: string)
    ensures AllSpace(pre) && AllSpace(post) && (command == [] || (!IsSpace(command[0]) && !IsSpace(command[|command| - 1])))
            ==> command == TrimSpace(pre + command + post)
    ensures command != [] && (IsSpace(command[0]) || IsSpace(command[|command| - 1]))
            ==> command != TrimSpace(body)
  {
    if AllSpace(pre) && AllSpace(post) && (command == [] || (!IsSpace(command[0]) && !IsSpace(command[|command| - 1]))) {
      TrimSpaceOfPadded(pre, command, post);
    }
  }

  /** `CmdExecutor`: the command text, the quiet-mode flag and the bindings registered so far. */
  class CmdExecutor {
    const command: string
    const quietMode: bool
    var doExecutor: seq<Binding>

    constructor (command: string, quietMode: bool)
      ensures this.command == command && this.quietMode == quietMode && doExecutor == []
    {
      this.command := command;
      this.quietMode := quietMode;
      doExecutor := [];
    }

    /** `When`: the actions the next binding is triggered for. */
    function When(actions: seq<CommentAction>): RestrictionSetter {
      RestrictionSetter(this, actions)
    }

    /** `Execute`: a no-op unless the trimmed comment body is exactly the command; otherwise
        the bindings in registration order, returning the first error. */
    method Execute(body: string, action: string, env: Environment) returns (r: Outcome)
      ensures command != TrimSpace(body) ==> r == Outcome(None, [])
      ensures command == TrimSpace(body) ==> r == ExecuteFrom(command, quietMode, doExecutor, 0, action, env)
    {
      if command != TrimSpace(body) {
        return Outcome(None, []);
      }
      var bs := doExecutor;
      ghost var whole := ExecuteFrom(command, quietMode, bs, 0, action, env);
      var trace: seq<Event> := [];
      var i := 0;
      while i < |bs|
        invariant i <= |bs|
        invariant whole == Outcome(ExecuteFrom(command, quietMode, bs, i, action, env).err,
                                   trace + ExecuteFrom(command, quietMode, bs, i, action, env).trace)
      {
        var step := ExecuteBinding(command, quietMode, bs[i], i, action, env);
        ExecuteStep(command, quietMode, bs, i, action, env, trace, whole);
        if step.err.Some? {
          return Outcome(step.err, trace + step.trace);
        }
        trace := trace + step.trace;
        i := i + 1;
      }
      assert ExecuteFrom(command, quietMode, bs, i, action, env) == Outcome(None, []);
      assert trace + [] == trace;
      return Outcome(None, trace);
    }
  }

  /** `RestrictionSetter`: the executor and the actions chosen by `When`. */
  datatype RestrictionSetter = RestrictionSetter(commandExecutor: CmdExecutor, actions: seq<CommentAction>)
  {
    /** `By`: the permission checks the binding is restricted by. */
    function By(permissionChecks: seq<PermissionCheck>): DoFunctionProvider {
      DoFunctionProvider(commandExecutor, actions, permissionChecks)
    }
  }

  /** `DoFunctionProvider`: everything but the effect of one binding. */
  datatype DoFunctionProvider = DoFunctionProvider(commandExecutor: CmdExecutor, actions: seq<CommentAction>, permissionChecks: seq<PermissionCheck>)
  {
    /** `ThenDo`: appends exactly one binding, at the end, to the executor's list. */
    method ThenDo(doFunction: EffectId)
      modifies commandExecutor
      ensures commandExecutor.doExecutor == old(commandExecutor.doExecutor) + [Binding(actions, permissionChecks, doFunction)]
    {
      commandExecutor.doExecutor := commandExecutor.doExecutor + [Binding(actions, permissionChecks, doFunction)];
    }
  }

  /** `Triggered` covers exactly comment creation and edition, `Deleted` exactly deletion. */
  lemma CommentActionsMatch(action: string)
    ensures Triggered.IsMatching(action) <==> action == "edited" || action == "created"
    ensures Deleted.IsMatching(action) <==> action == "deleted"
    ensures Triggered.operationMsgName == "used" && Deleted.operationMsgName == "deleted"
  {
  }
}
