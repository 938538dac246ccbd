/** The work-in-progress bot: decides from a pull request's title and labels whether it is
    still in progress, keeps the work-in-progress label in step with the title, and reports
    a commit status (Failure while in progress, Success when ready for review).

    The GitHub client is a `Client` object that records every call made through it and
    answers each with the error its `respond` oracle gives; the per-repository configuration
    (`LoadConfiguration`) is an input. */
module WorkInProgress {
  import opened Wrappers
  import opened Text

  const InProgressMessage := "PR is in progress and can't be merged yet. You might want to wait with review as well"
  const InProgressDetailsPageName := "wip-failed"
  const ReadyForReviewMessage := "PR is ready for review and merge"
  const ReadyForReviewDetailsPageName := "wip-success"

  const HandledCommentActions: seq<string> := ["created"]
  const HandledPrActions: seq<string> := ["opened", "reopened", "edited", "synchronize", "labeled", "unlabeled"]
  const DefaultPrefixes: seq<string> := ["WIP", "DO NOT MERGE", "DON'T MERGE", "WORK-IN-PROGRESS"]

  /** The options of the plugin's configuration file that this bot reads. */
  datatype PluginConfiguration = PluginConfiguration(wipLabel: string, prefix: seq<string>, combine: bool)

  datatype Label = Label(name: string)

  /** The prefixes to look for: the defaults, unless some are configured; those replace the
      defaults, or follow them when `combine` is set. */
  function Prefixes(config: PluginConfiguration): seq<string>
  {
    if |config.prefix| != 0 then
      if config.combine then DefaultPrefixes + config.prefix else config.prefix
    else DefaultPrefixes
  }

  /** Which prefixes are in use, and in what order. */
  lemma PrefixesInUse(config: PluginConfiguration)
    ensures var r := Prefixes(config);
            && (forall p :: p in r <==>
                  p in config.prefix || (p in DefaultPrefixes && (config.prefix == [] || config.combine)))
            && (config.combine || config.prefix == [] ==>
                  |r| >= |DefaultPrefixes| && r[..|DefaultPrefixes|] == DefaultPrefixes)
            && (config.prefix != [] ==> |r| >= |config.prefix| && r[|r| - |config.prefix|..] == config.prefix)
  {
  }

  predicate IsOpening(c: char) { c == '[' || c == '(' }
  predicate IsClosing(c: char) { c == ']' || c == ')' }
  predicate IsSeparator(c: char) { c == ':' || c == ' ' }

  /** `^` in multi-line mode: the start of the text or just after a line feed. */
  predicate LineStart(t: string, pos: nat) {
    pos == 0 || (pos <= |t| && t[pos - 1] == '\n')
  }

  /** `t[at..]` starts with `p`, ignoring ASCII case. */
  predicate EqualFoldAt(t: string, at: nat, p: string) {
    at + |p| <= |t| && forall k :: 0 <= k < |p| ==> Lower(t[at + k]) == Lower(p[k])
  }

  /** The pattern `(\[|\()?` + p + `(\]|\))?(:| )+` matches from `pos`, taking the optional
      opening bracket when `open` and the optional closing one when `close`. */
  predicate MatchesWith(t: string, pos: nat, p: string, open: bool, close: bool) {
    var o1 := if open then 1 else 0;
    var o2 := if close then 1 else 0;
    var end := pos + o1 + |p|;
    && (open ==> pos < |t| && IsOpening(t[pos]))
    && EqualFoldAt(t, pos + o1, p)
    && (close ==> end < |t| && IsClosing(t[end]))
    && end + o2 < |t| && IsSeparator(t[end + o2])
  }

  predicate MatchesAt(t: string, pos: nat, p: string) {
    MatchesWith(t, pos, p, false, false) || MatchesWith(t, pos, p, false, true)
    || MatchesWith(t, pos, p, true, false) || MatchesWith(t, pos, p, true, true)
  }

  /** The regular expression `(?mi)^(\[|\()?` + p + `(\]|\))?(:| )+` finds a match in `t`
      (with `p` free of regular-expression metacharacters). */
  predicate WipPatternMatches(t: string, p: string) {
    exists pos :: 0 <= pos < |t| && LineStart(t, pos) && MatchesAt(t, pos, p)
  }

  /** Position of the first prefix whose pattern matches `t`, or `|prefixes|`. */
  function FirstPrefixIndex(t: string, prefixes: seq<string>): (k: nat)
    ensures k <= |prefixes|
    ensures forall j :: 0 <= j < k ==> !WipPatternMatches(t, prefixes[j])
    ensures k < |prefixes| ==> WipPatternMatches(t, prefixes[k])
  {
    if prefixes == [] then 0
    else if WipPatternMatches(t, prefixes[0]) then 0
    else 1 + FirstPrefixIndex(t, prefixes[1..])
  }

  /** The answer of `hasPrefix`: `(true, p)` for the first matching `p`, else `(false, "")`. */
  function PrefixCheck(t: string, prefixes: seq<string>): (bool, string) {
    var k := FirstPrefixIndex(t, prefixes);
    if k < |prefixes| then (true, prefixes[k]) else (false, "")
  }

  /** The answer of `HasWorkInProgressPrefix`. */
  function WipPrefix(title: string, config: PluginConfiguration): (bool, string) {
    PrefixCheck(ToLower(title), Prefixes(config))
  }

  /** `HasWorkInProgressPrefix` answers `(true, p)` for the first effective prefix `p` whose
      pattern matches the lower-cased title, and `(false, "")` when none does. */
  lemma {:induction false} WipPrefixIsFirstMatch(title: string, config: PluginConfiguration)
    ensures var (found, prefix) := WipPrefix(title, config);
            var t := ToLower(title);
            && (found <==> exists p :: p in Prefixes(config) && WipPatternMatches(t, p))
            && (found ==> prefix in Prefixes(config) && WipPatternMatches(t, prefix)
                          && exists k :: 0 <= k < |Prefixes(config)| && Prefixes(config)[k] == prefix
                                        && forall j :: 0 <= j < k ==> !WipPatternMatches(t, Prefixes(config)[j]))
            && (!found ==> prefix == "")
  {
    var t := ToLower(title);
    var ps := Prefixes(config);
    var k := FirstPrefixIndex(t, ps);
    if k < |ps| {
      assert ps[k] in ps;
    } else {
      forall p | p in ps ensures !WipPatternMatches(t, p) {
        var j :| 0 <= j < |ps| && ps[j] == p;
      }
    }
  }

  /** `hasPrefix`: tries the prefixes in order and stops at the first that matches. */
  method HasPrefix(title: string, prefixes: seq<string>) returns (found: bool, prefix: string)
    ensures found <==> exists k :: 0 <= k < |prefixes| && WipPatternMatches(title, prefixes[k])
    ensures found ==> prefix in prefixes && WipPatternMatches(title, prefix)
    ensures !found ==> prefix == ""
    ensures (found, prefix) == PrefixCheck(title, prefixes)
  {
    for i := 0 to |prefixes|
      invariant forall j :: 0 <= j < i ==> !WipPatternMatches(title, prefixes[j])
    {
      if WipPatternMatches(title, prefixes[i]) {
        return true, prefixes[i];
      }
    }
    return false, "";
  }

  /** `HasWorkInProgressPrefix`: the title, lower-cased, against the effective prefixes. */
  method HasWorkInProgressPrefix(title: string, config: PluginConfiguration) returns (found: bool, prefix: string)
    ensures (found, prefix) == WipPrefix(title, config)
  {
    found, prefix := HasPrefix(ToLower(title), Prefixes(config));
  }

  /** Some label is named exactly `wipLabel`. */
  predicate LabelPresent(labels: seq<Label>, wipLabel: string) {
    exists k :: 0 <= k < |labels| && labels[k].name == wipLabel
  }

  /** `hasWorkInProgressLabel`: an early-exit search for the configured label. */
  method HasWorkInProgressLabel(labels: seq<Label>, wipLabel: string) returns (r: bool)
    ensures r <==> LabelPresent(labels, wipLabel)
  {
    for i := 0 to |labels|
      invariant forall j :: 0 <= j < i ==> labels[j].name != wipLabel
    {
      if labels[i].name == wipLabel {
        return true;
      }
    }
    return false;
  }

  datatype StatusState = Success | Failure

  /** A call to GitHub; commit statuses go through the status service. Adding a label adds
      each white-space separated word of `text` as a label of its own (`strings.Fields`). */
  datatype Call =
    | AddPullRequestLabel(number: nat, text: string)
    | RemovePullRequestLabel(number: nat, name: string)
    | EditPullRequest(number: nat, title: string)
    | SetStatus(state: StatusState)

  /** The description and the documentation page a status is reported with: both are fixed
      by the state, so a status call records the state alone. */
  function StatusDescription(state: StatusState): string {
    if state == Failure then InProgressMessage else ReadyForReviewMessage
  }

  function StatusDetailsPage(state: StatusState): string {
    if state == Failure then InProgressDetailsPageName else ReadyForReviewDetailsPageName
  }

  /** Each state is reported with a description and a page of its own, so the state can be
      read back from either. */
  lemma StatusReportsAreDistinct(a: StatusState, b: StatusState)
    ensures StatusDescription(a) == StatusDescription(b) <==> a == b
    ensures StatusDetailsPage(a) == StatusDetailsPage(b) <==> a == b
  {
    assert |InProgressMessage| != |ReadyForReviewMessage|;
    assert |InProgressDetailsPageName| != |ReadyForReviewDetailsPageName|;
  }

  const InProgressStatus := SetStatus(Failure)
  const ReadyForReviewStatus := SetStatus(Success)

  /** What a reconciler does: the calls it makes, in order, the title the pull request
      object ends with, and the error it returns. */
  datatype Reconciliation = Reconciliation(calls: seq<Call>, title: string, result: Option<Error>)

  /** `checkTitleAndSetStatus`: add the label when the title is marked and the label is
      missing, remove it when the title is not marked and the label is there; a failed label
      call is only logged; the status follows the title. */
  function TitleCheck(number: nat, title: string, labels: seq<Label>, config: PluginConfiguration,
                      respond: Call -> Option<Error>): Reconciliation
  {
    TitleCheckWith(number, title, WipPrefix(title, config).0, LabelPresent(labels, config.wipLabel), config.wipLabel, respond)
  }

  /** The title check once it is known whether the title is marked and the label present. */
  function TitleCheckWith(number: nat, title: string, marked: bool, labelExists: bool, wipLabel: string,
                          respond: Call -> Option<Error>): Reconciliation
  {
    if marked then
      var labelCalls := if !labelExists then [AddPullRequestLabel(number, wipLabel)] else [];
      Reconciliation(labelCalls + [InProgressStatus], title, respond(InProgressStatus))
    else
      var labelCalls := if labelExists then [RemovePullRequestLabel(number, wipLabel)] else [];
      Reconciliation(labelCalls + [ReadyForReviewStatus], title, respond(ReadyForReviewStatus))
  }

  /** `updateTitleAndResetStatus`: while the label is still there the pull request stays in
      progress; otherwise a marked title loses the matched prefix (`strings.TrimPrefix` on the
      title as written) and is sent back, and a failed edit is returned without a status. */
  function TitleReset(number: nat, title: string, labels: seq<Label>, config: PluginConfiguration,
                      respond: Call -> Option<Error>): Reconciliation
  {
    var (found, prefix) := WipPrefix(title, config);
    TitleResetWith(number, title, LabelPresent(labels, config.wipLabel), found, prefix, respond)
  }

  /** The title reset once the label's presence and the title's marker are known. */
  function TitleResetWith(number: nat, title: string, labelExists: bool, found: bool, prefix: string,
                          respond: Call -> Option<Error>): Reconciliation
  {
    if labelExists then
      Reconciliation([InProgressStatus], title, respond(InProgressStatus))
    else if found then
      var newTitle := TrimPrefix(title, prefix);
      var edit := EditPullRequest(number, newTitle);
      match respond(edit)
      case Some(cause) => Reconciliation([edit], newTitle, Some(Wrapped("failed to update PR title", cause)))
      case None => Reconciliation([edit, ReadyForReviewStatus], newTitle, respond(ReadyForReviewStatus))
    else
      Reconciliation([ReadyForReviewStatus], title, respond(ReadyForReviewStatus))
  }

  /** `checkLabelAndSetStatus`: the label alone decides the status. */
  function LabelCheck(title: string, labels: seq<Label>, config: PluginConfiguration,
                      respond: Call -> Option<Error>): Reconciliation
  {
    if LabelPresent(labels, config.wipLabel) then
      Reconciliation([InProgressStatus], title, respond(InProgressStatus))
    else
      Reconciliation([ReadyForReviewStatus], title, respond(ReadyForReviewStatus))
  }

  /** The plans once the handler has looked at the title and the labels. */
  lemma TitleCheckIsWith(number: nat, title: string, labels: seq<Label>, config: PluginConfiguration,
                         respond: Call -> Option<Error>, marked: bool, labelExists: bool)
    requires marked == WipPrefix(title, config).0 && labelExists == LabelPresent(labels, config.wipLabel)
    ensures TitleCheck(number, title, labels, config, respond)
         == TitleCheckWith(number, title, marked, labelExists, config.wipLabel, respond)
  {
  }

  lemma TitleResetIsWith(number: nat, title: string, labels: seq<Label>, config: PluginConfiguration,
                         respond: Call -> Option<Error>, found: bool, prefix: string)
    requires !LabelPresent(labels, config.wipLabel) && (found, prefix) == WipPrefix(title, config)
    ensures TitleReset(number, title, labels, config, respond)
         == TitleResetWith(number, title, false, found, prefix, respond)
  {
  }

  lemma TitleResetWhileLabelled(number: nat, title: string, labels: seq<Label>, config: PluginConfiguration,
                                respond: Call -> Option<Error>)
    requires LabelPresent(labels, config.wipLabel)
    ensures TitleReset(number, title, labels, config, respond)
         == Reconciliation([InProgressStatus], title, respond(InProgressStatus))
  {
  }

  /** The client's log after at most one call and then a status call. */
  lemma CallsThenStatus(before: seq<Call>, calls: seq<Call>, status: Call)
    requires |calls| <= 1
    ensures (before + calls) + [status] == before + (calls + [status])
    ensures calls == [] ==> before + calls == before && calls + [status] == [status]
    ensures |calls| == 1 ==> calls + [status] == [calls[0], status]
  {
  }

  /** The title check reports Failure exactly when the title is marked, touches the label
      only to bring it in line with the title, never edits the title, and returns the status
      call's own result whatever the label call answered. */
  lemma TitleCheckDecides(number: nat, title: string, labels: seq<Label>, config: PluginConfiguration,
                          respond: Call -> Option<Error>)
    ensures var r := TitleCheck(number, title, labels, config, respond);
            var marked := WipPrefix(title, config).0;
            var present := LabelPresent(labels, config.wipLabel);
            && 1 <= |r.calls| <= 2
            && r.calls[|r.calls| - 1] == (if marked then InProgressStatus else ReadyForReviewStatus)
            && r.result == respond(r.calls[|r.calls| - 1])
            && (AddPullRequestLabel(number, config.wipLabel) in r.calls <==> marked && !present)
            && (RemovePullRequestLabel(number, config.wipLabel) in r.calls <==> !marked && present)
            && (forall c :: c in r.calls ==> !c.EditPullRequest?)
            && r.title == title
  {
  }

  /** The effect of successful label calls on the pull request's labels. */
  function ApplyLabelCalls(labels: seq<Label>, calls: seq<Call>): seq<Label>
    decreases |calls|
  {
    if calls == [] then labels
    else
      var next := match calls[0]
        case AddPullRequestLabel(_, text) =>
          var names := Fields(text);
          labels + seq(|names|, k requires 0 <= k < |names| => Label(names[k]))
        case RemovePullRequestLabel(_, name) => Without(labels, name)
        case _ => labels;
      ApplyLabelCalls(next, calls[1..])
  }

  /** `labels` without the ones named `name`. */
  function Without(labels: seq<Label>, name: string): (r: seq<Label>)
    ensures forall l :: l in r ==> l in labels && l.name != name
  {
    if labels == [] then []
    else (if labels[0].name == name then [] else [labels[0]]) + Without(labels[1..], name)
  }

  /** Convergence: once the label calls of a title check have gone through, a second check on
      the same title makes no label call, only the same status call (`again.calls`); the equal
      results follow from that, since a status call is answered by its state alone. This needs
      the label to be one word, because the label is added split into its white-space
      separated words. */
  lemma TitleCheckConverges(number: nat, title: string, labels: seq<Label>, config: PluginConfiguration,
                            respond: Call -> Option<Error>)
    requires config.wipLabel != [] && NoSpace(config.wipLabel)
    ensures var r := TitleCheck(number, title, labels, config, respond);
            var again := TitleCheck(number, title, ApplyLabelCalls(labels, r.calls), config, respond);
            again.calls == [r.calls[|r.calls| - 1]] && again.result == r.result
  {
    var r := TitleCheck(number, title, labels, config, respond);
    var marked := WipPrefix(title, config).0;
    var present := LabelPresent(labels, config.wipLabel);
    var after := ApplyLabelCalls(labels, r.calls);
    if marked && !present {
      AddedLabelIsPresent(number, labels, config.wipLabel);
    } else if !marked && present {
      RemovedLabelIsAbsent(number, labels, config.wipLabel);
    } else {
      var status := if marked then InProgressStatus else ReadyForReviewStatus;
      assert r.calls == [status];
      assert ApplyLabelCalls(labels, [status]) == ApplyLabelCalls(labels, []);
    }
  }

  lemma AddedLabelIsPresent(number: nat, labels: seq<Label>, name: string)
    requires name != [] && NoSpace(name)
    ensures LabelPresent(ApplyLabelCalls(labels, [AddPullRequestLabel(number, name), InProgressStatus]), name)
  {
    FieldsOfWord(name);
    var added := labels + seq(1, k requires 0 <= k < 1 => Label([name][k]));
    assert ApplyLabelCalls(labels, [AddPullRequestLabel(number, name), InProgressStatus])
        == ApplyLabelCalls(added, [InProgressStatus]);
    assert ApplyLabelCalls(added, [InProgressStatus]) == ApplyLabelCalls(added, []);
    assert added[|labels|].name == name;
  }

  lemma RemovedLabelIsAbsent(number: nat, labels: seq<Label>, name: string)
    ensures !LabelPresent(ApplyLabelCalls(labels, [RemovePullRequestLabel(number, name), ReadyForReviewStatus]), name)
  {
    var after := Without(labels, name);
    assert ApplyLabelCalls(labels, [RemovePullRequestLabel(number, name), ReadyForReviewStatus])
        == ApplyLabelCalls(after, [ReadyForReviewStatus]);
    assert ApplyLabelCalls(after, [ReadyForReviewStatus]) == ApplyLabelCalls(after, []);
    forall k | 0 <= k < |after| ensures after[k].name != name {
      assert after[k] in after;
    }
  }

  /** A label of several words never converges: the words are added as separate labels, none
      of which is the configured one, so the next check adds them again. */
  lemma MultiWordLabelIsAddedAgain(number: nat, title: string, labels: seq<Label>, config: PluginConfiguration,
                                   respond: Call -> Option<Error>)
    requires !NoSpace(config.wipLabel)
    requires WipPrefix(title, config).0 && !LabelPresent(labels, config.wipLabel)
    ensures var r := TitleCheck(number, title, labels, config, respond);
            var again := TitleCheck(number, title, ApplyLabelCalls(labels, r.calls), config, respond);
            AddPullRequestLabel(number, config.wipLabel) in again.calls
  {
    var r := TitleCheck(number, title, labels, config, respond);
    assert r.calls == [AddPullRequestLabel(number, config.wipLabel), InProgressStatus];
    MultiWordLabelStaysAbsent(number, labels, config.wipLabel);
  }

  lemma MultiWordLabelStaysAbsent(number: nat, labels: seq<Label>, name: string)
    requires !NoSpace(name) && !LabelPresent(labels, name)
    ensures !LabelPresent(ApplyLabelCalls(labels, [AddPullRequestLabel(number, name), InProgressStatus]), name)
  {
    var words := Fields(name);
    var added := labels + seq(|words|, k requires 0 <= k < |words| => Label(words[k]));
    assert ApplyLabelCalls(labels, [AddPullRequestLabel(number, name), InProgressStatus])
        == ApplyLabelCalls(added, [InProgressStatus]);
    assert ApplyLabelCalls(added, [InProgressStatus]) == added;
    forall k | 0 <= k < |added| ensures added[k].name != name {
      if k >= |labels| {
        assert added[k].name == words[k - |labels|];
        assert NoSpace(words[k - |labels|]);
      }
    }
  }

  /** The unlabeled path: a present label keeps the pull request in progress with the title
      untouched; otherwise a marked title is trimmed and sent, a failed edit is returned with
      no status, and every other case ends in Success. */
  lemma TitleResetDecides(number: nat, title: string, labels: seq<Label>, config: PluginConfiguration,
                          respond: Call -> Option<Error>)
    ensures var r := TitleReset(number, title, labels, config, respond);
            var (found, prefix) := WipPrefix(title, config);
            && (LabelPresent(labels, config.wipLabel) ==>
                  r.calls == [InProgressStatus] && r.title == title && r.result == respond(InProgressStatus))
            && (!LabelPresent(labels, config.wipLabel) && found ==>
                  && r.title == TrimPrefix(title, prefix)
                  && r.calls[0] == EditPullRequest(number, r.title)
                  && (respond(r.calls[0]).Some? ==>
                        r.calls == [r.calls[0]]
                        && r.result == Some(Wrapped("failed to update PR title", respond(r.calls[0]).value)))
                  && (respond(r.calls[0]).None? ==>
                        r.calls == [r.calls[0], ReadyForReviewStatus] && r.result == respond(ReadyForReviewStatus)))
            && (!LabelPresent(labels, config.wipLabel) && !found ==>
                  r.calls == [ReadyForReviewStatus] && r.title == title && r.result == respond(ReadyForReviewStatus))
            && (r.title == title || prefix + r.title == title)
  {
  }

  /** The matched prefix is removed only where the title literally begins with it: a
      bracketed marker is left in place, yet the title is sent and Success is reported. */
  lemma BracketedTitleIsNotTrimmed(number: nat, respond: Call -> Option<Error>)
    requires respond(EditPullRequest(number, "[WIP] fix")).None?
    ensures var r := TitleReset(number, "[WIP] fix", [], PluginConfiguration("work-in-progress", [], false), respond);
            r.title == "[WIP] fix" && r.calls == [EditPullRequest(number, "[WIP] fix"), ReadyForReviewStatus]
  {
    var config := PluginConfiguration("work-in-progress", [], false);
    DefaultMarkerMatches("[WIP] fix", true, true);
    assert !Text.HasPrefix("[WIP] fix", "WIP");
  }

  /** The label check reports Failure exactly when some label is named as configured. */
  lemma LabelCheckDecides(title: string, labels: seq<Label>, config: PluginConfiguration,
                          respond: Call -> Option<Error>)
    ensures var r := LabelCheck(title, labels, config, respond);
            && |r.calls| == 1 && r.calls[0].SetStatus? && r.title == title
            && (r.calls[0].state == Failure <==> exists k :: 0 <= k < |labels| && labels[k].name == config.wipLabel)
            && r.result == respond(r.calls[0])
  {
  }

  /** A title that starts with `[`/`(` when `open`, then "wip" in any case, then `]`/`)` when
      `close`, then `:` or a space, is marked by the first default prefix. */
  lemma DefaultMarkerMatches(title: string, open: bool, close: bool)
    requires var o1 := if open then 1 else 0;
             var o2 := if close then 1 else 0;
             && o1 + 3 + o2 < |title|
             && (open ==> IsOpening(title[0]))
             && Lower(title[o1]) == 'w' && Lower(title[o1 + 1]) == 'i' && Lower(title[o1 + 2]) == 'p'
             && (close ==> IsClosing(title[o1 + 3]))
             && IsSeparator(title[o1 + 3 + o2])
    ensures WipPrefix(title, PluginConfiguration("work-in-progress", [], false)) == (true, "WIP")
  {
    var config := PluginConfiguration("work-in-progress", [], false);
    var t := ToLower(title);
    assert Prefixes(config) == DefaultPrefixes;
    assert DefaultPrefixes[0] == "WIP";
    assert MatchesWith(t, 0, "WIP", open, close);
    assert LineStart(t, 0);
    assert WipPatternMatches(t, DefaultPrefixes[0]);
    assert FirstPrefixIndex(t, DefaultPrefixes) == 0;
  }

  /** Bracketed, lower-case and space-separated markers are recognised. */
  lemma WipTitleExamples()
    ensures WipPrefix("[WIP] fix bug", PluginConfiguration("work-in-progress", [], false)) == (true, "WIP")
    ensures WipPrefix("wip: fix bug", PluginConfiguration("work-in-progress", [], false)) == (true, "WIP")
    ensures WipPrefix("WIP fix bug", PluginConfiguration("work-in-progress", [], false)) == (true, "WIP")
  {
    DefaultMarkerMatches("[WIP] fix bug", true, true);
    DefaultMarkerMatches("wip: fix bug", false, false);
    DefaultMarkerMatches("WIP fix bug", false, false);
  }

  /** In a one-line text the pattern can only match at the start. */
  lemma OneLineMatchesAtStart(t: string, p: string)
    requires forall k :: 0 <= k < |t| ==> t[k] != '\n'
    ensures WipPatternMatches(t, p) <==> |t| > 0 && MatchesAt(t, 0, p)
  {
    forall pos | 0 < pos < |t| ensures !LineStart(t, pos) {
      assert t[pos - 1] != '\n';
    }
    if |t| > 0 && MatchesAt(t, 0, p) {
      assert LineStart(t, 0);
    }
  }

  /** A one-line title whose first word merely begins with "wip" (in any case) and goes on
      with a letter, such as "WIPster update", is not marked by any default prefix. */
  lemma WordStartingWithWipIsNotMarked(title: string)
    requires |title| >= 4 && forall k :: 0 <= k < |title| ==> title[k] != '\n'
    requires Lower(title[0]) == 'w' && Lower(title[1]) == 'i' && Lower(title[2]) == 'p'
    requires 'a' <= Lower(title[3]) <= 'z'
    ensures WipPrefix(title, PluginConfiguration("work-in-progress", [], false)) == (false, "")
  {
    var config := PluginConfiguration("work-in-progress", [], false);
    var t := ToLower(title);
    assert Prefixes(config) == DefaultPrefixes;
    forall j | 0 <= j < |DefaultPrefixes| ensures !WipPatternMatches(t, DefaultPrefixes[j]) {
      var p := DefaultPrefixes[j];
      OneLineMatchesAtStart(t, p);
      assert !IsOpening(t[0]);
      if j == 0 {
        assert p == "WIP";
        assert !IsSeparator(t[3]) && !IsClosing(t[3]);
      } else if j == 3 {
        assert p[1] == 'O';
        assert Lower(t[1]) != Lower(p[1]);
      } else {
        assert p[0] == 'D';
        assert Lower(t[0]) != Lower(p[0]);
      }
    }
  }

  /** A word that only begins with "wip" is not a marker: "WIPster update" is not marked. */
  lemma WipsterIsNotMarked()
    ensures WipPrefix("WIPster update", PluginConfiguration("work-in-progress", [], false)) == (false, "")
  {
    var title := "WIPster update";
    forall k | 0 <= k < |title| ensures title[k] != '\n' {}
    WordStartingWithWipIsNotMarked(title);
  }

  /** Where an event goes. */
  datatype Route = Ignored | LabelCheckRoute | TitleResetRoute | TitleCheckRoute | CommentCommandRoute

  datatype EventKind = PullRequestKind | IssueCommentKind | OtherKind(name: string)

  /** `HandleEvent`, `handlePrEvent` and `handlePrComment`'s action filter. */
  function RouteOf(kind: EventKind, action: string): (r: Route)
    ensures r == Ignored <==>
              kind.OtherKind? || (kind == PullRequestKind && action !in HandledPrActions)
              || (kind == IssueCommentKind && action != "created")
    ensures r == LabelCheckRoute <==> kind == PullRequestKind && action == "labeled"
    ensures r == TitleResetRoute <==> kind == PullRequestKind && action == "unlabeled"
    ensures r == TitleCheckRoute <==>
              kind == PullRequestKind && (action == "opened" || action == "reopened" || action == "edited" || action == "synchronize")
    ensures r == CommentCommandRoute <==> kind == IssueCommentKind && action == "created"
  {
    match kind
    case PullRequestKind =>
      if action !in HandledPrActions then Ignored
      else if action == "labeled" then LabelCheckRoute
      else if action == "unlabeled" then TitleResetRoute
      else TitleCheckRoute
    case IssueCommentKind =>
      if action !in HandledCommentActions then Ignored else CommentCommandRoute
    case OtherKind(_) => Ignored
  }

  /** The GitHub client: every call is appended to `calls` and answered by `respond`. */
  class Client {
    var calls: seq<Call>
    const respond: Call -> Option<Error>

    constructor (respond: Call -> Option<Error>)
      ensures calls == [] && this.respond == respond
    {
      calls := [];
      this.respond := respond;
    }

    method Perform(c: Call) returns (err: Option<Error>)
      modifies this
      ensures calls == old(calls) + [c] && err == respond(c)
    {
      calls := calls + [c];
      err := respond(c);
    }
  }

  /** A pull request as the handler holds it; only the title is changed in place. */
  class PullRequest {
    const number: nat
    var title: string
    const labels: seq<Label>

    constructor (number: nat, title: string, labels: seq<Label>)
      ensures this.number == number && this.title == title && this.labels == labels
    {
      this.number := number;
      this.title := title;
      this.labels := labels;
    }
  }

  /** A decoded webhook event. */
  datatype Event =
    | PullRequestEvent(action: string, pullRequest: PullRequest)
    | IssueCommentEvent(action: string)
    | OtherEvent(eventType: string)
  {
    /** The webhook action; an event of another type is never decoded, so it has none. */
    function Action(): string {
      match this
      case PullRequestEvent(action, _) => action
      case IssueCommentEvent(action) => action
      case OtherEvent(_) => ""
    }

    function Kind(): EventKind {
      match this
      case PullRequestEvent(_, _) => PullRequestKind
      case IssueCommentEvent(_) => IssueCommentKind
      case OtherEvent(name) => OtherKind(name)
    }
  }

  /** What the comment command handler did with a command comment: it returned `result`
      without running the registered effect (no matching command, a denied user, a pull request
      that failed to load), or it ran the effect on the pull request it loaded. */
  datatype CommandRun =
    | EffectSkipped(result: Option<Error>)
    | EffectRun(loaded: PullRequest)

  /** `GitHubWIPPRHandler`. */
  class WipHandler {
    const client: Client
    const botName: string

    constructor (client: Client, botName: string)
      ensures this.client == client && this.botName == botName
    {
      this.client := client;
      this.botName := botName;
    }

    method CheckTitleAndSetStatus(pr: PullRequest, config: PluginConfiguration) returns (err: Option<Error>)
      modifies client
      ensures var plan := TitleCheck(pr.number, pr.title, pr.labels, config, client.respond);
              client.calls == old(client.calls) + plan.calls && err == plan.result
    {
      var labelExists := HasWorkInProgressLabel(pr.labels, config.wipLabel);
      var found, _ := HasWorkInProgressPrefix(pr.title, config);
      TitleCheckIsWith(pr.number, pr.title, pr.labels, config, client.respond, found, labelExists);
      ghost var before := client.calls;
      if found {
        ghost var labelCalls := if !labelExists then [AddPullRequestLabel(pr.number, config.wipLabel)] else [];
        if !labelExists {
          var _ := client.Perform(AddPullRequestLabel(pr.number, config.wipLabel));
        }
        CallsThenStatus(before, labelCalls, InProgressStatus);
        err := client.Perform(InProgressStatus);
        return;
      }
      ghost var labelCalls := if labelExists then [RemovePullRequestLabel(pr.number, config.wipLabel)] else [];
      if labelExists {
        var _ := client.Perform(RemovePullRequestLabel(pr.number, config.wipLabel));
      }
      CallsThenStatus(before, labelCalls, ReadyForReviewStatus);
      err := client.Perform(ReadyForReviewStatus);
    }

    method UpdateTitleAndResetStatus(pr: PullRequest, config: PluginConfiguration) returns (err: Option<Error>)
      modifies client, pr
      ensures var plan := TitleReset(pr.number, old(pr.title), pr.labels, config, client.respond);
              client.calls == old(client.calls) + plan.calls && pr.title == plan.title && err == plan.result
    {
      ghost var before := client.calls;
      var labelExists := HasWorkInProgressLabel(pr.labels, config.wipLabel);
      if !labelExists {
        var found, prefix := HasWorkInProgressPrefix(pr.title, config);
        TitleResetIsWith(pr.number, pr.title, pr.labels, config, client.respond, found, prefix);
        ghost var editCalls := if found then [EditPullRequest(pr.number, TrimPrefix(pr.title, prefix))] else [];
        if found {
          pr.title := TrimPrefix(pr.title, prefix);
          var editErr := client.Perform(EditPullRequest(pr.number, pr.title));
          if editErr.Some? {
            return Some(Wrapped("failed to update PR title", editErr.value));
          }
        }
        CallsThenStatus(before, editCalls, ReadyForReviewStatus);
        err := client.Perform(ReadyForReviewStatus);
        return;
      }
      TitleResetWhileLabelled(pr.number, pr.title, pr.labels, config, client.respond);
      err := client.Perform(InProgressStatus);
    }

    method CheckLabelAndSetStatus(pr: PullRequest, config: PluginConfiguration) returns (err: Option<Error>)
      modifies client
      ensures var plan := LabelCheck(pr.title, pr.labels, config, client.respond);
              client.calls == old(client.calls) + plan.calls && err == plan.result
    {
      var labelExists := HasWorkInProgressLabel(pr.labels, config.wipLabel);
      if labelExists {
        err := client.Perform(InProgressStatus);
        return;
      }
      err := client.Perform(ReadyForReviewStatus);
    }

    /** `HandleEvent`. A command comment goes to the comment command handler, which is not
        part of this model: `command` says what it did, either returning without running the
        effect the bot registers, or running that effect, the title check, on the pull request
        it loaded. Outside the title reset, the event's pull request keeps its title. */
    method HandleEvent(event: Event, config: PluginConfiguration, command: CommandRun)
      returns (err: Option<Error>)
      modifies client, if event.PullRequestEvent? then {event.pullRequest} else {}
      ensures var route := RouteOf(event.Kind(), event.Action());
              && (route == Ignored ==> err.None? && client.calls == old(client.calls))
              && (route == CommentCommandRoute && command.EffectSkipped? ==>
                    err == command.result && client.calls == old(client.calls))
              && (route == CommentCommandRoute && command.EffectRun? ==>
                    var pr := command.loaded;
                    var plan := TitleCheck(pr.number, old(pr.title), pr.labels, config, client.respond);
                    client.calls == old(client.calls) + plan.calls && err == plan.result)
              && (route == LabelCheckRoute ==>
                    var plan := LabelCheck(old(event.pullRequest.title), event.pullRequest.labels, config, client.respond);
                    client.calls == old(client.calls) + plan.calls && err == plan.result)
              && (route == TitleCheckRoute ==>
                    var plan := TitleCheck(event.pullRequest.number, old(event.pullRequest.title), event.pullRequest.labels, config, client.respond);
                    client.calls == old(client.calls) + plan.calls && err == plan.result)
              && (route == TitleResetRoute ==>
                    var plan := TitleReset(event.pullRequest.number, old(event.pullRequest.title), event.pullRequest.labels, config, client.respond);
                    client.calls == old(client.calls) + plan.calls && event.pullRequest.title == plan.title && err == plan.result)
      ensures event.PullRequestEvent? && RouteOf(event.Kind(), event.Action()) != TitleResetRoute
              ==> event.pullRequest.title == old(event.pullRequest.title)
    {
      match RouteOf(event.Kind(), event.Action())
      case Ignored =>
        err := None;
      case CommentCommandRoute =>
        if command.EffectRun? {
          err := CheckTitleAndSetStatus(command.loaded, config);
        } else {
          err := command.result;
        }
      case LabelCheckRoute =>
        err := CheckLabelAndSetStatus(event.pullRequest, config);
      case TitleCheckRoute =>
        err := CheckTitleAndSetStatus(event.pullRequest, config);
      case TitleResetRoute =>
        err := UpdateTitleAndResetStatus(event.pullRequest, config);
    }
  }
}
