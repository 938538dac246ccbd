/** The test-keeper's tally of a pull request's changed files: every file is either excluded
    from the check (it matches an exclusion pattern), a test (it matches an inclusion pattern and
    no exclusion pattern), or neither. Matching a pattern against a file name is regular-expression
    matching, which is left abstract: it is a parameter of every member that needs it. */
module TestKeeper {
  import opened FilePatterns

  /** A file of the changeset, as the source-control client reports it. */
  datatype ChangedFile = ChangedFile(name: string, status: string)

  /** The repository's test-keeper settings: regular expressions for test files and for files to
      skip ("" when not set), and whether they extend the built-in patterns or replace them. */
  datatype TestKeeperConfiguration = TestKeeperConfiguration(inclusion: string, exclusion: string, combine: bool)

  /** The pattern sets a changeset is classified against. */
  datatype Matcher = Matcher(inclusion: seq<FilePattern>, exclusion: seq<FilePattern>)

  /** Whether a compiled pattern finds a match in a file name. */
  type RegexpMatch = (FilePattern, string) -> bool

  predicate MatchesAny(patterns: seq<FilePattern>, name: string, matches: RegexpMatch) {
    exists k :: 0 <= k < |patterns| && matches(patterns[k], name)
  }

  /** One effective pattern set: the user's pattern when set, together with the built-in ones
      when combining, and the built-in ones alone when the user's pattern is not set. */
  function EffectivePatterns(user: string, defaults: seq<FilePattern>, combine: bool): seq<FilePattern>
  {
    if user == "" then defaults
    else if combine then [FilePattern(user)] + defaults
    else [FilePattern(user)]
  }

  /** `LoadMatcher`: the matcher for a configuration, given the built-in matcher. */
  function LoadMatcher(config: TestKeeperConfiguration, defaults: Matcher): Matcher
  {
    Matcher(EffectivePatterns(config.inclusion, defaults.inclusion, config.combine),
            EffectivePatterns(config.exclusion, defaults.exclusion, config.combine))
  }

  /** A name matches an effective pattern set exactly when it matches the user's pattern (if set)
      or a built-in pattern (if those are in use: the user's pattern is unset or combined). */
  lemma EffectivePatternsMatch(user: string, defaults: seq<FilePattern>, combine: bool, name: string, matches: RegexpMatch)
    ensures MatchesAny(EffectivePatterns(user, defaults, combine), name, matches) <==>
              ((user != "" && matches(FilePattern(user), name))
               || ((user == "" || combine) && MatchesAny(defaults, name, matches)))
  {
    var ps := EffectivePatterns(user, defaults, combine);
    if user != "" && combine {
      if MatchesAny(defaults, name, matches) {
        var k :| 0 <= k < |defaults| && matches(defaults[k], name);
        assert ps[k + 1] == defaults[k];
      }
      if MatchesAny(ps, name, matches) {
        var k :| 0 <= k < |ps| && matches(ps[k], name);
        if k > 0 {
          assert ps[k] == defaults[k - 1];
        } else {
          assert ps[0] == FilePattern(user);
        }
      }
    } else if user != "" {
      if matches(FilePattern(user), name) {
        assert ps[0] == FilePattern(user);
      }
    }
  }

  /** What a configuration does to the matcher: an unset pattern falls back to the built-in set,
      a set one replaces it or, when combining, extends it; both sides are treated alike. */
  lemma LoadMatcherMatches(config: TestKeeperConfiguration, defaults: Matcher, name: string, matches: RegexpMatch)
    ensures var m := LoadMatcher(config, defaults);
            && (MatchesAny(m.inclusion, name, matches) <==>
                 ((config.inclusion != "" && matches(FilePattern(config.inclusion), name))
                  || ((config.inclusion == "" || config.combine) && MatchesAny(defaults.inclusion, name, matches))))
            && (MatchesAny(m.exclusion, name, matches) <==>
                 ((config.exclusion != "" && matches(FilePattern(config.exclusion), name))
                  || ((config.exclusion == "" || config.combine) && MatchesAny(defaults.exclusion, name, matches))))
  {
    EffectivePatternsMatch(config.inclusion, defaults.inclusion, config.combine, name, matches);
    EffectivePatternsMatch(config.exclusion, defaults.exclusion, config.combine, name, matches);
  }

  /** The tallies of one changeset. */
  datatype FileCategories = FileCategories(matchedInclusion: nat, matchedExclusion: nat, total: nat)
  {
    /** Some changed file is a test. */
    predicate TestsExist() {
      matchedInclusion > 0
    }

    /** The changeset is not empty and every file in it is excluded from the check. */
    predicate OnlySkippedFiles() {
      total > 0 && matchedExclusion == total
    }
  }

  /** A file excluded from the check. */
  predicate IsExcluded(m: Matcher, f: ChangedFile, matches: RegexpMatch) {
    MatchesAny(m.exclusion, f.name, matches)
  }

  /** A test file: included, and not excluded, since exclusion takes precedence. */
  predicate IsTest(m: Matcher, f: ChangedFile, matches: RegexpMatch) {
    !IsExcluded(m, f, matches) && MatchesAny(m.inclusion, f.name, matches)
  }

  /** The tallies after one more file. */
  function Classify(c: FileCategories, m: Matcher, f: ChangedFile, matches: RegexpMatch): FileCategories {
    if IsExcluded(m, f, matches) then c.(matchedExclusion := c.matchedExclusion + 1, total := c.total + 1)
    else if IsTest(m, f, matches) then c.(matchedInclusion := c.matchedInclusion + 1, total := c.total + 1)
    else c.(total := c.total + 1)
  }

  /** The tallies of a changeset, file by file in order. */
  function Tally(m: Matcher, files: seq<ChangedFile>, matches: RegexpMatch): (c: FileCategories)
    ensures c.total == |files|
    ensures c.matchedInclusion + c.matchedExclusion <= c.total
  {
    if files == [] then FileCategories(0, 0, 0)
    else Classify(Tally(m, files[..|files| - 1], matches), m, files[|files| - 1], matches)
  }

  /** `FileCategoryCounter`: classifies changesets against one matcher. */
  datatype FileCategoryCounter = FileCategoryCounter(matcher: Matcher)
  {
    /** `Count`: one pass over the changeset. */
    method Count(files: seq<ChangedFile>, matches: RegexpMatch) returns (c: FileCategories)
      ensures c == Tally(matcher, files, matches)
      ensures c.total == |files|
    {
      c := FileCategories(0, 0, 0);
      var i := 0;
      while i < |files|
        invariant 0 <= i <= |files|
        invariant c == Tally(matcher, files[..i], matches)
      {
        var name := files[i].name;
        if MatchesAny(matcher.exclusion, name, matches) {
          c := c.(matchedExclusion := c.matchedExclusion + 1);
        } else if MatchesAny(matcher.inclusion, name, matches) {
          c := c.(matchedInclusion := c.matchedInclusion + 1);
        }
        c := c.(total := c.total + 1);
        assert files[..i + 1][..i] == files[..i];
        i := i + 1;
      }
      assert files[..i] == files;
    }
  }

  /** Tests exist exactly when some file of the changeset is a test. */
  lemma {:induction false} TestsExistIff(m: Matcher, files: seq<ChangedFile>, matches: RegexpMatch)
    ensures Tally(m, files, matches).TestsExist() <==> exists k :: 0 <= k < |files| && IsTest(m, files[k], matches)
  {
    if files != [] {
      var init := files[..|files| - 1];
      TestsExistIff(m, init, matches);
      if exists k :: 0 <= k < |init| && IsTest(m, init[k], matches) {
        var k :| 0 <= k < |init| && IsTest(m, init[k], matches);
        assert files[k] == init[k];
      }
      if exists k :: 0 <= k < |files| && IsTest(m, files[k], matches) {
        var k :| 0 <= k < |files| && IsTest(m, files[k], matches);
        if k < |init| {
          assert init[k] == files[k];
        }
      }
    }
  }

  /** All files are skipped exactly when the changeset is not empty and every file is excluded;
      a file that is also included does not change that. */
  lemma {:induction false} OnlySkippedFilesIff(m: Matcher, files: seq<ChangedFile>, matches: RegexpMatch)
    ensures Tally(m, files, matches).OnlySkippedFiles() <==>
              (|files| > 0 && forall k :: 0 <= k < |files| ==> IsExcluded(m, files[k], matches))
  {
    AllExcludedIff(m, files, matches);
  }

  lemma {:induction false} AllExcludedIff(m: Matcher, files: seq<ChangedFile>, matches: RegexpMatch)
    ensures Tally(m, files, matches).matchedExclusion == |files| <==>
              forall k :: 0 <= k < |files| ==> IsExcluded(m, files[k], matches)
  {
    if files != [] {
      var init := files[..|files| - 1];
      AllExcludedIff(m, init, matches);
      if forall k :: 0 <= k < |files| ==> IsExcluded(m, files[k], matches) {
        forall k | 0 <= k < |init| ensures IsExcluded(m, init[k], matches) {
          assert init[k] == files[k];
        }
      }
      if forall k :: 0 <= k < |init| ==> IsExcluded(m, init[k], matches) {
        forall k | 0 <= k < |files| - 1 ensures IsExcluded(m, files[k], matches) {
          assert files[k] == init[k];
        }
      }
    }
  }

  /** The tallies of a changeset are the sums of the tallies of its parts: files are counted per
      entry, so a name listed twice is counted twice. */
  lemma {:induction false} TallyAppend(m: Matcher, a: seq<ChangedFile>, b: seq<ChangedFile>, matches: RegexpMatch)
    ensures var ta, tb, tab := Tally(m, a, matches), Tally(m, b, matches), Tally(m, a + b, matches);
            tab == FileCategories(ta.matchedInclusion + tb.matchedInclusion,
                                  ta.matchedExclusion + tb.matchedExclusion, ta.total + tb.total)
    decreases |b|
  {
    if b == [] {
      assert a + b == a;
    } else {
      var init := b[..|b| - 1];
      TallyAppend(m, a, init, matches);
      assert (a + b)[..|a + b| - 1] == a + init;
      assert (a + b)[|a + b| - 1] == b[|b| - 1];
    }
  }

  /** `changedFilesSet`: the changeset of the given names, each with status "added". */
  method ChangedFilesSet(names: seq<string>) returns (files: seq<ChangedFile>)
    ensures |files| == |names|
    ensures forall k :: 0 <= k < |names| ==> files[k] == ChangedFile(names[k], "added")
  {
    files := [];
    for i := 0 to |names|
      invariant |files| == i
      invariant forall k :: 0 <= k < i ==> files[k] == ChangedFile(names[k], "added")
    {
      files := files + [ChangedFile(names[i], "added")];
    }
  }
}
