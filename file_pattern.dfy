/** The test-keeper's file patterns: a pattern is either a raw regular expression wrapped as
    `regex{{...}}` or a glob, which is translated to a regular expression: `**` becomes `.*`,
    `*` becomes `[^/]*`, `.` becomes `\.`, and the result is anchored at the end with `$`,
    unless the glob names a directory (ends in `/`), which gets `.*` instead. A leading `*` in
    a glob that has no `/` may match across directories and becomes `.*`. */
module FilePatterns {

  /** A compiled pattern: the regular expression text. */
  datatype FilePattern = FilePattern(regexp: string)

  /** `regex{{X}}`: the escape hatch for a raw regular expression `X`. */
  predicate IsRegexForm(p: string) {
    |p| >= 9 && p[|p| - 1] == '}' && p[|p| - 2] == '}' && p[..7] == "regex{{"
  }

  /** A glob naming a directory. */
  predicate IsDirectory(p: string) {
    p != [] && p[|p| - 1] == '/'
  }

  /** A glob whose first `*` stands alone, at the start, with no `/` anywhere. */
  predicate IsLeadingStarName(p: string) {
    |p| >= 1 && p[0] == '*' && !(|p| >= 2 && p[1] == '*') && '/' !in p
  }

  /** The length of the first token of a glob: 2 for `**`, 1 for any other character. */
  function TokenLength(g: string): (n: nat)
    requires g != []
    ensures 1 <= n <= 2 && (n == 2 ==> n <= |g|)
  {
    if |g| >= 2 && g[0] == '*' && g[1] == '*' then 2 else 1
  }

  /** The regular expression for the first token of a glob. */
  function TokenRegexp(g: string): string
    requires g != []
  {
    if TokenLength(g) == 2 then ".*"
    else if g[0] == '*' then "[^/]*"
    else if g[0] == '.' then "\\."
    else [g[0]]
  }

  /** The token-by-token translation of a glob. */
  function TranslateGlob(g: string): string
    decreases |g|
  {
    if g == [] then [] else TokenRegexp(g) + TranslateGlob(g[TokenLength(g)..])
  }

  /** The translation of a glob, before anchoring. */
  function GlobBody(p: string): string
  {
    if IsLeadingStarName(p) then ".*" + TranslateGlob(p[1..]) else TranslateGlob(p)
  }

  /** The regular expression for one pattern. */
  function ParseFilePattern(p: string): string
  {
    if IsRegexForm(p) then p[7..|p| - 2]
    else if IsDirectory(p) then GlobBody(p) + ".*"
    else GlobBody(p) + "$"
  }

  /** `ParseFilePatterns`: one compiled pattern per given pattern, in order. */
  function ParseFilePatterns(patterns: seq<string>): (r: seq<FilePattern>)
    ensures |r| == |patterns|
    ensures forall k :: 0 <= k < |patterns| ==> r[k] == FilePattern(ParseFilePattern(patterns[k]))
  {
    if patterns == [] then [] else [FilePattern(ParseFilePattern(patterns[0]))] + ParseFilePatterns(patterns[1..])
  }

  /** A single pattern compiles on its own. */
  lemma ParseOne(p: string)
    ensures ParseFilePatterns([p]) == [FilePattern(ParseFilePattern(p))]
  {
    var r := ParseFilePatterns([p]);
    assert |r| == 1 && r[0] == FilePattern(ParseFilePattern(p));
  }

  /** `regex{{X}}` compiles to exactly `X`, with nothing escaped or anchored. */
  lemma RegexFormIsVerbatim(x: string)
    ensures ParseFilePattern("regex{{" + x + "}}") == x
  {
    var p := "regex{{" + x + "}}";
    assert p[..7] == "regex{{" && p[|p| - 1] == '}' && p[|p| - 2] == '}';
    assert p[7..|p| - 2] == x;
  }

  /** Anchoring: a directory glob (ending in `/`) ends in `.*` with no `$`; every other glob
      ends in `$`; and no glob gains a `^` start anchor of its own. */
  lemma GlobAnchoring(p: string)
    requires !IsRegexForm(p)
    ensures var r := ParseFilePattern(p);
            && (IsDirectory(p) ==> |r| >= 2 && r[|r| - 2..] == ".*")
            && (!IsDirectory(p) ==> r != [] && r[|r| - 1] == '$')
            && (r[0] == '^' ==> p != [] && p[0] == '^')
  {
    var r := ParseFilePattern(p);
    if IsDirectory(p) {
      assert r[|r| - 2..] == ".*";
    }
    if p != [] && !IsLeadingStarName(p) {
      assert TranslateGlob(p)[0] == TokenRegexp(p)[0];
    }
  }

  /** The length of the first regular-expression piece read back from `r`. */
  function ReadLength(r: string): (n: nat)
    requires r != []
    ensures 1 <= n <= |r|
  {
    if |r| >= 2 && r[0] == '\\' && r[1] == '.' then 2
    else if |r| >= 2 && r[0] == '.' && r[1] == '*' then 2
    else if |r| >= 5 && r[0] == '[' && r[1] == '^' && r[2] == '/' && r[3] == ']' && r[4] == '*' then 5
    else 1
  }

  /** The glob token the first piece of `r` stands for: `\.` is `.`, `.*` is `**`, `[^/]*` is
      `*`, and any other character stands for itself. */
  function ReadToken(r: string): string
    requires r != []
  {
    if |r| >= 2 && r[0] == '\\' && r[1] == '.' then "."
    else if |r| >= 2 && r[0] == '.' && r[1] == '*' then "**"
    else if ReadLength(r) == 5 then "*"
    else [r[0]]
  }

  /** Reads a translated glob back, piece by piece. */
  function UntranslateGlob(r: string): string
    decreases |r|
  {
    if r == [] then [] else ReadToken(r) + UntranslateGlob(r[ReadLength(r)..])
  }

  /** The glob a compiled glob pattern was made from, up to writing a leading lone `*` as `**`. */
  function GlobOf(r: string): string {
    if r != [] && r[|r| - 1] == '$' then UntranslateGlob(r[..|r| - 1])
    else if |r| >= 2 then UntranslateGlob(r[..|r| - 2])
    else r
  }

  predicate NoBackslashOrBracket(g: string) {
    forall k :: 0 <= k < |g| ==> g[k] != '\\' && g[k] != '['
  }

  /** Reading back the translation of the first token gives the token. */
  lemma ReadTokenOfTranslation(g: string, rest: string)
    requires g != [] && g[0] != '\\' && g[0] != '['
    ensures var t := TokenRegexp(g);
            ReadLength(t + rest) == |t| && ReadToken(t + rest) == g[..TokenLength(g)]
  {
    var t := TokenRegexp(g);
    var tr := t + rest;
    assert tr[0] == t[0];
    if |t| >= 2 {
      assert tr[1] == t[1];
    }
    if |t| == 5 {
      assert tr[2] == t[2] && tr[3] == t[3] && tr[4] == t[4];
    }
  }

  /** The translation loses nothing: for globs without `\` or `[` it can be read back. */
  lemma {:induction false} TranslateGlobRoundTrip(g: string)
    requires NoBackslashOrBracket(g)
    ensures UntranslateGlob(TranslateGlob(g)) == g
    decreases |g|
  {
    if g != [] {
      var n := TokenLength(g);
      NoBackslashOrBracketSuffix(g, n);
      TranslateGlobRoundTrip(g[n..]);
      UntranslateFirstToken(g);
      SplitAt(g, n);
    }
  }

  /** Reading back a translation starts with the first token of the glob. */
  lemma UntranslateFirstToken(g: string)
    requires g != [] && g[0] != '\\' && g[0] != '['
    ensures UntranslateGlob(TranslateGlob(g)) == g[..TokenLength(g)] + UntranslateGlob(TranslateGlob(g[TokenLength(g)..]))
  {
    var t := TokenRegexp(g);
    var rest := TranslateGlob(g[TokenLength(g)..]);
    ReadTokenOfTranslation(g, rest);
    assert (t + rest)[|t|..] == rest;
  }

  lemma NoBackslashOrBracketSuffix(g: string, n: nat)
    requires n <= |g| && NoBackslashOrBracket(g)
    ensures NoBackslashOrBracket(g[n..])
  {
    forall k | 0 <= k < |g| - n ensures g[n..][k] != '\\' && g[n..][k] != '[' {
      assert g[n..][k] == g[n + k];
    }
  }

  /** The body of a glob reads back as the glob, a leading lone `*` of a plain name as `**`. */
  lemma GlobBodyRoundTrip(p: string)
    requires NoBackslashOrBracket(p)
    ensures UntranslateGlob(GlobBody(p)) == if IsLeadingStarName(p) then "*" + p else p
  {
    if IsLeadingStarName(p) {
      var rest := TranslateGlob(p[1..]);
      NoBackslashOrBracketSuffix(p, 1);
      TranslateGlobRoundTrip(p[1..]);
      assert (".*" + rest)[2..] == rest;
      assert "*" + p == "**" + p[1..];
    } else {
      TranslateGlobRoundTrip(p);
    }
  }

  /** Reading a compiled glob back gives the glob, except that a leading lone `*` of a plain
      name comes back as `**`, which the translation treats alike. */
  lemma ParseFilePatternRoundTrip(p: string)
    requires !IsRegexForm(p) && NoBackslashOrBracket(p)
    ensures GlobOf(ParseFilePattern(p)) == if IsLeadingStarName(p) then "*" + p else p
  {
    var body := GlobBody(p);
    var r := ParseFilePattern(p);
    GlobBodyRoundTrip(p);
    if IsDirectory(p) {
      assert r == body + ".*";
      assert r[|r| - 1] == '*';
      assert r[..|r| - 2] == body;
    } else {
      assert r == body + "$";
      assert r[..|r| - 1] == body;
    }
  }

  /** The first token of a concatenation is the first token of its first part, when that part
      does not end in `*`. */
  lemma TokenOfAppend(a: string, b: string)
    requires a != [] && a[|a| - 1] != '*'
    ensures TokenLength(a + b) == TokenLength(a) <= |a|
    ensures TokenRegexp(a + b) == TokenRegexp(a)
  {
    var ab := a + b;
    assert ab[0] == a[0];
    if a[0] == '*' {
      assert |a| >= 2 && ab[1] == a[1];
    }
  }

  /** Translating a concatenation translates the parts, when the first does not end in `*`. */
  lemma {:induction false} TranslateGlobAppend(a: string, b: string)
    requires a == [] || a[|a| - 1] != '*'
    ensures TranslateGlob(a + b) == TranslateGlob(a) + TranslateGlob(b)
    decreases |a|
  {
    if a == [] {
      assert a + b == b;
    } else {
      var n := TokenLength(a);
      TokenOfAppend(a, b);
      assert (a + b)[n..] == a[n..] + b;
      TranslateGlobAppend(a[n..], b);
      TranslateGlobUnfold(a + b);
      TranslateGlobUnfold(a);
      Regroup(TokenRegexp(a), TranslateGlob(a[n..]), TranslateGlob(b));
    }
  }

  lemma TranslateGlobUnfold(g: string)
    requires g != []
    ensures TranslateGlob(g) == TokenRegexp(g) + TranslateGlob(g[TokenLength(g)..])
  {
  }

  /** A string is its prefix followed by its suffix. */
  lemma SplitAt(g: string, n: nat)
    requires n <= |g|
    ensures g[..n] + g[n..] == g
  {
  }

  /** Concatenation regrouped. */
  lemma Regroup(x: string, y: string, z: string)
    ensures (x + y) + z == x + (y + z)
  {
  }

  /** A glob with no `*` and no `.` translates to itself. */
  lemma {:induction false} TranslatePlain(w: string)
    requires Plain(w)
    ensures TranslateGlob(w) == w
    decreases |w|
  {
    if w != [] {
      TranslatePlain(w[1..]);
      assert w == [w[0]] + w[1..];
    }
  }

  /** A glob without wildcards or dots. */
  predicate Plain(w: string) {
    forall k :: 0 <= k < |w| ==> w[k] != '*' && w[k] != '.'
  }

  /** `**` is translated to `.*`, whatever follows. */
  lemma TranslateStarStar(rest: string)
    ensures TranslateGlob("**" + rest) == ".*" + TranslateGlob(rest)
  {
    assert ("**" + rest)[2..] == rest;
  }

  /** A lone `*` is translated to `[^/]*`. */
  lemma TranslateStar(rest: string)
    requires rest == [] || rest[0] != '*'
    ensures TranslateGlob("*" + rest) == "[^/]*" + TranslateGlob(rest)
  {
    assert ("*" + rest)[1..] == rest;
  }

  /** A name or directory segment: no wildcard, dot, slash or closing brace. */
  predicate Word(w: string) {
    w != [] && forall k :: 0 <= k < |w| ==> w[k] != '*' && w[k] != '.' && w[k] != '/' && w[k] != '}'
  }

  /** A slash is copied. */
  lemma TranslateSlash(rest: string)
    ensures TranslateGlob("/" + rest) == "/" + TranslateGlob(rest)
  {
    assert ("/" + rest)[1..] == rest;
  }

  /** A plain segment is copied. */
  lemma TranslateWordThen(w: string, rest: string)
    requires Word(w)
    ensures TranslateGlob(w + rest) == w + TranslateGlob(rest)
  {
    TranslatePlain(w);
    TranslateGlobAppend(w, rest);
  }

  /** A file name `stem.ext` has its dot escaped and nothing else changed. */
  lemma TranslateName(stem: string, ext: string)
    requires Word(stem) && Word(ext)
    ensures TranslateGlob(stem + "." + ext) == stem + "\\." + ext
  {
    TranslatePlain(ext);
    assert ("." + ext)[1..] == ext;
    TranslateWordThen(stem, "." + ext);
    RegroupName(stem, ext);
  }

  /** A name `*stem.ext`: the wildcard stays within one directory. */
  lemma TranslateStarName(stem: string, ext: string)
    requires Word(stem) && Word(ext)
    ensures TranslateGlob("*" + stem + "." + ext) == "[^/]*" + stem + "\\." + ext
  {
    TranslateName(stem, ext);
    TranslateStar(stem + "." + ext);
    RegroupName(stem, ext);
  }

  // `**/*stem.ext`: any number of directories, then a name.
  lemma TranslateAnyDepthName(stem: string, ext: string)
    requires Word(stem) && Word(ext)
    ensures TranslateGlob("**/*" + stem + "." + ext) == ".*/[^/]*" + stem + "\\." + ext
  {
    var tail := "*" + stem + "." + ext;
    TranslateStarName(stem, ext);
    TranslateSlash(tail);
    TranslateStarStar("/" + tail);
    RegroupName(stem, ext);
  }

  // `*/*stem.ext`: one directory, then a name.
  lemma TranslateOneLevelName(stem: string, ext: string)
    requires Word(stem) && Word(ext)
    ensures TranslateGlob("*/*" + stem + "." + ext) == "[^/]*/[^/]*" + stem + "\\." + ext
  {
    var tail := "*" + stem + "." + ext;
    TranslateStarName(stem, ext);
    TranslateSlash(tail);
    TranslateStar("/" + tail);
    RegroupName(stem, ext);
  }

  // `*/**/*stem.ext`: one directory, any number more, then a name.
  lemma TranslateOneLevelAnyDepthName(stem: string, ext: string)
    requires Word(stem) && Word(ext)
    ensures TranslateGlob("*/**/*" + stem + "." + ext) == "[^/]*/.*/[^/]*" + stem + "\\." + ext
  {
    var q := "**/*" + stem + "." + ext;
    TranslateAnyDepthName(stem, ext);
    TranslateSlash(q);
    TranslateStar("/" + q);
    RegroupName(stem, ext);
  }

  /** `stem*.ext`: a wildcard inside a name. */
  lemma TranslateStarInName(stem: string, ext: string)
    requires Word(stem) && Word(ext)
    ensures TranslateGlob(stem + "*." + ext) == stem + "[^/]*\\." + ext
  {
    TranslatePlain(ext);
    assert ("." + ext)[1..] == ext;
    TranslateStar("." + ext);
    TranslateWordThen(stem, "*" + ("." + ext));
    RegroupName(stem, ext);
  }

  /** How the name shapes of the glob parsing table split into tokens. */
  lemma RegroupName(stem: string, ext: string)
    ensures stem + "." + ext == stem + ("." + ext)
    ensures stem + "\\." + ext == stem + ("\\." + ext)
    ensures "*" + stem + "." + ext == "*" + (stem + "." + ext)
    ensures "[^/]*" + (stem + "\\." + ext) == "[^/]*" + stem + "\\." + ext
    ensures "**/*" + stem + "." + ext == "**" + ("/" + ("*" + stem + "." + ext))
    ensures ".*" + ("/" + ("[^/]*" + stem + "\\." + ext)) == ".*/[^/]*" + stem + "\\." + ext
    ensures "*/*" + stem + "." + ext == "*" + ("/" + ("*" + stem + "." + ext))
    ensures "[^/]*" + ("/" + ("[^/]*" + stem + "\\." + ext)) == "[^/]*/[^/]*" + stem + "\\." + ext
    ensures "*/**/*" + stem + "." + ext == "*" + ("/" + ("**/*" + stem + "." + ext))
    ensures "[^/]*" + ("/" + (".*/[^/]*" + stem + "\\." + ext)) == "[^/]*/.*/[^/]*" + stem + "\\." + ext
    ensures stem + "*." + ext == stem + ("*" + ("." + ext))
    ensures stem + ("[^/]*" + ("\\." + ext)) == stem + "[^/]*\\." + ext
  {
  }

  /** An ordinary glob compiles to its translation anchored with `$`. */
  lemma ParseFileGlob(p: string)
    requires !IsRegexForm(p) && !IsDirectory(p) && !IsLeadingStarName(p)
    ensures ParseFilePattern(p) == TranslateGlob(p) + "$"
  {
  }

  /** A pattern ending in a word is neither a raw regular expression nor a directory. */
  lemma EndsInWord(pre: string, ext: string)
    requires Word(ext)
    ensures !IsRegexForm(pre + ext) && !IsDirectory(pre + ext)
  {
    var p := pre + ext;
    assert p[|p| - 1] == ext[|ext| - 1];
  }

  // Shape of the first row of the glob parsing table: `**/*stem.ext`.
  lemma ParseAnyDepthName(stem: string, ext: string)
    requires Word(stem) && Word(ext)
    ensures ParseFilePattern("**/*" + stem + "." + ext) == ".*/[^/]*" + stem + "\\." + ext + "$"
  {
    TranslateAnyDepthName(stem, ext);
    EndsInWord("**/*" + stem + ".", ext);
    assert ("**/*" + stem + "." + ext)[1] == '*';
    ParseFileGlob("**/*" + stem + "." + ext);
  }

  // Shape of the second row: `*/*stem.ext`.
  lemma ParseOneLevelName(stem: string, ext: string)
    requires Word(stem) && Word(ext)
    ensures ParseFilePattern("*/*" + stem + "." + ext) == "[^/]*/[^/]*" + stem + "\\." + ext + "$"
  {
    TranslateOneLevelName(stem, ext);
    EndsInWord("*/*" + stem + ".", ext);
    assert ("*/*" + stem + "." + ext)[1] == '/';
    ParseFileGlob("*/*" + stem + "." + ext);
  }

  // Shape of the third row: `*stem.ext`, a name that may sit in any directory.
  lemma ParseLeadingStarName(stem: string, ext: string)
    requires Word(stem) && Word(ext)
    ensures ParseFilePattern("*" + stem + "." + ext) == ".*" + stem + "\\." + ext + "$"
  {
    var p := "*" + stem + "." + ext;
    assert p[1..] == stem + "." + ext;
    TranslateName(stem, ext);
    LeadingStarNameOf(stem, ext);
    EndsInWord("*" + stem + ".", ext);
  }

  lemma LeadingStarNameOf(stem: string, ext: string)
    requires Word(stem) && Word(ext)
    ensures IsLeadingStarName("*" + stem + "." + ext)
  {
    var p := "*" + stem + "." + ext;
    assert p[1] == stem[0];
    forall k | 0 <= k < |p| ensures p[k] != '/' {
      if 1 <= k < 1 + |stem| {
        assert p[k] == stem[k - 1];
      } else if 1 + |stem| < k {
        assert p[k] == ext[k - 2 - |stem|];
      }
    }
  }

  lemma TranslateUnderDir(dir: string, q: string)
    requires Word(dir)
    ensures TranslateGlob(dir + "/" + q) == dir + "/" + TranslateGlob(q)
  {
    TranslateSlash(q);
    TranslateWordThen(dir, "/" + q);
    Regroup(dir, "/", q);
    Regroup(dir, "/", TranslateGlob(q));
  }

  /** A pattern below a plain directory that does not end in a slash is an ordinary glob. */
  lemma UnderDirIsGlob(dir: string, q: string)
    requires Word(dir) && q != [] && q[|q| - 1] != '/' && q[|q| - 1] != '}'
    ensures var p := dir + "/" + q; !IsRegexForm(p) && !IsDirectory(p) && !IsLeadingStarName(p)
  {
    var p := dir + "/" + q;
    assert p[0] == dir[0];
    assert p[|p| - 1] == q[|q| - 1];
  }

  /** A glob below a plain directory: the directory is copied. */
  lemma ParseUnderDir(dir: string, q: string)
    requires Word(dir) && q != [] && q[|q| - 1] != '/' && q[|q| - 1] != '}'
    ensures ParseFilePattern(dir + "/" + q) == dir + "/" + TranslateGlob(q) + "$"
  {
    TranslateUnderDir(dir, q);
    UnderDirIsGlob(dir, q);
  }

  // Shape of the fourth row: `dir/**/*stem.ext`.
  lemma ParseUnderAnyDepth(dir: string, stem: string, ext: string)
    requires Word(dir) && Word(stem) && Word(ext)
    ensures ParseFilePattern(dir + "/**/*" + stem + "." + ext) == dir + "/.*/[^/]*" + stem + "\\." + ext + "$"
  {
    var q := "**/*" + stem + "." + ext;
    TranslateAnyDepthName(stem, ext);
    assert q[|q| - 1] == ext[|ext| - 1];
    RegroupUnderAnyDepth(dir, stem, ext);
    ParseUnderDir(dir, q);
  }

  lemma RegroupUnderAnyDepth(dir: string, stem: string, ext: string)
    ensures dir + "/**/*" + stem + "." + ext == dir + "/" + ("**/*" + stem + "." + ext)
    ensures dir + "/" + (".*/[^/]*" + stem + "\\." + ext) + "$" == dir + "/.*/[^/]*" + stem + "\\." + ext + "$"
  {
  }

  /** Shape of the fifth row: `dir/`, everything below a directory. */
  lemma ParseDirectory(dir: string)
    requires Word(dir)
    ensures ParseFilePattern(dir + "/") == dir + "/.*"
  {
    var p := dir + "/";
    TranslateWordThen(dir, "/");
    TranslateSlash([]);
    assert "/" + [] == "/";
    assert p[0] == dir[0] && p[|p| - 1] == '/';
  }

  // Shape of the sixth row: `dir/*/**/*stem.ext`.
  lemma ParseUnderOneLevelAnyDepth(dir: string, stem: string, ext: string)
    requires Word(dir) && Word(stem) && Word(ext)
    ensures ParseFilePattern(dir + "/*/**/*" + stem + "." + ext) == dir + "/[^/]*/.*/[^/]*" + stem + "\\." + ext + "$"
  {
    var q := "*/**/*" + stem + "." + ext;
    TranslateOneLevelAnyDepthName(stem, ext);
    assert q[|q| - 1] == ext[|ext| - 1];
    RegroupUnderOneLevel(dir, stem, ext);
    ParseUnderDir(dir, q);
  }

  lemma RegroupUnderOneLevel(dir: string, stem: string, ext: string)
    ensures dir + "/*/**/*" + stem + "." + ext == dir + "/" + ("*/**/*" + stem + "." + ext)
    ensures dir + "/" + ("[^/]*/.*/[^/]*" + stem + "\\." + ext) + "$" == dir + "/[^/]*/.*/[^/]*" + stem + "\\." + ext + "$"
  {
  }

  // Shape of the seventh row: `stem*.ext`, a wildcard inside a name.
  lemma ParseStarInName(stem: string, ext: string)
    requires Word(stem) && Word(ext)
    ensures ParseFilePattern(stem + "*." + ext) == stem + "[^/]*\\." + ext + "$"
  {
    TranslateStarInName(stem, ext);
    EndsInWord(stem + "*.", ext);
    assert (stem + "*." + ext)[0] == stem[0];
    ParseFileGlob(stem + "*." + ext);
  }

  /** The spellings of the Java rows of the glob parsing table. */
  lemma JavaSpelling()
    ensures "**/*" + "Test" + "." + "java" == "**/*Test.java"
    ensures ".*/[^/]*" + "Test" + "\\." + "java" + "$" == ".*/[^/]*Test\\.java$"
    ensures "*/*" + "Test" + "." + "java" == "*/*Test.java"
    ensures "[^/]*/[^/]*" + "Test" + "\\." + "java" + "$" == "[^/]*/[^/]*Test\\.java$"
    ensures "*" + "Test" + "." + "java" == "*Test.java"
    ensures ".*" + "Test" + "\\." + "java" + "$" == ".*Test\\.java$"
  {
  }

  /** The spellings of the Go rows of the glob parsing table. */
  lemma GoSpelling()
    ensures "pkg" + "/**/*" + "_test" + "." + "go" == "pkg/**/*_test.go"
    ensures "pkg" + "/.*/[^/]*" + "_test" + "\\." + "go" + "$" == "pkg/.*/[^/]*_test\\.go$"
  {
  }

  lemma GoMixedLevelsSpelling()
    ensures "pkg" + "/*/**/*" + "_test" + "." + "go" == "pkg/*/**/*_test.go"
    ensures "pkg" + "/[^/]*/.*/[^/]*" + "_test" + "\\." + "go" + "$" == "pkg/[^/]*/.*/[^/]*_test\\.go$"
  {
  }

  /** The spellings of the other rows of the glob parsing table. */
  lemma OtherSpelling()
    ensures "vendor" + "/" == "vendor/"
    ensures "vendor" + "/.*" == "vendor/.*"
    ensures "test_" + "*." + "py" == "test_*.py"
    ensures "test_" + "[^/]*\\." + "py" + "$" == "test_[^/]*\\.py$"
  {
  }

  /** The words of the glob parsing table. */
  lemma TableWords()
    ensures Word("Test")
    ensures Word("java")
    ensures Word("pkg")
    ensures Word("_test")
    ensures Word("go")
    ensures Word("vendor")
    ensures Word("test_")
    ensures Word("py")
  {
  }

  /** The glob parsing table, first row. */
  lemma ParsesAnyDepthJavaTest()
    ensures ParseFilePatterns(["**/*Test.java"]) == [FilePattern(".*/[^/]*Test\\.java$")]
  {
    JavaSpelling();
    TableWords();
    ParseAnyDepthName("Test", "java");
    ParseOne("**/*Test.java");
  }

  /** The glob parsing table, second row. */
  lemma ParsesOneLevelJavaTest()
    ensures ParseFilePatterns(["*/*Test.java"]) == [FilePattern("[^/]*/[^/]*Test\\.java$")]
  {
    JavaSpelling();
    TableWords();
    ParseOneLevelName("Test", "java");
    ParseOne("*/*Test.java");
  }

  /** The glob parsing table, third row. */
  lemma ParsesJavaTestName()
    ensures ParseFilePatterns(["*Test.java"]) == [FilePattern(".*Test\\.java$")]
  {
    JavaSpelling();
    TableWords();
    ParseLeadingStarName("Test", "java");
    ParseOne("*Test.java");
  }

  /** The glob parsing table, fourth row. */
  lemma ParsesGoTestUnderPkg()
    ensures ParseFilePatterns(["pkg/**/*_test.go"]) == [FilePattern("pkg/.*/[^/]*_test\\.go$")]
  {
    GoSpelling();
    TableWords();
    ParseUnderAnyDepth("pkg", "_test", "go");
    ParseOne("pkg/**/*_test.go");
  }

  /** The glob parsing table, fifth row. */
  lemma ParsesDirectory()
    ensures ParseFilePatterns(["vendor/"]) == [FilePattern("vendor/.*")]
  {
    OtherSpelling();
    TableWords();
    ParseDirectory("vendor");
    ParseOne("vendor/");
  }

  /** The glob parsing table, sixth row. */
  lemma ParsesMixedLevels()
    ensures ParseFilePatterns(["pkg/*/**/*_test.go"]) == [FilePattern("pkg/[^/]*/.*/[^/]*_test\\.go$")]
  {
    GoMixedLevelsSpelling();
    TableWords();
    ParseUnderOneLevelAnyDepth("pkg", "_test", "go");
    ParseOne("pkg/*/**/*_test.go");
  }

  /** The glob parsing table, seventh row. */
  lemma ParsesPythonTest()
    ensures ParseFilePatterns(["test_*.py"]) == [FilePattern("test_[^/]*\\.py$")]
  {
    OtherSpelling();
    TableWords();
    ParseStarInName("test_", "py");
    ParseOne("test_*.py");
  }

  /** A raw regular expression is extracted as it is. */
  lemma ExtractsRegexp()
    ensures ParseFilePatterns(["regex{{my-regexp}}"]) == [FilePattern("my-regexp")]
  {
    RegexFormIsVerbatim("my-regexp");
    assert "regex{{my-regexp}}" == "regex{{" + "my-regexp" + "}}";
    ParseOne("regex{{my-regexp}}");
  }
}
