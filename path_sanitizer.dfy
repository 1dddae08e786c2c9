/** The file-path sanitiser of src/utils.ts: backslashes become slashes, runs
    of slashes collapse (except the `//` after a colon), and `%`, whitespace,
    `(` and `)` are percent-encoded in the `%XX` form of section 2.1 of RFC 3986. */
module PathSanitizer {
  import opened Strings

  predicate IsBackslash(c: char) { c == '\\' }
  predicate IsPercent(c: char) { c == '%' }
  predicate IsOpenParen(c: char) { c == '(' }
  predicate IsCloseParen(c: char) { c == ')' }

  /** What follows the run of slashes at the start of `s`. */
  function DropSlashRun(s: string): (r: string)
    ensures |r| <= |s| && r == s[|s| - |r|..]
    ensures r == [] || r[0] != '/'
    ensures forall i | 0 <= i < |s| - |r| :: s[i] == '/'
  {
    if s != [] && s[0] == '/' then DropSlashRun(s[1..]) else s
  }

  /** `s.replace(/([^:])\/+/g, '$1/')`: scanning from the left, a character
      other than ':' followed by one or more slashes is kept with a single
      slash after it; the scan resumes after the run. */
  function CollapseSlashes(s: string): (r: string)
    ensures |r| <= |s|
    ensures |s| > 0 ==> |r| > 0 && r[0] == s[0]
    decreases |s|
  {
    if |s| < 2 then s
    else if s[0] != ':' && s[1] == '/' then [s[0], '/'] + CollapseSlashes(DropSlashRun(s[1..]))
    else [s[0]] + CollapseSlashes(s[1..])
  }

  /** The first two rewrites (src/utils.ts:5 and :7): the slash-normalised path. */
  function SlashNormalized(path: string): string {
    CollapseSlashes(ReplaceEach(path, IsBackslash, "/"))
  }

  /** The four encoding passes of src/utils.ts:9-12, in source order. */
  function EncodeSpecials(s: string): string {
    var p1 := ReplaceEach(s, IsPercent, "%25");
    var p2 := ReplaceEach(p1, IsJsWhitespace, "%20");
    var p3 := ReplaceEach(p2, IsOpenParen, "%28");
    ReplaceEach(p3, IsCloseParen, "%29")
  }

  /** `sanitizeFilePath` (src/utils.ts:3-13). */
  function SanitizeFilePath(path: string): string {
    EncodeSpecials(SlashNormalized(path))
  }

  // ---------------------------------------------------------------------------
  // A reference encoding, one character at a time, and its decoder.

  /** The escape a single character receives. */
  function EscapeChar(c: char): string {
    if c == '%' then "%25"
    else if IsJsWhitespace(c) then "%20"
    else if c == '(' then "%28"
    else if c == ')' then "%29"
    else [c]
  }

  function Escape(s: string): string {
    if s == [] then [] else EscapeChar(s[0]) + Escape(s[1..])
  }

  /** Reads escapes from left to right: `%25`, `%20`, `%28`, `%29` give back
      `%`, a space, `(` and `)`; every other character stands for itself. */
  function Decode(s: string): string {
    if |s| >= 3 && s[0] == '%' && s[1..3] == "25" then "%" + Decode(s[3..])
    else if |s| >= 3 && s[0] == '%' && s[1..3] == "20" then " " + Decode(s[3..])
    else if |s| >= 3 && s[0] == '%' && s[1..3] == "28" then "(" + Decode(s[3..])
    else if |s| >= 3 && s[0] == '%' && s[1..3] == "29" then ")" + Decode(s[3..])
    else if s == [] then []
    else [s[0]] + Decode(s[1..])
  }

  /** The four passes on one character produce that character's escape;
      no pass touches what an earlier pass wrote. */
  lemma EncodeOneChar(c: char)
    ensures EncodeSpecials([c]) == EscapeChar(c)
  {
    ReplaceEachSingle(c, IsPercent, "%25");
    if c == '%' {
      EscapeUntouched("%25");
    } else {
      ReplaceEachSingle(c, IsJsWhitespace, "%20");
      if IsJsWhitespace(c) {
        EscapeUntouched("%20");
      } else {
        ReplaceEachSingle(c, IsOpenParen, "%28");
        ReplaceEachSingle(c, IsCloseParen, "%29");
        if c == '(' {
          EscapeUntouched("%28");
        }
      }
    }
  }

  /** An escape written by one pass is left alone by the passes after it. */
  lemma EscapeUntouched(e: string)
    requires |e| == 3 && e[0] == '%' && '0' <= e[1] <= '9' && '0' <= e[2] <= '9'
    ensures ReplaceEach(e, IsJsWhitespace, "%20") == e
    ensures ReplaceEach(e, IsOpenParen, "%28") == e
    ensures ReplaceEach(e, IsCloseParen, "%29") == e
  {
    assert forall i | 0 <= i < |e| :: e[i] == '%' || '0' <= e[i] <= '9';
    assert forall i | 0 <= i < |e| :: !IsJsWhitespace(e[i]);
    assert forall i | 0 <= i < |e| :: !IsOpenParen(e[i]);
    assert forall i | 0 <= i < |e| :: !IsCloseParen(e[i]);
  }

  /** The sequential global replacements equal the per-character escape. */
  lemma {:induction false} EncodeIsEscape(s: string)
    ensures EncodeSpecials(s) == Escape(s)
  {
    if s != [] {
      var c, t := s[0], s[1..];
      assert s == [c] + t;
      EncodeIsEscape(t);
      EncodeOneChar(c);
      ReplaceEachConcat([c], t, IsPercent, "%25");
      var a1, b1 := ReplaceEach([c], IsPercent, "%25"), ReplaceEach(t, IsPercent, "%25");
      ReplaceEachConcat(a1, b1, IsJsWhitespace, "%20");
      var a2, b2 := ReplaceEach(a1, IsJsWhitespace, "%20"), ReplaceEach(b1, IsJsWhitespace, "%20");
      ReplaceEachConcat(a2, b2, IsOpenParen, "%28");
      var a3, b3 := ReplaceEach(a2, IsOpenParen, "%28"), ReplaceEach(b2, IsOpenParen, "%28");
      ReplaceEachConcat(a3, b3, IsCloseParen, "%29");
    }
  }

  /** Decoding reads one character's escape back and goes on after it. */
  lemma DecodeEscapeChar(c: char, rest: string)
    ensures Decode(EscapeChar(c) + rest) == ReplaceEach([c], IsJsWhitespace, " ") + Decode(rest)
  {
    var s := EscapeChar(c) + rest;
    if c == '%' {
      assert s[1..3] == "25" && s[3..] == rest;
    } else if IsJsWhitespace(c) {
      assert s[1..3] == "20" && s[3..] == rest;
    } else if c == '(' {
      assert s[1..3] == "28" && s[3..] == rest;
    } else if c == ')' {
      assert s[1..3] == "29" && s[3..] == rest;
    } else {
      assert s[0] == c && s[1..] == rest;
    }
  }

  /** Decoding the escape of `t` gives `t` with every whitespace character read as a space. */
  lemma {:induction false} DecodeEscape(t: string)
    ensures Decode(Escape(t)) == ReplaceEach(t, IsJsWhitespace, " ")
  {
    if t != [] {
      DecodeEscape(t[1..]);
      DecodeEscapeChar(t[0], Escape(t[1..]));
      ReplaceEachConcat([t[0]], t[1..], IsJsWhitespace, " ");
      assert t == [t[0]] + t[1..];
    }
  }

  // ---------------------------------------------------------------------------
  // Slash runs.

  /** Positions `i + 1` and `i + 2` of `s` both hold a slash. */
  predicate DoubleSlashAfter(s: string, i: int) {
    0 <= i && i + 2 < |s| && s[i + 1] == '/' && s[i + 2] == '/'
  }

  /** Every `//` that does not start the string follows a ':'. */
  predicate SlashRunsCanonical(s: string) {
    forall i | 0 <= i < |s| :: DoubleSlashAfter(s, i) ==> s[i] == ':'
  }

  lemma CanonicalTail(s: string)
    requires s != [] && SlashRunsCanonical(s)
    ensures SlashRunsCanonical(s[1..])
  {
    forall i | 0 <= i < |s[1..]| && DoubleSlashAfter(s[1..], i) ensures s[1..][i] == ':' {
      assert DoubleSlashAfter(s, i + 1);
    }
  }

  /** A collapsed string has no `//` except at its start or after a ':'. */
  lemma {:induction false} CollapseCanonical(s: string)
    ensures SlashRunsCanonical(CollapseSlashes(s))
    decreases |s|
  {
    if |s| < 2 {
    } else if s[0] != ':' && s[1] == '/' {
      var d := DropSlashRun(s[1..]);
      CollapseCanonical(d);
      CanonicalAfterSlash(s[0], CollapseSlashes(d));
    } else {
      CollapseCanonical(s[1..]);
      CanonicalAfterFirst(s[0], CollapseSlashes(s[1..]));
    }
  }

  /** `k` slashes. */
  function Slashes(k: nat): (r: string)
    ensures |r| == k && forall i | 0 <= i < k :: r[i] == '/'
  {
    seq(k, _ => '/')
  }

  /** A run of slashes is dropped whole, up to the first other character. */
  lemma {:induction false} DropSlashRunSlashes(k: nat, t: string)
    requires t == [] || t[0] != '/'
    ensures DropSlashRun(Slashes(k) + t) == t
  {
    if k > 0 {
      assert (Slashes(k) + t)[1..] == Slashes(k - 1) + t;
      DropSlashRunSlashes(k - 1, t);
    } else {
      assert Slashes(k) + t == t;
    }
  }

  /** The rewrite of src/utils.ts:7: a run of one or more slashes after a
      character other than ':' becomes exactly one slash, and the scan goes
      on with what follows the run. */
  lemma CollapseRun(a: char, k: nat, t: string)
    requires a != ':' && k >= 1 && (t == [] || t[0] != '/')
    ensures CollapseSlashes([a] + (Slashes(k) + t)) == [a, '/'] + CollapseSlashes(t)
  {
    var s := [a] + (Slashes(k) + t);
    assert s[1..] == Slashes(k) + t;
    DropSlashRunSlashes(k, t);
  }

  /** A first character that no slash run follows is kept as it is. */
  lemma CollapseKeepsFirst(a: char, t: string)
    requires t != [] && (a == ':' || t[0] != '/')
    ensures CollapseSlashes([a] + t) == [a] + CollapseSlashes(t)
  {
    assert ([a] + t)[1..] == t;
  }

  /** After a ':' the run is not matched from the colon but from its first
      slash, so a single slash stays and a longer run keeps two: `://` survives. */
  lemma CollapseColonRun(k: nat, t: string)
    requires t == [] || t[0] != '/'
    ensures CollapseSlashes([':'] + (Slashes(k) + t)) == [':'] + (Slashes(if k < 2 then k else 2) + CollapseSlashes(t))
  {
    if k == 0 {
      assert Slashes(k) + t == t;
      assert Slashes(k) + CollapseSlashes(t) == CollapseSlashes(t);
      if t != [] {
        CollapseKeepsFirst(':', t);
      }
    } else if k == 1 {
      SlashesOne();
      ColonOneSlash(t);
    } else {
      CollapseKeepsFirst(':', Slashes(k) + t);
      LeadingLongRun(k, t);
    }
  }

  lemma ColonOneSlash(t: string)
    requires t == [] || t[0] != '/'
    ensures CollapseSlashes([':'] + (['/'] + t)) == [':'] + (['/'] + CollapseSlashes(t))
  {
    CollapseKeepsFirst(':', ['/'] + t);
    if t != [] {
      CollapseKeepsFirst('/', t);
    }
  }

  /** A run of two or more slashes at the start keeps two of them: the match
      begins at the first slash and swallows the rest of the run. */
  lemma LeadingLongRun(k: nat, t: string)
    requires k >= 2 && (t == [] || t[0] != '/')
    ensures CollapseSlashes(Slashes(k) + t) == Slashes(2) + CollapseSlashes(t)
  {
    var s := Slashes(k) + t;
    assert s[0] == '/' && s[1] == '/';
    assert s[1..] == Slashes(k - 1) + t;
    DropSlashRunSlashes(k - 1, t);
    SlashesTwo();
  }

  lemma SlashesOne()
    ensures Slashes(1) == "/"
  {
  }

  lemma SlashesTwo()
    ensures Slashes(2) == "//"
  {
  }

  /** A doubled slash inside a name becomes one. */
  lemma CollapseExampleName()
    ensures CollapseSlashes("a//b") == "a/b"
  {
    SlashesTwo();
    assert "a//b" == ['a'] + (Slashes(2) + "b");
    CollapseRun('a', 2, "b");
  }

  /** Three slashes after a colon become two. */
  lemma CollapseExampleColon()
    ensures CollapseSlashes(":///") == "://"
  {
    assert Slashes(3) + "" == "///";
    CollapseColonRun(3, "");
    SlashesTwo();
    assert ":///" == [':'] + (Slashes(3) + "");
  }

  /** A character and one slash in front of a canonical string that does not
      start with a slash keep it canonical. */
  lemma CanonicalAfterSlash(a: char, c: string)
    requires SlashRunsCanonical(c) && (c == [] || c[0] != '/')
    ensures SlashRunsCanonical([a, '/'] + c)
  {
    var r := [a, '/'] + c;
    forall i | 0 <= i < |r| && DoubleSlashAfter(r, i) ensures r[i] == ':' {
      assert i >= 2;
      assert DoubleSlashAfter(c, i - 2);
    }
  }

  /** A character in front of a canonical string keeps it canonical when,
      should the string start with a slash, the character is ':'. */
  lemma CanonicalAfterFirst(a: char, c: string)
    requires SlashRunsCanonical(c) && (c != [] && c[0] == '/' && |c| > 1 && c[1] == '/' ==> a == ':')
    ensures SlashRunsCanonical([a] + c)
  {
    var r := [a] + c;
    forall i | 0 <= i < |r| && DoubleSlashAfter(r, i) ensures r[i] == ':' {
      if i >= 1 {
        assert DoubleSlashAfter(c, i - 1);
      }
    }
  }

  /** A run of one slash is dropped alone. */
  lemma DropOneSlash(t: string)
    requires t != [] && t[0] == '/' && (|t| == 1 || t[1] != '/')
    ensures DropSlashRun(t) == t[1..]
  {
    assert DropSlashRun(t) == DropSlashRun(t[1..]);
  }

  /** A string already in canonical form is left alone. */
  lemma {:induction false} CanonicalUnchanged(s: string)
    requires SlashRunsCanonical(s)
    ensures CollapseSlashes(s) == s
    decreases |s|
  {
    if |s| >= 2 {
      CanonicalTail(s);
      if s[0] != ':' && s[1] == '/' {
        if |s| > 2 {
          assert !DoubleSlashAfter(s, 0);
        }
        assert s[1..][1..] == s[2..];
        CanonicalTail(s[1..]);
        CanonicalUnchanged(s[2..]);
        UnchangedAfterSingleSlash(s);
      } else {
        CanonicalUnchanged(s[1..]);
        UnchangedAfterFirst(s);
      }
    }
  }

  /** A single slash after a character other than ':' is kept, and so is the rest. */
  lemma UnchangedAfterSingleSlash(s: string)
    requires |s| >= 2 && s[0] != ':' && s[1] == '/' && (|s| == 2 || s[2] != '/')
    requires CollapseSlashes(s[2..]) == s[2..]
    ensures CollapseSlashes(s) == s
  {
    DropOneSlash(s[1..]);
    assert s[1..][1..] == s[2..];
    assert s == [s[0], '/'] + s[2..];
  }

  /** A first character not followed by a collapsible run is kept, and so is the rest. */
  lemma UnchangedAfterFirst(s: string)
    requires |s| >= 2 && !(s[0] != ':' && s[1] == '/')
    requires CollapseSlashes(s[1..]) == s[1..]
    ensures CollapseSlashes(s) == s
  {
    assert s == [s[0]] + s[1..];
  }

  lemma CollapseIdempotent(s: string)
    ensures CollapseSlashes(CollapseSlashes(s)) == CollapseSlashes(s)
  {
    CollapseCanonical(s);
    CanonicalUnchanged(CollapseSlashes(s));
  }

  /** Escaping never creates a slash and keeps every existing one, so it keeps canonical form. */
  lemma EscapeStartsWithSlash(u: string)
    ensures |Escape(u)| >= |u|
    ensures u != [] ==> (Escape(u)[0] == '/' <==> u[0] == '/')
  {
    if u != [] {
      EscapeLength(u[1..]);
    }
  }

  lemma {:induction false} EscapeLength(u: string)
    ensures |Escape(u)| >= |u|
  {
    if u != [] {
      EscapeLength(u[1..]);
    }
  }

  lemma {:induction false} EscapeCanonical(t: string)
    requires SlashRunsCanonical(t)
    ensures SlashRunsCanonical(Escape(t))
  {
    if t != [] {
      var c, u := t[0], t[1..];
      var b, rest := EscapeChar(c), Escape(u);
      var r := b + rest;
      CanonicalTail(t);
      EscapeCanonical(u);
      forall i | 0 <= i < |r| && DoubleSlashAfter(r, i) ensures r[i] == ':' {
        if i >= |b| {
          assert DoubleSlashAfter(rest, i - |b|);
        } else if i == |b| - 1 {
          EscapeStartsWithSlash(u);
          assert rest[0] == '/' && u[0] == '/';
          assert rest == "/" + Escape(u[1..]);
          EscapeStartsWithSlash(u[1..]);
          assert u[1] == '/';
          assert DoubleSlashAfter(t, 0);
        }
      }
    }
  }

  // ---------------------------------------------------------------------------
  // Escape structure.

  /** Escaping leaves no whitespace or parenthesis, and any other character
      it writes apart from `%` and digits comes from the input. */
  lemma {:induction false} EscapeRemovesSpecials(t: string)
    ensures forall i | 0 <= i < |Escape(t)| ::
      && !IsJsWhitespace(Escape(t)[i]) && Escape(t)[i] != '(' && Escape(t)[i] != ')'
      && (Escape(t)[i] in "%0123456789" || Escape(t)[i] in t)
  {
    if t != [] {
      var b, rest := EscapeChar(t[0]), Escape(t[1..]);
      EscapeRemovesSpecials(t[1..]);
      forall i | 0 <= i < |b + rest| ensures
        && !IsJsWhitespace((b + rest)[i]) && (b + rest)[i] != '(' && (b + rest)[i] != ')'
        && ((b + rest)[i] in "%0123456789" || (b + rest)[i] in t)
      {
        if i >= |b| {
          assert (b + rest)[i] == rest[i - |b|];
          if rest[i - |b|] in t[1..] {
            var k :| 0 <= k < |t[1..]| && t[1..][k] == rest[i - |b|];
            assert t[k + 1] == rest[i - |b|];
          }
        } else if |b| == 1 {
          assert (b + rest)[i] == t[0];
        }
      }
    }
  }

  predicate EscapeAt(r: string, i: int) {
    0 <= i && i + 3 <= |r| && r[i..i + 3] in {"%25", "%20", "%28", "%29"}
  }

  lemma {:induction false} EscapePercents(t: string)
    ensures forall i | 0 <= i < |Escape(t)| && Escape(t)[i] == '%' :: EscapeAt(Escape(t), i)
  {
    if t != [] {
      var b, rest := EscapeChar(t[0]), Escape(t[1..]);
      var r := b + rest;
      EscapePercents(t[1..]);
      forall i | 0 <= i < |r| && r[i] == '%' ensures EscapeAt(r, i) {
        if i >= |b| {
          assert rest[i - |b|] == r[i];
          assert EscapeAt(rest, i - |b|);
          assert r[i..i + 3] == rest[i - |b|..i - |b| + 3];
        } else {
          assert r[..|b|] == b;
        }
      }
    }
  }

  // ---------------------------------------------------------------------------
  // What the source promises about `sanitizeFilePath`.

  /** The slash-normalised path holds no backslash and no character the path did not hold. */
  lemma SlashNormalizedChars(path: string)
    ensures var n := SlashNormalized(path);
      forall i | 0 <= i < |n| :: n[i] != '\\' && (n[i] == '/' || n[i] in path)
  {
    var forward := ReplaceEach(path, IsBackslash, "/");
    var n := SlashNormalized(path);
    forall i | 0 <= i < |n| ensures n[i] != '\\' && (n[i] == '/' || n[i] in path) {
      if n[i] != '/' {
        CollapseMembers(forward, n[i]);
        var k :| 0 <= k < |forward| && forward[k] == n[i];
      }
    }
  }

  /** No backslash, whitespace or parenthesis survives sanitising (src/utils.ts:5, 10-12). */
  lemma SanitizeRemovesSpecials(path: string)
    ensures var r := SanitizeFilePath(path);
      forall i | 0 <= i < |r| :: r[i] != '\\' && !IsJsWhitespace(r[i]) && r[i] != '(' && r[i] != ')'
  {
    var n := SlashNormalized(path);
    SlashNormalizedChars(path);
    EncodeIsEscape(n);
    EscapeRemovesSpecials(n);
    var r := Escape(n);
    forall i | 0 <= i < |r| ensures r[i] != '\\' {
      if r[i] !in "%0123456789" {
        assert r[i] in n;
      }
    }
  }

  /** Every `//` after the start of the output follows a ':', so no three
      slashes ever stand in a row (src/utils.ts:7). */
  lemma SanitizeCollapsesSlashes(path: string)
    ensures SlashRunsCanonical(SanitizeFilePath(path))
    ensures var r := SanitizeFilePath(path);
      forall i | 0 <= i && i + 2 < |r| :: !(r[i] == '/' && r[i + 1] == '/' && r[i + 2] == '/')
  {
    var n := SlashNormalized(path);
    var r := SanitizeFilePath(path);
    CollapseCanonical(ReplaceEach(path, IsBackslash, "/"));
    EncodeIsEscape(n);
    EscapeCanonical(n);
    forall i | 0 <= i && i + 2 < |r| ensures !(r[i] == '/' && r[i + 1] == '/' && r[i + 2] == '/') {
      if r[i] == '/' && r[i + 1] == '/' && r[i + 2] == '/' {
        assert DoubleSlashAfter(r, i);
      }
    }
  }

  /** Every '%' in the output starts one of the four escapes (src/utils.ts:9-12). */
  lemma SanitizeEscapesPercent(path: string)
    ensures var r := SanitizeFilePath(path);
      forall i | 0 <= i < |r| && r[i] == '%' :: EscapeAt(r, i)
  {
    EncodeIsEscape(SlashNormalized(path));
    EscapePercents(SlashNormalized(path));
  }

  /** Decoding the output escape by escape gives the slash-normalised path with
      each whitespace character read as a space (src/utils.ts:9-12). */
  lemma SanitizeDecodes(path: string)
    ensures Decode(SanitizeFilePath(path)) == ReplaceEach(SlashNormalized(path), IsJsWhitespace, " ")
  {
    EncodeIsEscape(SlashNormalized(path));
    DecodeEscape(SlashNormalized(path));
  }

  /** So when the only whitespace in the path is the space character, decoding
      gives exactly the slash-normalised path. */
  lemma SanitizeRoundTrip(path: string)
    requires forall i | 0 <= i < |path| :: IsJsWhitespace(path[i]) ==> path[i] == ' '
    ensures Decode(SanitizeFilePath(path)) == SlashNormalized(path)
  {
    var n := SlashNormalized(path);
    SanitizeDecodes(path);
    SlashNormalizedChars(path);
    var spaced := ReplaceEach(n, IsJsWhitespace, " ");
    forall i | 0 <= i < |n| ensures spaced[i] == n[i] {
      ReplaceEachAt(n, IsJsWhitespace, " ", i);
      if n[i] != '/' {
        var k :| 0 <= k < |path| && path[k] == n[i];
      }
    }
  }

  /** A path with no backslash, '%', whitespace or parenthesis, whose every
      `//` starts it or follows a ':' (as in `https://x`), comes back unchanged
      (src/utils.ts:3-13). */
  lemma SanitizeKeepsPlainPath(path: string)
    requires forall i | 0 <= i < |path| :: path[i] != '\\' && path[i] != '%' && !IsJsWhitespace(path[i]) && path[i] != '(' && path[i] != ')'
    requires SlashRunsCanonical(path)
    ensures SanitizeFilePath(path) == path
  {
    CanonicalUnchanged(path);
  }

  /** Collapsing keeps every character that is not a slash, in order. */
  function WithoutSlashes(s: string): string {
    if s == [] then [] else (if s[0] == '/' then [] else [s[0]]) + WithoutSlashes(s[1..])
  }

  lemma {:induction false} DropSlashRunWithoutSlashes(s: string)
    ensures WithoutSlashes(DropSlashRun(s)) == WithoutSlashes(s)
  {
    if s != [] && s[0] == '/' {
      DropSlashRunWithoutSlashes(s[1..]);
    }
  }

  lemma {:induction false} WithoutSlashesConcat(a: string, b: string)
    ensures WithoutSlashes(a + b) == WithoutSlashes(a) + WithoutSlashes(b)
  {
    if a == [] {
      assert a + b == b;
    } else {
      assert (a + b)[0] == a[0];
      assert (a + b)[1..] == a[1..] + b;
      WithoutSlashesConcat(a[1..], b);
    }
  }

  lemma {:induction false} CollapseKeepsOtherCharacters(s: string)
    ensures WithoutSlashes(CollapseSlashes(s)) == WithoutSlashes(s)
    decreases |s|
  {
    if |s| >= 2 {
      WithoutSlashesCons(s[0], s[1..]);
      assert [s[0]] + s[1..] == s;
      if s[0] != ':' && s[1] == '/' {
        var d := DropSlashRun(s[1..]);
        CollapseKeepsOtherCharacters(d);
        DropSlashRunWithoutSlashes(s[1..]);
        WithoutSlashesAfterSlash(s[0], CollapseSlashes(d));
      } else {
        CollapseKeepsOtherCharacters(s[1..]);
        WithoutSlashesCons(s[0], CollapseSlashes(s[1..]));
      }
    }
  }

  lemma WithoutSlashesCons(a: char, t: string)
    ensures WithoutSlashes([a] + t) == (if a == '/' then [] else [a]) + WithoutSlashes(t)
  {
    assert ([a] + t)[1..] == t;
  }

  /** The slash kept after a character drops out again. */
  lemma WithoutSlashesAfterSlash(a: char, t: string)
    ensures WithoutSlashes([a, '/'] + t) == (if a == '/' then [] else [a]) + WithoutSlashes(t)
  {
    assert [a, '/'] + t == [a] + (['/'] + t);
    WithoutSlashesCons(a, ['/'] + t);
    WithoutSlashesCons('/', t);
  }

  lemma {:induction false} WithoutSlashesMembers(t: string, c: char)
    requires c != '/'
    ensures c in WithoutSlashes(t) <==> c in t
  {
    if t != [] {
      WithoutSlashesMembers(t[1..], c);
      assert t == [t[0]] + t[1..];
    }
  }

  /** A character other than '/' occurs in the collapsed string exactly when it occurs in the input. */
  lemma CollapseMembers(s: string, c: char)
    requires c != '/'
    ensures c in CollapseSlashes(s) <==> c in s
  {
    CollapseKeepsOtherCharacters(s);
    WithoutSlashesMembers(s, c);
    WithoutSlashesMembers(CollapseSlashes(s), c);
  }
}
