/** The JavaScript string operations the plugin relies on: prefix and substring
    tests, lower-casing, whitespace, global single-character replacement,
    `split`/`join`, `trim`, integer-to-decimal conversion and `padStart`. */
module Strings {

  predicate StartsWith(s: string, prefix: string) {
    |prefix| <= |s| && s[..|prefix|] == prefix
  }

  predicate EndsWith(s: string, suffix: string) {
    |suffix| <= |s| && s[|s| - |suffix|..] == suffix
  }

  /** `part` occurs in `s` starting at index `i`. */
  predicate OccursAt(s: string, part: string, i: int) {
    0 <= i && i + |part| <= |s| && s[i..i + |part|] == part
  }

  /** `s.includes(part)`. */
  predicate Contains(s: string, part: string) {
    exists i | 0 <= i <= |s| - |part| :: OccursAt(s, part, i)
  }

  lemma ContainsEmpty(s: string)
    ensures Contains(s, "")
  {
    assert OccursAt(s, "", 0);
  }

  /** A piece of a concatenation occurs in it. */
  lemma ContainsMiddle(a: string, b: string, c: string)
    ensures Contains(a + b + c, b)
  {
    var s := a + b + c;
    assert s[|a|..|a| + |b|] == b;
    assert OccursAt(s, b, |a|);
  }

  /** An occurrence in `s` is also one in any string that has `s` in it. */
  lemma ContainsTransitive(s: string, part: string, whole: string)
    requires Contains(s, part) && Contains(whole, s)
    ensures Contains(whole, part)
  {
    var i :| 0 <= i <= |s| - |part| && OccursAt(s, part, i);
    var j :| 0 <= j <= |whole| - |s| && OccursAt(whole, s, j);
    forall k | 0 <= k < |part|
      ensures whole[j + i + k] == part[k]
    {
      assert whole[j + i + k] == whole[j..j + |s|][i + k];
      assert s[i + k] == s[i..i + |part|][k];
    }
    assert whole[j + i..j + i + |part|] == part;
    assert OccursAt(whole, part, j + i);
  }

  /** Lower-casing of one character; only A-Z are mapped. */
  function LowerChar(c: char): char {
    if 'A' <= c <= 'Z' then (c as int + 32) as char else c
  }

  /** `s.toLowerCase()`, restricted to ASCII letters. */
  function Lower(s: string): (r: string)
    ensures |r| == |s|
    ensures forall i | 0 <= i < |r| :: !('A' <= r[i] <= 'Z')
  {
    seq(|s|, i requires 0 <= i < |s| => LowerChar(s[i]))
  }

  lemma LowerIdempotent(s: string)
    ensures Lower(Lower(s)) == Lower(s)
  {
  }

  /** `values.some(v => v.toLowerCase().includes(lowerQuery))`. */
  predicate SomeContains(values: seq<string>, lowerQuery: string) {
    exists i | 0 <= i < |values| :: Contains(Lower(values[i]), lowerQuery)
  }

  /** `some` over lower-cased values sees only the lower-cased values. */
  lemma SomeContainsLowerCase(values: seq<string>, others: seq<string>, lowerQuery: string)
    requires |others| == |values| && forall i | 0 <= i < |values| :: Lower(others[i]) == Lower(values[i])
    ensures SomeContains(others, lowerQuery) == SomeContains(values, lowerQuery)
  {

  }

  /** The characters matched by `\s` and removed by `trim()`: ECMAScript's
      WhiteSpace and LineTerminator code points. */
  predicate IsJsWhitespace(c: char) {
    var n := c as int;
    || n == 0x09 || n == 0x0A || n == 0x0B || n == 0x0C || n == 0x0D
    || n == 0x20 || n == 0xA0 || n == 0x1680
    || (0x2000 <= n <= 0x200A)
    || n == 0x2028 || n == 0x2029 || n == 0x202F || n == 0x205F
    || n == 0x3000 || n == 0xFEFF
  }

  /** `s.replace(/[class]/g, rep)` for a pattern that matches one character of
      a class: every matching character becomes `rep`, in one left-to-right pass. */
  function ReplaceEach(s: string, isTarget: char -> bool, rep: string): (r: string)
    ensures forall i | 0 <= i < |r| :: r[i] in rep || (r[i] in s && !isTarget(r[i]))
    ensures (forall i | 0 <= i < |s| :: !isTarget(s[i])) ==> r == s
    ensures |rep| == 1 ==> |r| == |s|
  {
    if s == [] then []
    else (if isTarget(s[0]) then rep else [s[0]]) + ReplaceEach(s[1..], isTarget, rep)
  }

  /** On a single character the replacement is that character's image. */
  lemma ReplaceEachSingle(c: char, isTarget: char -> bool, rep: string)
    ensures ReplaceEach([c], isTarget, rep) == if isTarget(c) then rep else [c]
  {
    assert [c][1..] == [];
  }

  /** A one-character replacement rewrites position by position. */
  lemma {:induction false} ReplaceEachAt(s: string, isTarget: char -> bool, rep: string, i: nat)
    requires |rep| == 1 && i < |s|
    ensures ReplaceEach(s, isTarget, rep)[i] == if isTarget(s[i]) then rep[0] else s[i]
  {
    if i > 0 {
      ReplaceEachAt(s[1..], isTarget, rep, i - 1);
    }
  }

  /** The replacement works on each part of a concatenation separately. */
  lemma {:induction false} ReplaceEachConcat(a: string, b: string, isTarget: char -> bool, rep: string)
    ensures ReplaceEach(a + b, isTarget, rep) == ReplaceEach(a, isTarget, rep) + ReplaceEach(b, isTarget, rep)
  {
    if a == [] {
      assert a + b == b;
    } else {
      assert (a + b)[0] == a[0];
      assert (a + b)[1..] == a[1..] + b;
      ReplaceEachConcat(a[1..], b, isTarget, rep);
    }
  }

  /** The number of whitespace characters at the start of `s`. */
  function LeadingWhitespace(s: string): (k: nat)
    ensures k <= |s|
    ensures forall i | 0 <= i < k :: IsJsWhitespace(s[i])
    ensures k < |s| ==> !IsJsWhitespace(s[k])
  {
    if s != [] && IsJsWhitespace(s[0]) then 1 + LeadingWhitespace(s[1..]) else 0
  }

  /** The number of whitespace characters at the end of `s`. */
  function TrailingWhitespace(s: string): (k: nat)
    ensures k <= |s|
    ensures forall i | |s| - k <= i < |s| :: IsJsWhitespace(s[i])
    ensures k < |s| ==> !IsJsWhitespace(s[|s| - k - 1])
  {
    if s != [] && IsJsWhitespace(s[|s| - 1]) then 1 + TrailingWhitespace(s[..|s| - 1]) else 0
  }

  /** `s.trim()`: what is left after removing leading and trailing whitespace.
      The result is a slice of `s`, everything cut away is whitespace, and it
      neither starts nor ends with whitespace. */
  function Trim(s: string): (r: string)
    ensures r == [] || (!IsJsWhitespace(r[0]) && !IsJsWhitespace(r[|r| - 1]))
    ensures var a := LeadingWhitespace(s);
      && a + |r| <= |s|
      && r == s[a..a + |r|]
      && forall i | a + |r| <= i < |s| :: IsJsWhitespace(s[i])
  {
    var a := LeadingWhitespace(s);
    var t := s[a..];
    t[..|t| - TrailingWhitespace(t)]
  }

  lemma TrimIdempotent(s: string)
    ensures Trim(Trim(s)) == Trim(s)
  {
    var r := Trim(s);
    assert LeadingWhitespace(r) == 0;
    if r != [] {
      assert TrailingWhitespace(r) == 0;
    }
  }

  /** `parts.join(sep)`. */
  function Join(parts: seq<string>, sep: string): (r: string)
    ensures |parts| == 1 ==> r == parts[0]
    ensures |parts| == 0 ==> r == ""
  {
    if |parts| == 0 then ""
    else if |parts| == 1 then parts[0]
    else parts[0] + sep + Join(parts[1..], sep)
  }

  /** `s.split(sep)` for a one-character separator: one piece more than there
      are separators, and no piece holds the separator. */
  function Split(s: string, sep: char): (parts: seq<string>)
    ensures |parts| == multiset(s)[sep] + 1
    ensures forall i | 0 <= i < |parts| :: sep !in parts[i]
  {
    if s == [] then [""]
    else
      var rest := Split(s[1..], sep);
      assert s == [s[0]] + s[1..];
      if s[0] == sep then [""] + rest
      else [[s[0]] + rest[0]] + rest[1..]
  }

  /** Joining the pieces with the separator gives back the string. */
  lemma {:induction false} JoinSplit(s: string, sep: char)
    ensures Join(Split(s, sep), [sep]) == s
  {
    if s != [] {
      var rest := Split(s[1..], sep);
      JoinSplit(s[1..], sep);
      SplitCons(s, sep);
      if s[0] == sep {
        JoinCons("", rest, [sep]);
      } else {
        JoinConsChar(s[0], rest, [sep]);
      }
      assert [s[0]] + s[1..] == s;
    }
  }

  /** The pieces of a non-empty string, from those of its tail. */
  lemma SplitCons(s: string, sep: char)
    requires s != []
    ensures var rest := Split(s[1..], sep);
      Split(s, sep) == if s[0] == sep then [""] + rest else [[s[0]] + rest[0]] + rest[1..]
  {
  }

  /** A part in front is followed by the separator. */
  lemma JoinCons(a: string, ps: seq<string>, sep: string)
    requires |ps| >= 1
    ensures Join([a] + ps, sep) == a + sep + Join(ps, sep)
  {
    assert ([a] + ps)[1..] == ps;
  }

  /** A character in front of the first part comes first in the join. */
  lemma JoinConsChar(c: char, ps: seq<string>, sep: string)
    requires |ps| >= 1
    ensures Join([[c] + ps[0]] + ps[1..], sep) == [c] + Join(ps, sep)
  {
    if |ps| > 1 {
      var q := [[c] + ps[0]] + ps[1..];
      assert q[1..] == ps[1..];
      assert Join(ps, sep) == ps[0] + sep + Join(ps[1..], sep);
    }
  }

  /** Splitting a join of separator-free pieces gives back the pieces. */
  lemma {:induction false} SplitJoin(parts: seq<string>, sep: char)
    requires |parts| >= 1
    requires forall i | 0 <= i < |parts| :: sep !in parts[i]
    ensures Split(Join(parts, [sep]), sep) == parts
  {
    if |parts| == 1 {
      SplitWithoutSeparator(parts[0], sep);
    } else {
      SplitJoin(parts[1..], sep);
      SplitAfterPiece(parts[0], Join(parts[1..], [sep]), sep);
      assert parts == [parts[0]] + parts[1..];
    }
  }

  lemma {:induction false} SplitWithoutSeparator(s: string, sep: char)
    requires sep !in s
    ensures Split(s, sep) == [s]
  {
    if s != [] {
      SplitWithoutSeparator(s[1..], sep);
      assert s == [s[0]] + s[1..];
    }
  }

  lemma {:induction false} SplitAfterPiece(piece: string, t: string, sep: char)
    requires sep !in piece
    ensures Split(piece + [sep] + t, sep) == [piece] + Split(t, sep)
  {
    var s := piece + [sep] + t;
    if piece == [] {
      assert s == [sep] + t;
      assert s[1..] == t;
    } else {
      assert s[0] == piece[0];
      assert s[1..] == piece[1..] + [sep] + t;
      SplitAfterPiece(piece[1..], t, sep);
      assert [piece[0]] + piece[1..] == piece;
    }
  }

  /** Each piece of a join occurs in it. */
  lemma {:induction false} JoinContainsPart(parts: seq<string>, sep: string, k: nat)
    requires k < |parts|
    ensures Contains(Join(parts, sep), parts[k])
  {
    if |parts| == 1 {
      ContainsMiddle("", parts[0], "");
      assert "" + parts[0] + "" == parts[0];
    } else if k == 0 {
      ContainsMiddle("", parts[0], sep + Join(parts[1..], sep));
      assert "" + parts[0] + (sep + Join(parts[1..], sep)) == Join(parts, sep);
    } else {
      JoinContainsPart(parts[1..], sep, k - 1);
      var rest := Join(parts[1..], sep);
      ContainsMiddle(parts[0] + sep, rest, "");
      assert parts[0] + sep + rest + "" == Join(parts, sep);
      ContainsTransitive(rest, parts[k], Join(parts, sep));
    }
  }

  /** Each piece but the last occurs in a join followed by the separator. */
  lemma {:induction false} JoinContainsPartThenSep(parts: seq<string>, sep: string, k: nat)
    requires k < |parts| - 1
    ensures Contains(Join(parts, sep), parts[k] + sep)
  {
    var rest := Join(parts[1..], sep);
    assert Join(parts, sep) == parts[0] + sep + rest;
    if k == 0 {
      ContainsMiddle("", parts[0] + sep, rest);
      assert "" + (parts[0] + sep) + rest == Join(parts, sep);
    } else {
      JoinContainsPartThenSep(parts[1..], sep, k - 1);
      assert parts[1..][k - 1] == parts[k];
      ContainsMiddle(parts[0] + sep, rest, "");
      assert parts[0] + sep + rest + "" == Join(parts, sep);
      ContainsTransitive(rest, parts[k] + sep, Join(parts, sep));
    }
  }

  /** A join of at least two pieces ends with the separator and the last piece. */
  lemma {:induction false} JoinEndsWithLast(parts: seq<string>, sep: string)
    requires |parts| >= 2
    ensures EndsWith(Join(parts, sep), sep + parts[|parts| - 1])
  {
    var last := parts[|parts| - 1];
    if |parts| == 2 {
      assert Join(parts, sep) == parts[0] + (sep + last);
    } else {
      JoinEndsWithLast(parts[1..], sep);
      var rest := Join(parts[1..], sep);
      assert Join(parts, sep) == (parts[0] + sep) + rest;
      assert (parts[0] + sep + rest)[|parts[0] + sep + rest| - |sep + last|..] == rest[|rest| - |sep + last|..];
    }
  }

  /** A character absent from every piece and from the separator is absent from the join. */
  lemma {:induction false} JoinAvoids(parts: seq<string>, sep: string, c: char)
    requires forall i | 0 <= i < |parts| :: c !in parts[i]
    requires c !in sep
    ensures c !in Join(parts, sep)
  {
    if |parts| > 1 {
      JoinAvoids(parts[1..], sep, c);
      assert c !in parts[0];
    }
  }

  /** The list parsing of the settings and link forms: `value.split(',').map(x => x.trim())`. */
  function ParseCommaList(value: string): (items: seq<string>)
    ensures |items| == multiset(value)[','] + 1
    ensures forall i | 0 <= i < |items| :: ',' !in items[i]
    ensures forall i | 0 <= i < |items| :: items[i] == [] || (!IsJsWhitespace(items[i][0]) && !IsJsWhitespace(items[i][|items[i]| - 1]))
  {
    var parts := Split(value, ',');
    var items := seq(|parts|, i requires 0 <= i < |parts| => Trim(parts[i]));
    assert forall i | 0 <= i < |items| :: forall c | c in items[i] :: c in parts[i];
    items
  }

  /** Neither end of `s` is whitespace. */
  predicate IsTrimmed(s: string) {
    s == [] || (!IsJsWhitespace(s[0]) && !IsJsWhitespace(s[|s| - 1]))
  }

  lemma TrimOfTrimmed(s: string)
    requires IsTrimmed(s)
    ensures Trim(s) == s
  {
    assert LeadingWhitespace(s) == 0;
    if s != [] {
      assert TrailingWhitespace(s) == 0;
    }
  }

  /** A space in front makes no difference to `trim()`. */
  lemma TrimSpacePrefix(s: string)
    ensures Trim(" " + s) == Trim(s)
  {
    var t := " " + s;
    assert t[1..] == s;
    assert LeadingWhitespace(t) == 1 + LeadingWhitespace(s);
    assert t[LeadingWhitespace(t)..] == s[LeadingWhitespace(s)..];
  }

  /** A space in front of the list text changes none of the parsed items. */
  lemma ParseCommaListLeadingSpace(value: string)
    ensures ParseCommaList(" " + value) == ParseCommaList(value)
  {
    var rest := Split(value, ',');
    var v := " " + value;
    assert v[1..] == value;
    var parts := Split(v, ',');
    assert parts == [[' '] + rest[0]] + rest[1..];
    TrimSpacePrefix(rest[0]);
    var a, b := ParseCommaList(v), ParseCommaList(value);
    forall i | 0 <= i < |a|
      ensures a[i] == b[i]
    {
      if i > 0 {
        assert parts[i] == rest[i];
      }
    }
  }

  /** The first item comes from the text up to the first comma. */
  lemma ParseCommaListCons(piece: string, t: string)
    requires ',' !in piece
    ensures ParseCommaList(piece + [','] + t) == [Trim(piece)] + ParseCommaList(t)
  {
    SplitAfterPiece(piece, t, ',');
  }

  /** One `join(', ')` step: a trimmed, comma-free first item is read back
      and parsing goes on after the ", ". */
  lemma ParseCommaListJoinStep(first: string, rest: string)
    requires ',' !in first && IsTrimmed(first)
    ensures ParseCommaList(first + ", " + rest) == [first] + ParseCommaList(rest)
  {
    assert first + ", " + rest == first + [','] + (" " + rest);
    ParseCommaListCons(first, " " + rest);
    ParseCommaListLeadingSpace(rest);
    TrimOfTrimmed(first);
  }

  /** Writing a list with `join(', ')` and parsing the text back gives the
      list again, when it is not empty and its items are trimmed and free of commas. */
  lemma {:induction false} ParseCommaListJoin(items: seq<string>)
    requires |items| >= 1
    requires forall i | 0 <= i < |items| :: ',' !in items[i] && IsTrimmed(items[i])
    ensures ParseCommaList(Join(items, ", ")) == items
  {
    if |items| == 1 {
      TrimOfTrimmed(items[0]);
      SplitWithoutSeparator(items[0], ',');
    } else {
      ParseCommaListJoin(items[1..]);
      ParseCommaListJoinStep(items[0], Join(items[1..], ", "));
      assert items == [items[0]] + items[1..];
    }
  }

  /** A form left empty gives one empty entry, not an empty list. */
  lemma ParseCommaListEmpty()
    ensures ParseCommaList("") == [""]
  {
  }

  predicate IsDigit(c: char) {
    '0' as int <= c as int <= '9' as int
  }

  function DigitChar(d: nat): (c: char)
    requires d < 10
    ensures IsDigit(c) && c as int - '0' as int == d
  {
    (d + '0' as int) as char
  }

  predicate AllDigits(s: string) {
    forall i | 0 <= i < |s| :: IsDigit(s[i])
  }

  /** The value of a string of decimal digits. */
  function DecimalValue(s: string): nat
    requires AllDigits(s)
  {
    if s == [] then 0
    else
      assert IsDigit(s[|s| - 1]);
      assert AllDigits(s[..|s| - 1]) by {
        assert forall i | 0 <= i < |s| - 1 :: s[..|s| - 1][i] == s[i];
      }
      DecimalValue(s[..|s| - 1]) * 10 + (s[|s| - 1] as int - '0' as int)
  }

  /** The decimal form of a natural number, as `n.toString()` writes it:
      digits only, and no leading zero unless the number is 0. */
  function NatToDecimal(n: nat): (r: string)
    ensures |r| >= 1
    ensures AllDigits(r)
    ensures r[0] == '0' ==> n == 0
    ensures n < 10 <==> |r| == 1
  {
    if n < 10 then [DigitChar(n)] else NatToDecimal(n / 10) + [DigitChar(n % 10)]
  }

  /** Reading the decimal form back gives the number. */
  lemma {:induction false} DecimalRoundTrip(n: nat)
    ensures DecimalValue(NatToDecimal(n)) == n
  {
    if n >= 10 {
      DecimalRoundTrip(n / 10);
      var r := NatToDecimal(n);
      assert r[..|r| - 1] == NatToDecimal(n / 10);
    }
  }

  /** The number of digits of a four-digit number. */
  lemma DecimalLengthFour(n: nat)
    requires 1000 <= n <= 9999
    ensures |NatToDecimal(n)| == 4
  {
    assert 1 <= n / 10 / 10 / 10 <= 9;
    assert |NatToDecimal(n / 10 / 10 / 10)| == 1;
    assert 10 <= n / 10 / 10 <= 99;
    assert |NatToDecimal(n / 10 / 10)| == 2;
    assert 100 <= n / 10 <= 999;
    assert |NatToDecimal(n / 10)| == 3;
  }

  /** `String(i)` for an integer. */
  function IntToString(i: int): (r: string)
    ensures |r| >= 1
    ensures r[0] == '-' <==> i < 0
  {
    if i < 0 then "-" + NatToDecimal(-i) else NatToDecimal(i)
  }

  /** A number that is not negative is written without a sign. */
  lemma NonNegativeString(i: int)
    requires 0 <= i
    ensures IntToString(i) == NatToDecimal(i)
  {
  }

  /** `s.padStart(2, '0')`: zeros are put in front until the length is two. */
  function PadStart2(s: string): (r: string)
    ensures |r| == if |s| < 2 then 2 else |s|
    ensures EndsWith(r, s)
    ensures forall i | 0 <= i < |r| - |s| :: r[i] == '0'
  {
    if |s| == 0 then "00" else if |s| == 1 then "0" + s else s
  }

  /** A number below 100, padded to two digits, reads back as itself. */
  lemma TwoDigits(n: nat)
    requires n < 100
    ensures var r := PadStart2(NatToDecimal(n));
      |r| == 2 && AllDigits(r) && DecimalValue(r) == n
  {
    DecimalRoundTrip(n);
    var d := NatToDecimal(n);
    var r := PadStart2(d);
    if n < 10 {
      assert r == ['0', d[0]];
      assert r[..1] == ['0'];
    } else {
      assert 1 <= n / 10 < 10;
      assert r == d;
    }
  }
}
