/**
 * The string operations the screens call: `toLowerCase`/`toUpperCase`,
 * `includes`, `split(c)`/`join(c)`, and the decimal text of a number that
 * a template literal or `Array.prototype.join` produces.
 */
module Text {

  /** `toLowerCase` on one character; only the ASCII letters are mapped. */
  function LowerChar(c: char): char
  {
    if 'A' <= c <= 'Z' then (c as int + 32) as char else c
  }

  /** `toUpperCase` on one character; only the ASCII letters are mapped. */
  function UpperChar(c: char): char
  {
    if 'a' <= c <= 'z' then (c as int - 32) as char else c
  }

  predicate IsLowerLetter(c: char)
  {
    'a' <= c <= 'z'
  }

  function LowerStr(s: string): (r: string)
    ensures |r| == |s|
    ensures forall k :: 0 <= k < |s| ==> r[k] == LowerChar(s[k])
  {
    seq(|s|, k requires 0 <= k < |s| => LowerChar(s[k]))
  }

  function UpperStr(s: string): (r: string)
    ensures |r| == |s|
    ensures forall k :: 0 <= k < |s| ==> r[k] == UpperChar(s[k]) && !IsLowerLetter(r[k])
  {
    seq(|s|, k requires 0 <= k < |s| => UpperChar(s[k]))
  }

  /** `needle` occurs in `hay` starting at position `i`. */
  predicate MatchAt(hay: string, needle: string, i: int)
  {
    0 <= i && i + |needle| <= |hay| && hay[i..i + |needle|] == needle
  }

  /** `hay.includes(needle)`. */
  predicate Contains(hay: string, needle: string)
  {
    exists i :: 0 <= i <= |hay| - |needle| && MatchAt(hay, needle, i)
  }

  /** `hay.toLowerCase().includes(needle.toLowerCase())`, the search boxes' test. */
  predicate ContainsIgnoreCase(hay: string, needle: string)
  {
    Contains(LowerStr(hay), LowerStr(needle))
  }

  /** Every string includes the empty string, whatever its case. */
  lemma EmptyIsContained(hay: string)
    ensures ContainsIgnoreCase(hay, "")
  {
    assert LowerStr("") == "";
    assert MatchAt(LowerStr(hay), "", 0);
  }

  /** Lower-casing a term or its upper-case form gives the same text. */
  lemma LowerOfUpper(s: string)
    ensures LowerStr(UpperStr(s)) == LowerStr(s)
  {
  }

  /** Terms that lower-case alike match the same texts. */
  lemma SameLowerSameMatches(hay: string, t1: string, t2: string)
    requires LowerStr(t1) == LowerStr(t2)
    ensures ContainsIgnoreCase(hay, t1) == ContainsIgnoreCase(hay, t2)
  {
  }

  /** A text that contains a term contains every prefix of it. */
  lemma ContainsPrefix(hay: string, term: string, more: string)
    requires ContainsIgnoreCase(hay, term + more)
    ensures ContainsIgnoreCase(hay, term)
  {
    var h, n := LowerStr(hay), LowerStr(term + more);
    var i :| 0 <= i <= |h| - |n| && MatchAt(h, n, i);
    assert LowerStr(term) == n[..|term|];
    assert h[i..i + |term|] == h[i..i + |n|][..|term|];
    assert MatchAt(h, LowerStr(term), i);
  }

  /** `s.split(sep)` for a one-character separator: `k` separators give `k + 1` parts. */
  function Split(s: string, sep: char): (parts: seq<string>)
    ensures |parts| >= 1
    ensures forall k :: 0 <= k < |parts| ==> sep !in parts[k]
    decreases |s|
  {
    if s == [] then [""]
    else if s[0] == sep then [""] + Split(s[1..], sep)
    else
      var rest := Split(s[1..], sep);
      [[s[0]] + rest[0]] + rest[1..]
  }

  /** `parts.join(sep)` for a one-character separator. */
  function Join(parts: seq<string>, sep: char): string
  {
    if parts == [] then ""
    else if |parts| == 1 then parts[0]
    else parts[0] + [sep] + Join(parts[1..], sep)
  }

  /** A character that is neither the separator nor in any part is not in the join. */
  lemma {:induction false} JoinAvoids(parts: seq<string>, sep: char, c: char)
    requires c != sep
    requires forall k :: 0 <= k < |parts| ==> c !in parts[k]
    ensures c !in Join(parts, sep)
    decreases |parts|
  {
    if |parts| > 1 {
      JoinAvoids(parts[1..], sep, c);
    }
  }

  /** Joining the parts of a split gives the original string back. */
  lemma {:induction false} JoinSplit(s: string, sep: char)
    ensures Join(Split(s, sep), sep) == s
    decreases |s|
  {
    if s != [] {
      var p := Split(s[1..], sep);
      JoinSplit(s[1..], sep);
      if s[0] == sep {
        assert Split(s, sep) == [""] + p;
        assert ([""] + p)[1..] == p;
        assert s == [sep] + s[1..];
      } else if |p| == 1 {
        assert Split(s, sep) == [[s[0]] + p[0]];
        assert s == [s[0]] + s[1..];
      } else {
        var q := [[s[0]] + p[0]] + p[1..];
        assert Split(s, sep) == q;
        assert q[1..] == p[1..];
        assert Join(p, sep) == p[0] + [sep] + Join(p[1..], sep);
        assert s == [s[0]] + s[1..];
      }
    }
  }

  lemma {:induction false} SplitWithoutSeparator(a: string, sep: char)
    requires sep !in a
    ensures Split(a, sep) == [a]
    decreases |a|
  {
    if a != [] {
      SplitWithoutSeparator(a[1..], sep);
      assert [a[0]] + a[1..] == a;
    }
  }

  lemma {:induction false} SplitAfterPart(a: string, b: string, sep: char)
    requires sep !in a
    ensures Split(a + [sep] + b, sep) == [a] + Split(b, sep)
    decreases |a|
  {
    var s := a + [sep] + b;
    if a == [] {
      assert s[0] == sep && s[1..] == b;
    } else {
      assert s[0] == a[0] && s[1..] == a[1..] + [sep] + b;
      SplitAfterPart(a[1..], b, sep);
      assert [a[0]] + a[1..] == a;
    }
  }

  /** Splitting a join of separator-free parts gives the parts back. */
  lemma {:induction false} SplitJoin(parts: seq<string>, sep: char)
    requires |parts| >= 1
    requires forall k :: 0 <= k < |parts| ==> sep !in parts[k]
    ensures Split(Join(parts, sep), sep) == parts
    decreases |parts|
  {
    if |parts| == 1 {
      SplitWithoutSeparator(parts[0], sep);
    } else {
      SplitJoin(parts[1..], sep);
      SplitAfterPart(parts[0], Join(parts[1..], sep), sep);
      assert [parts[0]] + parts[1..] == parts;
    }
  }

  predicate IsDigit(c: char)
  {
    '0' <= c <= '9'
  }

  function DigitChar(d: int): (c: char)
    requires 0 <= d < 10
    ensures IsDigit(c)
  {
    ('0' as int + d) as char
  }

  /** The decimal text of a non-negative integer, as `String(n)` writes it. */
  function NatToString(n: nat): (r: string)
    ensures |r| >= 1
    ensures forall k :: 0 <= k < |r| ==> IsDigit(r[k])
  {
    if n < 10 then [DigitChar(n)] else NatToString(n / 10) + [DigitChar(n % 10)]
  }

  /** The decimal text of an integer: digits, after a '-' when it is negative. */
  function IntToString(i: int): (r: string)
    ensures forall k :: 0 <= k < |r| ==> IsDigit(r[k]) || r[k] == '-'
  {
    if i < 0 then "-" + NatToString(-i) else NatToString(i)
  }

  /** The value of a string of decimal digits. */
  function ParseDigits(s: string): nat
    requires forall k :: 0 <= k < |s| ==> IsDigit(s[k])
  {
    if s == [] then 0
    else
      assert IsDigit(s[|s| - 1]);
      10 * ParseDigits(s[..|s| - 1]) + (s[|s| - 1] as int - '0' as int)
  }

  /** The decimal text reads back as the number it was written from. */
  lemma {:induction false} NatToStringRoundTrip(n: nat)
    ensures ParseDigits(NatToString(n)) == n
    decreases n
  {
    if n >= 10 {
      NatToStringRoundTrip(n / 10);
      var s := NatToString(n);
      assert s[..|s| - 1] == NatToString(n / 10);
    }
  }
}
