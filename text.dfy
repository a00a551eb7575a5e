/**
 * The string operations of Python that the relay relies on, written out: whitespace
 * stripping, stripping a character set from the left, `str.split` on one separator and
 * its inverse `str.join`, `str.isdigit` with `int()`, `str(n)` for a natural number,
 * `str.lower` and substring tests.
 *
 * Only ASCII digits are digits here, and only ASCII letters change case.
 */
module Text {

  /** The characters Python's `str.strip()` removes (those for which `str.isspace()` holds). */
  const Whitespace: set<char> := {
    '\t', '\n', '\U{000B}', '\U{000C}', '\r', '\U{001C}', '\U{001D}', '\U{001E}', '\U{001F}',
    ' ', '\U{0085}', '\U{00A0}', '\U{1680}',
    '\U{2000}', '\U{2001}', '\U{2002}', '\U{2003}', '\U{2004}', '\U{2005}', '\U{2006}',
    '\U{2007}', '\U{2008}', '\U{2009}', '\U{200A}',
    '\U{2028}', '\U{2029}', '\U{202F}', '\U{205F}', '\U{3000}'
  }

  /** `s.lstrip(chars)`: drops the longest prefix made of characters from `drop`. */
  function TrimStart(s: string, drop: set<char>): (r: string)
    ensures |r| <= |s| && r == s[|s| - |r|..]
    ensures forall i :: 0 <= i < |s| - |r| ==> s[i] in drop
    ensures r == [] || r[0] !in drop
    decreases |s|
  {
    if s != [] && s[0] in drop then
      var r := TrimStart(s[1..], drop);
      assert s[1..][|s| - 1 - |r|..] == s[|s| - |r|..];
      assert forall i :: 1 <= i < |s| ==> s[1..][i - 1] == s[i];
      r
    else s
  }

  /** `s.rstrip(chars)`: drops the longest suffix made of characters from `drop`. */
  function TrimEnd(s: string, drop: set<char>): (r: string)
    ensures |r| <= |s| && r == s[..|r|]
    ensures forall i :: |r| <= i < |s| ==> s[i] in drop
    ensures r == [] || r[|r| - 1] !in drop
    decreases |s|
  {
    if s != [] && s[|s| - 1] in drop then TrimEnd(s[..|s| - 1], drop) else s
  }

  /** `s.strip()` */
  function Strip(s: string): string {
    TrimEnd(TrimStart(s, Whitespace), Whitespace)
  }

  predicate IsDigit(c: char) {
    '0' <= c <= '9'
  }

  /** `s.isdigit()`: non-empty and made of digits. */
  predicate IsDigits(s: string) {
    |s| > 0 && forall i :: 0 <= i < |s| ==> IsDigit(s[i])
  }

  /** `int(s)` for a string of digits. */
  function DigitsValue(s: string): nat
    requires forall i :: 0 <= i < |s| ==> IsDigit(s[i])
    decreases |s|
  {
    if s == [] then 0 else 10 * DigitsValue(s[..|s| - 1]) + DigitOf(s[|s| - 1])
  }

  function DigitOf(c: char): nat
    requires IsDigit(c)
  {
    c as int - '0' as int
  }

  function DigitChar(d: nat): (c: char)
    requires d < 10
    ensures IsDigit(c) && DigitOf(c) == d
  {
    ('0' as int + d) as char
  }

  /** `str(n)` for a natural number; `int(str(n)) == n`. */
  function NatToString(n: nat): (r: string)
    ensures IsDigits(r) && DigitsValue(r) == n
    ensures |r| == 1 || r[0] != '0'
    decreases n
  {
    if n < 10 then [DigitChar(n)]
    else
      var front := NatToString(n / 10);
      var r := front + [DigitChar(n % 10)];
      assert r[..|r| - 1] == front;
      r
  }

  lemma DigitNotSpace(c: char)
    requires IsDigit(c)
    ensures c !in Whitespace
  {
  }

  /** A character that is not a digit does not occur in a digit string. */
  lemma NotInDigits(s: string, c: char)
    requires IsDigits(s) && !IsDigit(c)
    ensures c !in s
  {
  }

  /** A string that neither starts nor ends with whitespace is left alone by `strip()`. */
  lemma StripUnpadded(s: string)
    requires s != [] && s[0] !in Whitespace && s[|s| - 1] !in Whitespace
    ensures Strip(s) == s
  {
    assert TrimStart(s, Whitespace) == s;
    assert TrimEnd(s, Whitespace) == s;
  }

  /** A digit string has no surrounding whitespace to strip. */
  lemma StripDigits(s: string)
    requires IsDigits(s)
    ensures Strip(s) == s
  {
    DigitNotSpace(s[0]);
    DigitNotSpace(s[|s| - 1]);
    StripUnpadded(s);
  }

  /** `str(n)` for an integer. */
  function IntToString(n: int): string {
    if n < 0 then "-" + NatToString(-n) else NatToString(n)
  }

  /** `sep.join(parts)` with a one-character separator. */
  function Join(parts: seq<string>, sep: char): string
    decreases |parts|
  {
    if parts == [] then ""
    else if |parts| == 1 then parts[0]
    else parts[0] + [sep] + Join(parts[1..], sep)
  }

  /** `s.split(sep)`: always at least one part, no part holds `sep`, and joining the parts gives `s` back. */
  function Split(s: string, sep: char): (parts: seq<string>)
    ensures |parts| >= 1
    ensures forall i :: 0 <= i < |parts| ==> sep !in parts[i]
    ensures Join(parts, sep) == s
    decreases |s|
  {
    if s == [] then [""]
    else
      var rest := Split(s[1..], sep);
      if s[0] == sep then
        assert Join([""] + rest, sep) == [sep] + Join(rest, sep) by {
          assert ([""] + rest)[1..] == rest;
        }
        [""] + rest
      else
        var parts := [[s[0]] + rest[0]] + rest[1..];
        assert Join(parts, sep) == [s[0]] + Join(rest, sep) by {
          if |rest| > 1 {
            assert parts[1..] == rest[1..];
          }
        }
        parts
  }

  lemma {:induction false} SplitSepFree(p: string, sep: char)
    requires sep !in p
    ensures Split(p, sep) == [p]
    decreases |p|
  {
    if p != [] {
      SplitSepFree(p[1..], sep);
      assert [p[0]] + p[1..] == p;
    }
  }

  lemma {:induction false} SplitAfterPart(p: string, t: string, sep: char)
    requires sep !in p
    ensures Split(p + [sep] + t, sep) == [p] + Split(t, sep)
    decreases |p|
  {
    var s := p + [sep] + t;
    if p == [] {
      assert s[1..] == t;
    } else {
      assert s[1..] == p[1..] + [sep] + t;
      SplitAfterPart(p[1..], t, sep);
      assert [p[0]] + p[1..] == p;
    }
  }

  /** Splitting undoes joining parts that do not hold the separator. */
  lemma {:induction false} SplitJoin(parts: seq<string>, sep: char)
    requires |parts| >= 1
    requires forall i :: 0 <= i < |parts| ==> sep !in parts[i]
    ensures Split(Join(parts, sep), sep) == parts
    decreases |parts|
  {
    if |parts| == 1 {
      SplitSepFree(parts[0], sep);
    } else {
      SplitJoin(parts[1..], sep);
      SplitAfterPart(parts[0], Join(parts[1..], sep), sep);
      assert [parts[0]] + parts[1..] == parts;
    }
  }

  /** `s.endswith(suffix)` */
  predicate EndsWith(s: string, suffix: string) {
    |suffix| <= |s| && s[|s| - |suffix|..] == suffix
  }

  /** `sub in s` */
  predicate Contains(s: string, sub: string)
    decreases |s|
  {
    sub <= s || (s != [] && Contains(s[1..], sub))
  }

  /** `sub` occurs in `s` starting at index `i`. */
  predicate OccursAt(s: string, sub: string, i: int) {
    0 <= i && i + |sub| <= |s| && s[i..i + |sub|] == sub
  }

  /** `sub in s` holds exactly when `sub` occurs in `s` at some index. */
  lemma {:induction false} ContainsIff(s: string, sub: string)
    ensures Contains(s, sub) <==> exists i :: 0 <= i <= |s| && OccursAt(s, sub, i)
    decreases |s|
  {
    if sub <= s {
      assert s[..|sub|] == sub;
      assert OccursAt(s, sub, 0);
    }
    if s != [] {
      ContainsIff(s[1..], sub);
      if Contains(s[1..], sub) {
        var i :| 0 <= i <= |s[1..]| && OccursAt(s[1..], sub, i);
        assert s[1..][i..i + |sub|] == s[i + 1..i + 1 + |sub|];
        assert OccursAt(s, sub, i + 1);
      }
      if i :| 0 < i <= |s| && OccursAt(s, sub, i) {
        assert s[1..][i - 1..i - 1 + |sub|] == s[i..i + |sub|];
        assert OccursAt(s[1..], sub, i - 1);
      }
    }
    if i :| 0 <= i <= |s| && OccursAt(s, sub, i) {
      if i == 0 {
        assert sub == s[..|sub|];
      }
    }
  }

  function LowerChar(c: char): char {
    if 'A' <= c <= 'Z' then (c as int - 'A' as int + 'a' as int) as char else c
  }

  /** `s.lower()` on ASCII letters. */
  function Lower(s: string): (r: string)
    ensures |r| == |s|
    ensures forall i :: 0 <= i < |s| ==> r[i] == LowerChar(s[i])
  {
    seq(|s|, i requires 0 <= i < |s| => LowerChar(s[i]))
  }

  /** The strings `parts` occur in `s` one after another, without overlapping, in that order. */
  predicate InOrder(parts: seq<string>, s: string)
    decreases |parts|, 1
  {
    parts == [] || exists k :: 0 <= k <= |s| && FirstPartAt(parts, s, k)
  }

  /** The first of `parts` occurs in `s` at position `k`, and the others in order after it. */
  predicate FirstPartAt(parts: seq<string>, s: string, k: int)
    requires parts != []
    decreases |parts|, 0
  {
    0 <= k && k + |parts[0]| <= |s| && s[k..k + |parts[0]|] == parts[0] && InOrder(parts[1..], s[k + |parts[0]|..])
  }

  /** Text written in front keeps the parts in order. */
  lemma InOrderAfter(parts: seq<string>, w: string, s: string)
    requires InOrder(parts, s)
    ensures InOrder(parts, w + s)
  {
    if parts != [] {
      var p := parts[0];
      var k :| 0 <= k <= |s| && FirstPartAt(parts, s, k);
      assert k + |p| <= |s| && s[k..k + |p|] == p && InOrder(parts[1..], s[k + |p|..]);
      var t := w + s;
      assert t[|w| + k..|w| + k + |p|] == p;
      assert t[|w| + k + |p|..] == s[k + |p|..];
      assert FirstPartAt(parts, t, |w| + k);
    }
  }

  /** A part written in front of text holding the other parts in order. */
  lemma InOrderCons(p: string, parts: seq<string>, w: string, s: string)
    requires InOrder(parts, s)
    ensures InOrder([p] + parts, w + p + s)
  {
    var t := w + p + s;
    assert t[|w|..|w| + |p|] == p;
    assert t[|w| + |p|..] == s;
    assert ([p] + parts)[1..] == parts;
    assert FirstPartAt([p] + parts, t, |w|);
  }

  /** The parts of a join occur in it in order. */
  lemma {:induction false} JoinInOrder(parts: seq<string>, sep: char)
    ensures InOrder(parts, Join(parts, sep))
    decreases |parts|
  {
    if |parts| == 1 {
      assert InOrder([], "");
      InOrderCons(parts[0], [], "", "");
      assert [parts[0]] + [] == parts && "" + parts[0] + "" == Join(parts, sep);
    } else if parts != [] {
      var rest := parts[1..];
      var j := Join(rest, sep);
      JoinInOrder(rest, sep);
      InOrderAfter(rest, [sep], j);
      InOrderCons(parts[0], rest, "", [sep] + j);
      assert [parts[0]] + rest == parts;
      assert "" + parts[0] + ([sep] + j) == Join(parts, sep);
    }
  }

  /** A part in front of text holding the others in order. */
  lemma InOrderFront(a: string, parts: seq<string>, tail: string)
    requires InOrder(parts, tail)
    ensures InOrder([a] + parts, a + tail)
  {
    InOrderCons(a, parts, "", tail);
    assert "" + a + tail == a + tail;
  }

  /** Two parts in front of text holding the others in order, the second framed by other text. */
  lemma InOrderFramed(a: string, pre: string, b: string, x: string, y: string, z: string, parts: seq<string>, tail: string)
    requires InOrder(parts, tail)
    ensures InOrder([a, b] + parts, a + ((((pre + b) + x) + y) + z) + tail)
  {
    var post := x + y + z + tail;
    InOrderAfter(parts, x + y + z, tail);
    assert x + y + z + tail == post;
    InOrderCons(b, parts, pre, post);
    InOrderFront(a, [b] + parts, pre + b + post);
    assert [a] + ([b] + parts) == [a, b] + parts;
    assert a + (pre + b + post) == a + ((((pre + b) + x) + y) + z) + tail;
  }
}
