/** The two Swift `String` operations the core depends on: the UTF-8 byte
    count of a string (`utf8.count`, `lengthOfBytes(using: .utf8)`) and
    `replacingOccurrences(of:with:)`. A Dafny `char` is a Unicode scalar
    value, so a string is a sequence of scalars. */
module Text {

  /** Number of bytes UTF-8 uses to encode one scalar value. */
  function Utf8Width(c: char): (n: nat)
    ensures 1 <= n <= 4
    ensures n == 1 <==> c < 0x80 as char
  {
    if c < 0x80 as char then 1
    else if c < 0x800 as char then 2
    else if c < 0x1_0000 as char then 3
    else 4
  }

  /** Number of bytes of the UTF-8 encoding of `s`. */
  function Utf8Length(s: string): (n: nat)
  {
    if s == [] then 0 else Utf8Width(s[0]) + Utf8Length(s[1..])
  }

  lemma {:induction false} Utf8LengthAppend(a: string, b: string)
    ensures Utf8Length(a + b) == Utf8Length(a) + Utf8Length(b)
  {
    if a == [] {
      assert a + b == b;
    } else {
      assert (a + b)[0] == a[0] && (a + b)[1..] == a[1..] + b;
      Utf8LengthAppend(a[1..], b);
    }
  }

  /** Every scalar takes one to four bytes, and the byte count equals the
      scalar count exactly when the text is ASCII. */
  lemma {:induction false} Utf8LengthBounds(s: string)
    ensures |s| <= Utf8Length(s) <= 4 * |s|
    ensures Utf8Length(s) == |s| <==> forall i :: 0 <= i < |s| ==> s[i] < 0x80 as char
  {
    if s != [] {
      Utf8LengthBounds(s[1..]);
      assert forall i :: 1 <= i < |s| ==> s[i] == s[1..][i - 1];
    }
  }

  /** `s` starts with `p`. */
  predicate IsPrefix(p: string, s: string)
  {
    |p| <= |s| && s[..|p|] == p
  }

  /** `p` occurs somewhere in `s` (Swift's `contains` on a non-empty `p`). */
  predicate Occurs(p: string, s: string)
    decreases |s|
  {
    IsPrefix(p, s) || (s != [] && Occurs(p, s[1..]))
  }

  /** `s.replacingOccurrences(of: bad, with: good)`: scans `s` from the left
      and replaces every non-overlapping occurrence of `bad` by `good`. An
      empty `bad` matches nothing, so `s` is returned as it is. */
  function ReplaceAll(s: string, bad: string, good: string): (r: string)
    decreases |s|
  {
    if |bad| == 0 || |s| < |bad| then s
    else if s[..|bad|] == bad then good + ReplaceAll(s[|bad|..], bad, good)
    else [s[0]] + ReplaceAll(s[1..], bad, good)
  }

  /** Text without `bad` in it comes back unchanged. */
  lemma {:induction false} ReplaceAllAbsent(s: string, bad: string, good: string)
    requires !Occurs(bad, s)
    ensures ReplaceAll(s, bad, good) == s
  {
    if |bad| > 0 && |s| >= |bad| {
      assert !IsPrefix(bad, s);
      ReplaceAllAbsent(s[1..], bad, good);
    }
  }

  /** Replacing `bad` by itself changes nothing. */
  lemma {:induction false} ReplaceAllSame(s: string, bad: string)
    ensures ReplaceAll(s, bad, bad) == s
    decreases |s|
  {
    if |bad| > 0 && |s| >= |bad| {
      if s[..|bad|] == bad {
        ReplaceAllSame(s[|bad|..], bad);
        assert s == s[..|bad|] + s[|bad|..];
      } else {
        ReplaceAllSame(s[1..], bad);
        assert s == [s[0]] + s[1..];
      }
    }
  }

  /** When the leftmost occurrence of `bad` in `p + bad + q` is the one
      right after `p`, the substitution keeps `p`, puts `good` in its place
      and goes on replacing in `q`: no occurrence is skipped. */
  lemma {:induction false} ReplaceAllLeftmost(p: string, bad: string, q: string, good: string)
    requires |bad| > 0
    requires !Occurs(bad, p + bad[..|bad| - 1])
    ensures ReplaceAll(p + bad + q, bad, good) == p + good + ReplaceAll(q, bad, good)
  {
    var s := p + bad + q;
    if p == [] {
      assert s[..|bad|] == bad && s[|bad|..] == q;
    } else {
      var t := p + bad[..|bad| - 1];
      assert !IsPrefix(bad, t) && !Occurs(bad, t[1..]);
      forall i | 0 <= i < |bad|
        ensures s[i] == t[i]
      {
        if i >= |p| {
          assert s[i] == bad[i - |p|];
        }
      }
      assert s[..|bad|] == t[..|bad|];
      assert ReplaceAll(s, bad, good) == [s[0]] + ReplaceAll(s[1..], bad, good);
      assert t[1..] == p[1..] + bad[..|bad| - 1];
      assert s[1..] == p[1..] + bad + q;
      ReplaceAllLeftmost(p[1..], bad, q, good);
      assert p == [p[0]] + p[1..];
    }
  }
}
