/**
 * String helpers shared by the model: Python's `str(int)` and its inverse,
 * ASCII `str.lower()`, `str.replace(c, "")`, `str.split(sep)[0]` and the
 * lexicographic `<` Python uses on `str`.
 */
module Strings {
  import opened Seqs

  predicate IsDigit(c: char) { '0' <= c <= '9' }

  predicate AllDigits(s: string) { forall i :: 0 <= i < |s| ==> IsDigit(s[i]) }

  function DigitChar(d: int): (c: char)
    requires 0 <= d < 10
    ensures IsDigit(c) && c as int - '0' as int == d
  {
    (('0' as int) + d) as char
  }

  /** Decimal digits of a natural number, most significant first, no leading zeros. */
  function NatToString(n: nat): (s: string)
    ensures |s| >= 1 && AllDigits(s)
    ensures |s| > 1 ==> s[0] != '0'
    decreases n
  {
    if n < 10 then [DigitChar(n)] else NatToString(n / 10) + [DigitChar(n % 10)]
  }

  /** The value of a string of decimal digits. */
  function ParseNat(s: string): nat
    requires AllDigits(s)
  {
    if s == [] then 0 else ParseNat(s[..|s| - 1]) * 10 + (s[|s| - 1] as int - '0' as int)
  }

  lemma {:induction false} NatRoundTrip(n: nat)
    ensures ParseNat(NatToString(n)) == n
    decreases n
  {
    if n >= 10 {
      var s := NatToString(n);
      assert s[..|s| - 1] == NatToString(n / 10);
      NatRoundTrip(n / 10);
    }
  }

  /** Python's `str(i)` for an `int`: a minus sign for negatives, then the digits. */
  function IntToString(i: int): (s: string)
    ensures |s| >= 1
    ensures i >= 0 ==> AllDigits(s)
    ensures i < 0 ==> s[0] == '-' && AllDigits(s[1..])
  {
    if i < 0 then "-" + NatToString(-i) else NatToString(i)
  }

  /** Inverse of IntToString on its image. */
  function ParseInt(s: string): int
    requires |s| >= 1
    requires AllDigits(s) || (s[0] == '-' && AllDigits(s[1..]))
  {
    if s[0] == '-' then -(ParseNat(s[1..]) as int) else ParseNat(s)
  }

  lemma IntRoundTrip(i: int)
    ensures ParseInt(IntToString(i)) == i
  {
    if i < 0 {
      assert IntToString(i)[1..] == NatToString(-i);
      NatRoundTrip(-i);
    } else {
      NatRoundTrip(i);
    }
  }

  lemma IntToStringInjective(a: int, b: int)
    requires IntToString(a) == IntToString(b)
    ensures a == b
  {
    IntRoundTrip(a);
    IntRoundTrip(b);
  }

  /** ASCII lower-casing of one character. */
  function LowerChar(c: char): (r: char)
    ensures 'A' <= c <= 'Z' ==> 'a' <= r <= 'z' && r as int == c as int + 32
    ensures !('A' <= c <= 'Z') ==> r == c
  {
    if 'A' <= c <= 'Z' then (c as int + 32) as char else c
  }

  /** `s.lower()` restricted to ASCII letters. */
  function Lower(s: string): (r: string)
    ensures |r| == |s|
    ensures forall i :: 0 <= i < |s| ==> r[i] == LowerChar(s[i])
  {
    seq(|s|, i requires 0 <= i < |s| => LowerChar(s[i]))
  }

  lemma LowerConcat(a: string, b: string)
    ensures Lower(a + b) == Lower(a) + Lower(b)
  {
  }

  /** `s.replace([c], "")`: every occurrence of `c` removed, the rest in order. */
  function RemoveChar(s: string, c: char): (r: string)
    ensures c !in r
    ensures |r| <= |s|
    ensures c !in s ==> r == s
  {
    if s == [] then []
    else if s[0] == c then RemoveChar(s[1..], c)
    else [s[0]] + RemoveChar(s[1..], c)
  }

  lemma {:induction false} RemoveCharConcat(a: string, b: string, c: char)
    ensures RemoveChar(a + b, c) == RemoveChar(a, c) + RemoveChar(b, c)
  {
    if a != [] {
      assert (a + b)[1..] == a[1..] + b;
      RemoveCharConcat(a[1..], b, c);
    } else {
      assert a + b == b;
    }
  }

  /** `r` is `s` read at increasing positions, which are exactly those not holding `c`. */
  predicate RemovedAt(r: string, s: string, c: char, idx: seq<int>)
  {
    Picks(r, s, idx) &&
    forall i :: 0 <= i < |s| ==> (i in idx <==> s[i] != c)
  }

  /** Putting one character in front moves the kept positions one step, and adds 0 when it is kept. */
  lemma RemovedAtCons(x: char, t: string, c: char, idx: seq<int>)
    requires Increasing(idx, |t|)
    requires forall i :: 0 <= i < |t| ==> (i in idx <==> t[i] != c)
    ensures var sh := if x != c then [0] + Shift(idx) else Shift(idx);
      forall i :: 0 <= i < |[x] + t| ==> (i in sh <==> ([x] + t)[i] != c)
  {
    var s := [x] + t;
    var sh := if x != c then [0] + Shift(idx) else Shift(idx);
    forall i | 0 <= i < |s| ensures i in sh <==> s[i] != c {
      ShiftMember(idx, |t|, i);
      if i > 0 { assert s[i] == t[i - 1]; }
    }
  }

  /**
   * Removal keeps every other character, once each and in the original
   * order: the result is the input read at exactly the positions that do
   * not hold `c`.
   */
  lemma {:induction false} RemoveCharKeepsOrder(s: string, c: char)
    ensures exists idx :: RemovedAt(RemoveChar(s, c), s, c, idx)
  {
    if s == [] {
      assert RemovedAt(RemoveChar(s, c), s, c, []);
    } else {
      var t := s[1..];
      RemoveCharKeepsOrder(t, c);
      var idx :| RemovedAt(RemoveChar(t, c), t, c, idx);
      assert s == [s[0]] + t;
      RemovedAtCons(s[0], t, c, idx);
      if s[0] == c {
        PicksSkip(s[0], t, RemoveChar(t, c), idx);
        assert RemovedAt(RemoveChar(s, c), s, c, Shift(idx));
      } else {
        PicksTake(s[0], t, RemoveChar(t, c), idx);
        assert RemovedAt(RemoveChar(s, c), s, c, [0] + Shift(idx));
      }
    }
  }

  /** Removal takes out every copy of `c` and keeps the count of every other character. */
  lemma {:induction false} RemoveCharMultiset(s: string, c: char)
    ensures multiset(RemoveChar(s, c)) == multiset(s)[c := 0]
  {
    if s != [] {
      var t := s[1..];
      RemoveCharMultiset(t, c);
      assert s == [s[0]] + t;
      assert multiset(s) == multiset{s[0]} + multiset(t);
      if s[0] != c {
        assert multiset(RemoveChar(s, c)) == multiset{s[0]} + multiset(RemoveChar(t, c));
      }
    }
  }

  /** `sep` occurs in `s` starting at index `i`. */
  predicate OccursAt(s: string, sep: string, i: int)
  {
    0 <= i && i + |sep| <= |s| && s[i..i + |sep|] == sep
  }

  lemma SliceOfTail(s: string, i: int, n: nat)
    requires 1 <= i && i + n <= |s|
    ensures s[1..][i - 1..i - 1 + n] == s[i..i + n]
  {
    var a := s[1..][i - 1..i - 1 + n];
    var b := s[i..i + n];
    forall j | 0 <= j < n ensures a[j] == b[j] {
      assert s[1..][i - 1 + j] == s[i + j];
    }
  }

  /**
   * Python's `s.split(sep)[0]`: the part of `s` before the first occurrence
   * of `sep`, or all of `s` when `sep` does not occur.
   */
  function BeforeFirst(s: string, sep: string): (r: string)
    requires |sep| > 0
    ensures r <= s
    ensures forall i :: 0 <= i < |r| ==> !OccursAt(s, sep, i)
    ensures r == s || OccursAt(s, sep, |r|)
    decreases |s|
  {
    if |s| < |sep| then s
    else if s[..|sep|] == sep then []
    else
      var rest := BeforeFirst(s[1..], sep);
      assert forall i :: 1 <= i < |s| ==> (OccursAt(s, sep, i) <==> OccursAt(s[1..], sep, i - 1)) by {
        forall i | 1 <= i < |s| ensures OccursAt(s, sep, i) <==> OccursAt(s[1..], sep, i - 1) {
          if i + |sep| <= |s| { SliceOfTail(s, i, |sep|); }
        }
      }
      [s[0]] + rest
  }

  /** Python's `a < b` on `str`: lexicographic order by code point. */
  predicate StrLess(a: string, b: string)
    decreases |a|
  {
    if |b| == 0 then false
    else if |a| == 0 then true
    else if a[0] != b[0] then a[0] < b[0]
    else StrLess(a[1..], b[1..])
  }

  lemma {:induction false} StrLessIrreflexive(a: string)
    ensures !StrLess(a, a)
    decreases |a|
  {
    if |a| > 0 { StrLessIrreflexive(a[1..]); }
  }

  lemma {:induction false} StrLessTransitive(a: string, b: string, c: string)
    requires StrLess(a, b) && StrLess(b, c)
    ensures StrLess(a, c)
    decreases |a|
  {
    if |a| > 0 && a[0] == b[0] && b[0] == c[0] {
      StrLessTransitive(a[1..], b[1..], c[1..]);
    }
  }

  lemma {:induction false} StrLessTotal(a: string, b: string)
    requires a != b
    ensures StrLess(a, b) || StrLess(b, a)
    decreases |a|
  {
    if |a| > 0 && |b| > 0 && a[0] == b[0] {
      assert a == [a[0]] + a[1..] && b == [b[0]] + b[1..];
      StrLessTotal(a[1..], b[1..]);
    }
  }
}
