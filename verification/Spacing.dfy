// How many instants at least d apart fit in an interval.
module Spacing {
  import opened Common

  function CeilDiv(a: nat, b: nat): (r: nat)
    requires b > 0
    ensures (r - 1) * b < a <= r * b
  {
    (a + b - 1) / b
  }

  // Instants in ascending order, neighbours at least d apart.
  predicate Spaced(s: seq<Time>, d: nat) {
    forall i :: 0 < i < |s| ==> s[i - 1] + d <= s[i]
  }

  function CountIn(s: seq<Time>, lo: Time, hi: Time): nat {
    if s == [] then 0
    else CountIn(s[..|s| - 1], lo, hi) + if lo <= s[|s| - 1] < hi then 1 else 0
  }

  lemma {:induction false} CountToLast(s: seq<Time>, d: nat, lo: Time, hi: Time)
    requires Spaced(s, d) && d > 0 && s != []
    ensures var last := s[|s| - 1];
            if last < lo then CountIn(s, lo, hi) == 0 else CountIn(s, lo, hi) * d <= last - lo + d
  {
    var n := |s| - 1;
    if n > 0 {
      CountToLast(s[..n], d, lo, hi);
      assert s[n - 1] + d <= s[n];
      var m := CountIn(s[..n], lo, hi);
      assert (m + 1) * d == m * d + d;
    }
  }

  // At most ceil(T/d) of them in any half-open interval of length T.
  lemma {:induction false} AtMostCeil(s: seq<Time>, d: nat, lo: Time, length: nat)
    requires Spaced(s, d) && d > 0
    ensures CountIn(s, lo, lo + length) <= CeilDiv(length, d)
  {
    if s != [] {
      var n := |s| - 1;
      if s[n] >= lo + length {
        AtMostCeil(s[..n], d, lo, length);
      } else {
        CountToLast(s, d, lo, lo + length);
        FitsBelow(CountIn(s, lo, lo + length), d, length);
      }
    }
  }

  lemma FitsBelow(m: nat, d: nat, length: nat)
    requires d > 0 && (m == 0 || m * d < length + d)
    ensures m <= CeilDiv(length, d)
  {
    var r := CeilDiv(length, d);
    assert (r + 1) * d == r * d + d;
    if m > r {
      Scaled(r + 1, m, d);
    }
  }

  lemma Scaled(a: nat, b: nat, d: nat)
    requires a <= b
    ensures a * d <= b * d
  {
  }

  // ---------- several at a time ----------

  // Ascending, and any n + 1 consecutive ones span at least d.
  predicate Spread(s: seq<Time>, n: nat, d: nat) {
    forall i :: 0 <= i && i + n < |s| ==> s[i + n] >= s[i] + d
  }

  predicate Ascends(s: seq<Time>) {
    forall i, j :: 0 <= i < j < |s| ==> s[i] <= s[j]
  }

  lemma {:induction false} CountSplit(s: seq<Time>, lo: Time, mid: Time, hi: Time)
    requires lo <= mid <= hi
    ensures CountIn(s, lo, hi) == CountIn(s, lo, mid) + CountIn(s, mid, hi)
  {
    if s != [] {
      CountSplit(s[..|s| - 1], lo, mid, hi);
    }
  }

  // The instants counted are the last ones, when none lies beyond.
  lemma {:induction false} CountedLast(s: seq<Time>, lo: Time, hi: Time)
    requires Ascends(s) && (s != [] ==> s[|s| - 1] < hi)
    ensures CountIn(s, lo, hi) <= |s|
    ensures CountIn(s, lo, hi) > 0 ==> s[|s| - CountIn(s, lo, hi)] >= lo
  {
    if s != [] {
      var n := |s| - 1;
      assert n > 0 ==> s[n - 1] <= s[n];
      CountedLast(s[..n], lo, hi);
    }
  }

  // At most n of them in any window of length d.
  lemma {:induction false} AtMostInWindow(s: seq<Time>, n: nat, d: nat, lo: Time)
    requires Ascends(s) && Spread(s, n, d)
    ensures CountIn(s, lo, lo + d) <= n
  {
    if s != [] {
      var k := |s| - 1;
      if s[k] >= lo + d {
        AtMostInWindow(s[..k], n, d, lo);
      } else {
        CountedLast(s, lo, lo + d);
        assert n <= k ==> s[(k - n) + n] >= s[k - n] + d;
      }
    }
  }

  lemma {:induction false} AtMostInWindows(s: seq<Time>, n: nat, d: nat, lo: Time, k: nat)
    requires Ascends(s) && Spread(s, n, d)
    ensures CountIn(s, lo, lo + k * d) <= n * k
  {
    if k == 0 {
      NoneInEmpty(s, lo);
    } else {
      var mid := lo + (k - 1) * d;
      assert k * d == (k - 1) * d + d;
      AtMostInWindows(s, n, d, lo, k - 1);
      AtMostInWindow(s, n, d, mid);
      assert (k - 1) * d >= 0;
      CountSplit(s, lo, mid, lo + k * d);
      assert n * k == n * (k - 1) + n;
    }
  }

  lemma {:induction false} NoneInEmpty(s: seq<Time>, lo: Time)
    ensures CountIn(s, lo, lo) == 0
  {
    if s != [] {
      NoneInEmpty(s[..|s| - 1], lo);
    }
  }

  // At most n * ceil(T/d) of them in any half-open interval of length T.
  lemma AtMostPerWindow(s: seq<Time>, n: nat, d: nat, lo: Time, length: nat)
    requires Ascends(s) && Spread(s, n, d) && d > 0
    ensures CountIn(s, lo, lo + length) <= n * CeilDiv(length, d)
  {
    var k := CeilDiv(length, d);
    AtMostInWindows(s, n, d, lo, k);
    CountSplit(s, lo, lo + length, lo + k * d);
  }
}
