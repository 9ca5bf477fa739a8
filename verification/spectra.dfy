/** Post-processing of a raw eigenvalue sequence into the spectrum `phis`
    (square, pad with zeros, zero out entries below the threshold, sort in
    descending order), and the counts taken of it. */
module Spectra {

  predicate NonIncreasing(s: seq<real>)
  {
    forall i, j :: 0 <= i < j < |s| ==> s[i] >= s[j]
  }

  predicate NonNegative(s: seq<real>)
  {
    forall i :: 0 <= i < |s| ==> s[i] >= 0.0
  }

  /** Every entry was either cleared to 0 or kept because it reached `tau`. */
  predicate ZeroOrAtLeast(s: seq<real>, tau: real)
  {
    forall i :: 0 <= i < |s| ==> s[i] == 0.0 || s[i] >= tau
  }

  /** Number of entries strictly greater than `t`: `sum(s > t)` in numpy. */
  function CountAbove(s: seq<real>, t: real): (c: nat)
    ensures c <= |s|
  {
    if |s| == 0 then 0 else (if s[0] > t then 1 else 0) + CountAbove(s[1..], t)
  }

  /** `svdvals(SZ) ** 2`: the eigenvalues of SZ·SZᵀ from singular values. */
  function Squares(sv: seq<real>): (r: seq<real>)
    ensures |r| == |sv|
    ensures NonNegative(r)
    ensures forall i :: 0 <= i < |sv| ==> r[i] == sv[i] * sv[i]
  {
    seq(|sv|, i requires 0 <= i < |sv| => sv[i] * sv[i])
  }

  /** `concatenate([s, zeros(n - len(s))])`. */
  function PadZeros(s: seq<real>, n: nat): (r: seq<real>)
    requires |s| <= n
    ensures |r| == n
    ensures r[..|s|] == s
    ensures forall i :: |s| <= i < n ==> r[i] == 0.0
  {
    s + seq(n - |s|, _ => 0.0)
  }

  /** `s[s < tau] = 0`: every entry below the threshold, negative ones
      included, becomes 0; every other entry is kept. */
  function ZeroBelow(s: seq<real>, tau: real): (r: seq<real>)
    ensures |r| == |s|
    ensures ZeroOrAtLeast(r, tau)
    ensures forall i :: 0 <= i < |s| && s[i] >= tau ==> r[i] == s[i]
    ensures forall i :: 0 <= i < |s| && s[i] < tau ==> r[i] == 0.0
    ensures 0.0 <= tau ==> NonNegative(r)
  {
    if |s| == 0 then []
    else [if s[0] < tau then 0.0 else s[0]] + ZeroBelow(s[1..], tau)
  }

  /** Inserts `x` into a non-increasing sequence, keeping it non-increasing. */
  function Insert(x: real, s: seq<real>): (r: seq<real>)
    requires NonIncreasing(s)
    ensures NonIncreasing(r)
    ensures multiset(r) == multiset(s) + multiset{x}
  {
    if |s| == 0 then [x]
    else if x >= s[0] then [x] + s
    else
      var rest := Insert(x, s[1..]);
      assert s == [s[0]] + s[1..];
      forall j | 0 <= j < |rest| ensures s[0] >= rest[j] {
        assert rest[j] in multiset(rest);
      }
      [s[0]] + rest
  }

  /** `sort(s)[::-1]`: the entries of `s` in descending order. */
  function SortDescending(s: seq<real>): (r: seq<real>)
    ensures NonIncreasing(r)
    ensures multiset(r) == multiset(s)
  {
    if |s| == 0 then []
    else
      assert s == [s[0]] + s[1..];
      Insert(s[0], SortDescending(s[1..]))
  }

  /** The multiset of a sequence with its element at index j removed. */
  lemma MultisetRemove(s: seq<real>, j: nat)
    requires j < |s|
    ensures multiset(s[..j] + s[j + 1..]) == multiset(s) - multiset{s[j]}
  {
    assert s == s[..j] + [s[j]] + s[j + 1..];
  }

  lemma MultisetTail(s: seq<real>)
    requires |s| > 0
    ensures multiset(s[1..]) == multiset(s) - multiset{s[0]}
  {
    MultisetRemove(s, 0);
    assert s[..0] + s[1..] == s[1..];
  }

  /** The head of a descending sequence bounds each of its values. */
  lemma HeadIsMaximum(s: seq<real>, x: real)
    requires NonIncreasing(s)
    requires x in multiset(s)
    ensures s[0] >= x
  {
    var i :| 0 <= i < |s| && s[i] == x;
  }

  lemma TailOfSorted(s: seq<real>)
    requires NonIncreasing(s) && |s| > 0
    ensures NonIncreasing(s[1..])
    ensures multiset(s[1..]) == multiset(s) - multiset{s[0]}
  {
    MultisetTail(s);
  }

  /** Any two descending arrangements of the same multiset of values are
      equal, so the descending sort is determined by its input's values and
      the insertion sort above agrees with numpy's sort followed by a
      reversal. */
  lemma {:induction false} SortedPermutationUnique(a: seq<real>, b: seq<real>)
    requires NonIncreasing(a) && NonIncreasing(b)
    requires multiset(a) == multiset(b)
    ensures a == b
  {
    assert |multiset(a)| == |a| && |multiset(b)| == |b|;
    if |a| > 0 {
      assert b[0] in multiset(b);
      HeadIsMaximum(a, b[0]);
      assert a[0] in multiset(a);
      HeadIsMaximum(b, a[0]);
      assert a[0] == b[0];
      TailOfSorted(a);
      TailOfSorted(b);
      SortedPermutationUnique(a[1..], b[1..]);
      assert a == [a[0]] + a[1..];
      assert b == [b[0]] + b[1..];
    }
  }

  /** Sorting leaves an already descending sequence unchanged. */
  lemma SortDescendingIdempotent(s: seq<real>)
    requires NonIncreasing(s)
    ensures SortDescending(s) == s
  {
    SortedPermutationUnique(SortDescending(s), s);
  }

  lemma {:induction false} CountAboveConcat(u: seq<real>, v: seq<real>, t: real)
    ensures CountAbove(u + v, t) == CountAbove(u, t) + CountAbove(v, t)
  {
    if |u| > 0 {
      assert (u + v)[1..] == u[1..] + v;
      CountAboveConcat(u[1..], v, t);
    } else {
      assert u + v == v;
    }
  }

  /** Removing the entry at index j lowers the count by that entry's share. */
  lemma CountAboveRemove(s: seq<real>, j: nat, t: real)
    requires j < |s|
    ensures CountAbove(s, t) == CountAbove(s[..j] + s[j + 1..], t) + (if s[j] > t then 1 else 0)
  {
    assert s == s[..j] + ([s[j]] + s[j + 1..]);
    CountAboveConcat(s[..j], [s[j]] + s[j + 1..], t);
    CountAboveConcat(s[..j], s[j + 1..], t);
    assert ([s[j]] + s[j + 1..])[1..] == s[j + 1..];
  }

  /** The count depends only on the multiset of values, not on their order. */
  lemma {:induction false} CountAbovePermutation(a: seq<real>, b: seq<real>, t: real)
    requires multiset(a) == multiset(b)
    ensures CountAbove(a, t) == CountAbove(b, t)
  {
    assert |multiset(a)| == |a| && |multiset(b)| == |b|;
    if |a| > 0 {
      assert a[0] in multiset(b);
      var j :| 0 <= j < |b| && b[j] == a[0];
      MultisetRemove(a, 0);
      MultisetRemove(b, j);
      assert a[..0] + a[1..] == a[1..];
      CountAbovePermutation(a[1..], b[..j] + b[j + 1..], t);
      CountAboveRemove(b, j, t);
    }
  }

  /** Raising the threshold never increases the count. */
  lemma {:induction false} CountAboveMonotone(s: seq<real>, lo: real, hi: real)
    requires lo <= hi
    ensures CountAbove(s, hi) <= CountAbove(s, lo)
  {
    if |s| > 0 {
      CountAboveMonotone(s[1..], lo, hi);
    }
  }

  lemma {:induction false} CountAboveZeros(n: nat, t: real)
    requires 0.0 <= t
    ensures CountAbove(seq(n, _ => 0.0), t) == 0
  {
    if n > 0 {
      assert seq(n, _ => 0.0)[1..] == seq(n - 1, _ => 0.0);
      CountAboveZeros(n - 1, t);
    }
  }

  /** In a descending, non-negative sequence the `CountAbove(s, 0)` leading
      entries are exactly the positive ones and every later entry is 0. */
  lemma {:induction false} PositivePrefix(s: seq<real>)
    requires NonIncreasing(s) && NonNegative(s)
    ensures forall i :: 0 <= i < CountAbove(s, 0.0) ==> s[i] > 0.0
    ensures forall i :: CountAbove(s, 0.0) <= i < |s| ==> s[i] == 0.0
  {
    if |s| > 0 {
      PositivePrefix(s[1..]);
      var k' := CountAbove(s[1..], 0.0);
      if s[0] > 0.0 {
        forall i | 0 < i < 1 + k' ensures s[i] > 0.0 {
          assert s[i] == s[1..][i - 1];
        }
        forall i | 1 + k' <= i < |s| ensures s[i] == 0.0 {
          assert s[i] == s[1..][i - 1];
        }
      } else {
        forall i | 0 < i < |s| ensures s[i] == 0.0 {
          assert s[0] >= s[i];
        }
        assert |s| > 1 ==> s[1..][0] == 0.0;
        assert k' == 0;
      }
    }
  }

  /** With entries that are 0 or at least a positive `tau`, the entries above
      0 are those above `tau` plus those exactly equal to `tau`. */
  lemma {:induction false} CountAboveSplit(s: seq<real>, tau: real)
    requires 0.0 < tau
    requires ZeroOrAtLeast(s, tau)
    ensures CountAbove(s, 0.0) == CountAbove(s, tau) + multiset(s)[tau]
  {
    if |s| > 0 {
      assert s == [s[0]] + s[1..];
      assert multiset(s) == multiset{s[0]} + multiset(s[1..]);
      CountAboveSplit(s[1..], tau);
    }
  }

  /** The spectrum of the low-rank variant: squared singular values padded
      with zeros to length n, cleared below `tau`, sorted descending. */
  function LowRankSpectrum(sv: seq<real>, n: nat, tau: real): (phis: seq<real>)
    requires |sv| <= n
    ensures |phis| == n
    ensures NonIncreasing(phis) && NonNegative(phis) && ZeroOrAtLeast(phis, tau)
    ensures multiset(phis) == multiset(ZeroBelow(PadZeros(Squares(sv), n), tau))
  {
    var cleared := ZeroBelow(PadZeros(Squares(sv), n), tau);
    var phis := SortDescending(cleared);
    assert |phis| == n by {
      assert |multiset(phis)| == |phis| && |multiset(cleared)| == |cleared|;
    }
    forall i | 0 <= i < n ensures phis[i] >= 0.0 && (phis[i] == 0.0 || phis[i] >= tau) {
      assert phis[i] in multiset(cleared);
    }
    phis
  }

  /** The spectrum of the full-kernel variant: eigenvalues cleared below
      `tau` and sorted descending, with no padding. */
  function FullKernelSpectrum(ev: seq<real>, tau: real): (phis: seq<real>)
    ensures |phis| == |ev|
    ensures NonIncreasing(phis) && ZeroOrAtLeast(phis, tau)
    ensures 0.0 <= tau ==> NonNegative(phis)
    ensures multiset(phis) == multiset(ZeroBelow(ev, tau))
  {
    var cleared := ZeroBelow(ev, tau);
    var phis := SortDescending(cleared);
    assert |phis| == |ev| by {
      assert |multiset(phis)| == |phis| && |multiset(cleared)| == |cleared|;
    }
    forall i | 0 <= i < |phis| ensures (phis[i] == 0.0 || phis[i] >= tau) && (0.0 <= tau ==> phis[i] >= 0.0) {
      assert phis[i] in multiset(cleared);
    }
    phis
  }

  /** In the low-rank spectrum, the number of positive entries is the number
      of squared singular values that survive the threshold: neither the
      zero padding nor the sort changes it. */
  lemma LowRankPositiveCount(sv: seq<real>, n: nat, tau: real)
    requires |sv| <= n
    ensures CountAbove(LowRankSpectrum(sv, n, tau), 0.0) == CountAbove(ZeroBelow(Squares(sv), tau), 0.0)
  {
    var sq := Squares(sv);
    var padded := PadZeros(sq, n);
    var zeros := seq(n - |sq|, _ => 0.0);
    assert padded == sq + zeros;
    assert ZeroBelow(padded, tau) == ZeroBelow(sq, tau) + ZeroBelow(zeros, tau);
    CountAbovePermutation(LowRankSpectrum(sv, n, tau), ZeroBelow(padded, tau), 0.0);
    CountAboveConcat(ZeroBelow(sq, tau), ZeroBelow(zeros, tau), 0.0);
    assert ZeroBelow(zeros, tau) == zeros;
    CountAboveZeros(n - |sq|, 0.0);
  }

  /** Clearing twice with the same threshold clears nothing more. */
  lemma {:induction false} ZeroBelowIdempotent(s: seq<real>, tau: real)
    ensures ZeroBelow(ZeroBelow(s, tau), tau) == ZeroBelow(s, tau)
  {
    if |s| > 0 {
      ZeroBelowIdempotent(s[1..], tau);
    }
  }

  /** Post-processing an already post-processed spectrum returns it
      unchanged. */
  lemma FullKernelSpectrumIdempotent(ev: seq<real>, tau: real)
    ensures FullKernelSpectrum(FullKernelSpectrum(ev, tau), tau) == FullKernelSpectrum(ev, tau)
  {
    var phis := FullKernelSpectrum(ev, tau);
    var again := ZeroBelow(phis, tau);
    forall i | 0 <= i < |phis| ensures again[i] == phis[i] {
      if phis[i] < tau {
        assert phis[i] == 0.0;
      }
    }
    assert again == phis;
    SortDescendingIdempotent(phis);
  }
}
