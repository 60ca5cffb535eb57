/** Conditional sums over sequences, and the per-group running total that
    pandas' `groupby(...).cumsum()` computes. */
module Sums {
  import opened Seqs

  /** Sum of `val(x)` over the elements `x` of `s` that satisfy `p`. */
  function SumIf<T>(s: seq<T>, p: T -> bool, val: T -> real): real
    decreases |s|
  {
    if |s| == 0 then 0.0
    else (if p(s[0]) then val(s[0]) else 0.0) + SumIf(s[1..], p, val)
  }

  lemma {:induction false} SumIfConcat<T>(a: seq<T>, b: seq<T>, p: T -> bool, val: T -> real)
    ensures SumIf(a + b, p, val) == SumIf(a, p, val) + SumIf(b, p, val)
    decreases |a|
  {
    if |a| > 0 {
      assert (a + b)[0] == a[0];
      assert (a + b)[1..] == a[1..] + b;
      SumIfConcat(a[1..], b, p, val);
      assert SumIf(a + b, p, val) == (if p(a[0]) then val(a[0]) else 0.0) + SumIf(a[1..] + b, p, val);
    } else {
      assert a + b == b;
    }
  }

  lemma SumIfSnoc<T>(a: seq<T>, x: T, p: T -> bool, val: T -> real)
    ensures SumIf(a + [x], p, val) == SumIf(a, p, val) + (if p(x) then val(x) else 0.0)
  {
    SumIfConcat(a, [x], p, val);
  }

  /** Elements that fail the filter contribute nothing. */
  lemma {:induction false} SumIfNone<T>(s: seq<T>, p: T -> bool, val: T -> real)
    requires forall i :: 0 <= i < |s| ==> !p(s[i])
    ensures SumIf(s, p, val) == 0.0
    decreases |s|
  {
    if |s| > 0 {
      SumIfNone(s[1..], p, val);
    }
  }

  /** Two filters that agree on every element give the same sum. */
  lemma {:induction false} SumIfCongruent<T>(s: seq<T>, p: T -> bool, q: T -> bool, val: T -> real)
    requires forall i :: 0 <= i < |s| ==> p(s[i]) == q(s[i])
    ensures SumIf(s, p, val) == SumIf(s, q, val)
    decreases |s|
  {
    if |s| > 0 {
      SumIfCongruent(s[1..], p, q, val);
    }
  }

  /** A sum of non-negative terms is non-negative. */
  lemma {:induction false} SumIfNonNegative<T>(s: seq<T>, p: T -> bool, val: T -> real)
    requires forall i :: 0 <= i < |s| ==> val(s[i]) >= 0.0
    ensures SumIf(s, p, val) >= 0.0
    decreases |s|
  {
    if |s| > 0 {
      SumIfNonNegative(s[1..], p, val);
    }
  }

  /** Taking the head of `s` out of a rearrangement `t` of `s` leaves a
      rearrangement of the tail. */
  lemma RemoveHead<T>(s: seq<T>, t: seq<T>, k: int)
    requires multiset(s) == multiset(t)
    requires |s| > 0 && 0 <= k < |t| && t[k] == s[0]
    ensures multiset(s[1..]) == multiset(t[..k] + t[k + 1..])
  {
    assert s == [s[0]] + s[1..];
    assert t == t[..k] + [t[k]] + t[k + 1..];
    assert multiset(s[1..]) == multiset(s) - multiset{s[0]};
    assert multiset(t[..k] + t[k + 1..]) == multiset(t) - multiset{s[0]};
  }

  /** The sum does not depend on the order of the elements. */
  lemma {:induction false} SumIfPermutation<T>(s: seq<T>, t: seq<T>, p: T -> bool, val: T -> real)
    requires multiset(s) == multiset(t)
    ensures SumIf(s, p, val) == SumIf(t, p, val)
    decreases |s|
  {
    if |s| == 0 {
      assert |t| == |multiset(t)| == 0;
    } else {
      var x := s[0];
      assert x in multiset(t);
      var k :| 0 <= k < |t| && t[k] == x;
      var rest := t[..k] + t[k + 1..];
      assert t == t[..k] + [x] + t[k + 1..];
      assert s == [x] + s[1..];
      RemoveHead(s, t, k);
      SumIfPermutation(s[1..], rest, p, val);
      SumIfConcat(t[..k] + [x], t[k + 1..], p, val);
      SumIfConcat(t[..k], [x], p, val);
      SumIfConcat(t[..k], t[k + 1..], p, val);
      SumIfConcat([x], s[1..], p, val);
    }
  }

  // ---------------------------------------------------------------------------
  // Per-group totals
  // ---------------------------------------------------------------------------

  /** Sum of `val` over the elements of `s` whose group is `k`. */
  function GroupTotal<T, K(==)>(s: seq<T>, k: K, key: T -> K, val: T -> real): real {
    SumIf(s, x => key(x) == k, val)
  }

  lemma GroupTotalSnoc<T, K>(s: seq<T>, x: T, k: K, key: T -> K, val: T -> real)
    ensures GroupTotal(s + [x], k, key, val)
         == GroupTotal(s, k, key, val) + (if key(x) == k then val(x) else 0.0)
  {
    SumIfSnoc(s, x, y => key(y) == k, val);
  }

  lemma GroupTotalConcat<T, K>(a: seq<T>, b: seq<T>, k: K, key: T -> K, val: T -> real)
    ensures GroupTotal(a + b, k, key, val) == GroupTotal(a, k, key, val) + GroupTotal(b, k, key, val)
  {
    SumIfConcat(a, b, x => key(x) == k, val);
  }

  lemma GroupTotalSingle<T, K>(x: T, k: K, key: T -> K, val: T -> real)
    ensures GroupTotal([x], k, key, val) == if key(x) == k then val(x) else 0.0
  {
    GroupTotalSnoc([], x, k, key, val);
    assert [] + [x] == [x];
  }

  lemma GroupTotalOutside<T, K>(s: seq<T>, k: K, key: T -> K, val: T -> real)
    requires forall i :: 0 <= i < |s| ==> key(s[i]) != k
    ensures GroupTotal(s, k, key, val) == 0.0
  {
    SumIfNone(s, x => key(x) == k, val);
  }

  lemma GroupTotalNonNegative<T, K>(s: seq<T>, k: K, key: T -> K, val: T -> real)
    requires forall i :: 0 <= i < |s| ==> val(s[i]) >= 0.0
    ensures GroupTotal(s, k, key, val) >= 0.0
  {
    SumIfNonNegative(s, x => key(x) == k, val);
  }

  lemma GroupTotalPermutation<T, K>(s: seq<T>, t: seq<T>, k: K, key: T -> K, val: T -> real)
    requires multiset(s) == multiset(t)
    ensures GroupTotal(s, k, key, val) == GroupTotal(t, k, key, val)
  {
    SumIfPermutation(s, t, x => key(x) == k, val);
  }

  /** A group total is the conditional sum of any filter that picks the
      same elements as the group. */
  lemma GroupTotalCongruent<T, K>(s: seq<T>, k: K, key: T -> K, val: T -> real, q: T -> bool)
    requires forall i :: 0 <= i < |s| ==> (key(s[i]) == k) == q(s[i])
    ensures GroupTotal(s, k, key, val) == SumIf(s, q, val)
  {
    SumIfCongruent(s, x => key(x) == k, q, val);
  }

  /** Reference definition of the running total per group: entry `i` is the
      sum of `val` over every element up to and including `i` that shares
      element `i`'s group. */
  function GroupRunningSums<T, K(==)>(s: seq<T>, key: T -> K, val: T -> real): (r: seq<real>)
    ensures |r| == |s|
  {
    seq(|s|, i requires 0 <= i < |s| => GroupTotal(s[..i + 1], key(s[i]), key, val))
  }

  /** The single pass pandas makes: one running total per group seen so far. */
  method CumSumByGroup<T, K(==)>(s: seq<T>, key: T -> K, val: T -> real) returns (r: seq<real>)
    ensures r == GroupRunningSums(s, key, val)
  {
    var totals: map<K, real> := map[];
    r := [];
    var i := 0;
    while i < |s|
      invariant 0 <= i <= |s|
      invariant |r| == i
      invariant forall j :: 0 <= j < i ==> r[j] == GroupTotal(s[..j + 1], key(s[j]), key, val)
      invariant forall k :: k in totals ==> totals[k] == GroupTotal(s[..i], k, key, val)
      invariant forall k :: k !in totals ==> GroupTotal(s[..i], k, key, val) == 0.0
    {
      var k := key(s[i]);
      var t := (if k in totals then totals[k] else 0.0) + val(s[i]);
      assert s[..i + 1] == s[..i] + [s[i]];
      forall k' ensures GroupTotal(s[..i + 1], k', key, val)
                     == GroupTotal(s[..i], k', key, val) + (if key(s[i]) == k' then val(s[i]) else 0.0)
      {
        GroupTotalSnoc(s[..i], s[i], k', key, val);
      }
      assert t == GroupTotal(s[..i + 1], key(s[i]), key, val);
      totals := totals[k := t];
      r := r + [t];
      i := i + 1;
    }
  }

  // ---------------------------------------------------------------------------
  // Totals and their split into groups
  // ---------------------------------------------------------------------------

  /** Sum of `val` over all of `s`. */
  function Total<T>(s: seq<T>, val: T -> real): real
    decreases |s|
  {
    if |s| == 0 then 0.0 else val(s[0]) + Total(s[1..], val)
  }

  /** The group totals of `s` for the keys `ls`, added up. */
  function SumGroups<T, K(==)>(s: seq<T>, ls: seq<K>, key: T -> K, val: T -> real): real
    decreases |ls|
  {
    if |ls| == 0 then 0.0 else GroupTotal(s, ls[0], key, val) + SumGroups(s, ls[1..], key, val)
  }

  /** What one element adds to `SumGroups`: its value once for every key of
      `ls` equal to its own. */
  function Indicator<T, K(==)>(x: T, ls: seq<K>, key: T -> K, val: T -> real): real
    decreases |ls|
  {
    if |ls| == 0 then 0.0 else (if key(x) == ls[0] then val(x) else 0.0) + Indicator(x, ls[1..], key, val)
  }

  lemma {:induction false} IndicatorOnce<T, K>(x: T, ls: seq<K>, key: T -> K, val: T -> real)
    requires Distinct(ls)
    ensures Indicator(x, ls, key, val) == if key(x) in ls then val(x) else 0.0
    decreases |ls|
  {
    if |ls| > 0 {
      assert Distinct(ls[1..]);
      IndicatorOnce(x, ls[1..], key, val);
      if key(x) == ls[0] {
        assert key(x) !in ls[1..];
      } else {
        assert key(x) in ls <==> key(x) in ls[1..];
      }
    }
  }

  lemma GroupTotalCons<T, K>(x: T, s: seq<T>, k: K, key: T -> K, val: T -> real)
    ensures GroupTotal([x] + s, k, key, val) == (if key(x) == k then val(x) else 0.0) + GroupTotal(s, k, key, val)
  {
    GroupTotalConcat([x], s, k, key, val);
    GroupTotalSingle(x, k, key, val);
  }

  lemma {:induction false} SumGroupsCons<T, K>(x: T, s: seq<T>, ls: seq<K>, key: T -> K, val: T -> real)
    ensures SumGroups([x] + s, ls, key, val) == SumGroups(s, ls, key, val) + Indicator(x, ls, key, val)
    decreases |ls|
  {
    if |ls| > 0 {
      GroupTotalCons(x, s, ls[0], key, val);
      SumGroupsCons(x, s, ls[1..], key, val);
    }
  }

  /** Grouping conserves the total: when every element's key occurs exactly
      once in `ls`, the group totals add up to the sum of everything. */
  lemma {:induction false} GroupsPartition<T, K>(s: seq<T>, ls: seq<K>, key: T -> K, val: T -> real)
    requires Distinct(ls)
    requires forall i :: 0 <= i < |s| ==> key(s[i]) in ls
    ensures SumGroups(s, ls, key, val) == Total(s, val)
    decreases |s|
  {
    if |s| == 0 {
      SumGroupsEmpty(ls, key, val);
    } else {
      assert s == [s[0]] + s[1..];
      SumGroupsCons(s[0], s[1..], ls, key, val);
      IndicatorOnce(s[0], ls, key, val);
      GroupsPartition(s[1..], ls, key, val);
    }
  }

  lemma {:induction false} SumGroupsEmpty<T, K>(ls: seq<K>, key: T -> K, val: T -> real)
    ensures SumGroups([], ls, key, val) == 0.0
    decreases |ls|
  {
    if |ls| > 0 {
      SumGroupsEmpty(ls[1..], key, val);
    }
  }

  lemma {:induction false} TotalConcat<T>(a: seq<T>, b: seq<T>, val: T -> real)
    ensures Total(a + b, val) == Total(a, val) + Total(b, val)
    decreases |a|
  {
    if |a| == 0 {
      assert a + b == b;
    } else {
      assert (a + b)[1..] == a[1..] + b;
      TotalConcat(a[1..], b, val);
    }
  }

  /** Two sequences whose elements carry the same values pairwise have the
      same total. */
  lemma {:induction false} TotalPointwise<A, B>(a: seq<A>, fa: A -> real, b: seq<B>, fb: B -> real)
    requires |a| == |b|
    requires forall i :: 0 <= i < |a| ==> fa(a[i]) == fb(b[i])
    ensures Total(a, fa) == Total(b, fb)
    decreases |a|
  {
    if |a| > 0 {
      assert forall i :: 0 <= i < |a| - 1 ==> a[1..][i] == a[i + 1] && b[1..][i] == b[i + 1];
      TotalPointwise(a[1..], fa, b[1..], fb);
    }
  }

  /** `Total` is the conditional sum that keeps everything. */
  lemma {:induction false} TotalIsSumIf<T>(s: seq<T>, val: T -> real)
    ensures Total(s, val) == SumIf(s, x => true, val)
    decreases |s|
  {
    if |s| > 0 {
      TotalIsSumIf(s[1..], val);
    }
  }

  /** The total does not depend on the order of the elements. */
  lemma TotalPermutation<T>(s: seq<T>, t: seq<T>, val: T -> real)
    requires multiset(s) == multiset(t)
    ensures Total(s, val) == Total(t, val)
  {
    TotalIsSumIf(s, val);
    TotalIsSumIf(t, val);
    SumIfPermutation(s, t, x => true, val);
  }
}
