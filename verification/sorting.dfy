/** Stable sorting by a total preorder, as pandas' multi-column
    `sort_values` does, with the facts the identity scheme and the balance
    materializer rely on. */
module Sorting {
  import Sums

  /** `le` is total and transitive: a "sort key" comparison. */
  ghost predicate TotalPreorder<T(!new)>(le: (T, T) -> bool) {
    && (forall a, b :: le(a, b) || le(b, a))
    && (forall a, b, c :: le(a, b) && le(b, c) ==> le(a, c))
  }

  predicate Sorted<T>(s: seq<T>, le: (T, T) -> bool) {
    forall i, j :: 0 <= i < j < |s| ==> le(s[i], s[j])
  }

  /** Inserts `x` after every leading element that sorts at or before it,
      so equal keys keep their arrival order. */
  function Insert<T>(x: T, s: seq<T>, le: (T, T) -> bool): (r: seq<T>)
    ensures |r| == |s| + 1
    ensures multiset(r) == multiset(s) + multiset{x}
    decreases |s|
  {
    if |s| == 0 then [x]
    else if le(s[0], x) then
      assert s == [s[0]] + s[1..];
      [s[0]] + Insert(x, s[1..], le)
    else [x] + s
  }

  lemma {:induction false} InsertSorted<T(!new)>(x: T, s: seq<T>, le: (T, T) -> bool)
    requires TotalPreorder(le)
    requires Sorted(s, le)
    ensures Sorted(Insert(x, s, le), le)
    decreases |s|
  {
    if |s| > 0 && le(s[0], x) {
      InsertSorted(x, s[1..], le);
      var r := Insert(x, s, le);
      assert r == [s[0]] + Insert(x, s[1..], le);
      forall j | 0 < j < |r|
        ensures le(r[0], r[j])
      {
        var y := r[j];
        assert y in multiset(Insert(x, s[1..], le));
        assert y in multiset(s[1..]) || y == x;
        if y != x {
          var k :| 0 <= k < |s[1..]| && s[1..][k] == y;
          assert le(s[0], s[k + 1]);
        }
      }
    }
  }

  /** Insertion sort, taking the input in order (hence stable). */
  function SortBy<T>(s: seq<T>, le: (T, T) -> bool): (r: seq<T>)
    ensures |r| == |s|
    ensures multiset(r) == multiset(s)
    decreases |s|
  {
    if |s| == 0 then []
    else
      assert s == s[..|s| - 1] + [s[|s| - 1]];
      Insert(s[|s| - 1], SortBy(s[..|s| - 1], le), le)
  }

  lemma {:induction false} SortBySorted<T(!new)>(s: seq<T>, le: (T, T) -> bool)
    requires TotalPreorder(le)
    ensures Sorted(SortBy(s, le), le)
    decreases |s|
  {
    if |s| > 0 {
      SortBySorted(s[..|s| - 1], le);
      InsertSorted(s[|s| - 1], SortBy(s[..|s| - 1], le), le);
    }
  }

  /** `f` applied to every element, in order. */
  function Project<T, U>(s: seq<T>, f: T -> U): (r: seq<U>)
    ensures |r| == |s|
    ensures forall i :: 0 <= i < |s| ==> r[i] == f(s[i])
  {
    seq(|s|, i requires 0 <= i < |s| => f(s[i]))
  }

  /** A permutation has the same image under `f`: every row's image occurs
      in the permuted projection, and every entry of it is some row's image. */
  lemma PermutedImage<T, U>(rows: seq<T>, s: seq<T>, f: T -> U)
    requires multiset(s) == multiset(rows)
    ensures forall i :: 0 <= i < |rows| ==> f(rows[i]) in Project(s, f)
    ensures forall j :: 0 <= j < |s| ==> exists i :: 0 <= i < |rows| && f(rows[i]) == Project(s, f)[j]
  {
    var all := Project(s, f);
    forall i | 0 <= i < |rows|
      ensures f(rows[i]) in all
    {
      assert rows[i] in multiset(s);
      var k :| 0 <= k < |s| && s[k] == rows[i];
      assert all[k] == f(rows[i]);
    }
    forall j | 0 <= j < |s|
      ensures exists i :: 0 <= i < |rows| && f(rows[i]) == all[j]
    {
      assert s[j] in multiset(rows);
      var i :| 0 <= i < |rows| && rows[i] == s[j];
      assert f(rows[i]) == all[j];
    }
  }

  /** Deleting one element keeps a sequence sorted. */
  lemma SortedRemove<T>(t: seq<T>, k: int, le: (T, T) -> bool)
    requires Sorted(t, le) && 0 <= k < |t|
    ensures Sorted(t[..k] + t[k + 1..], le)
  {
    var rest := t[..k] + t[k + 1..];
    forall i, j | 0 <= i < j < |rest|
      ensures le(rest[i], rest[j])
    {
      var i' := if i < k then i else i + 1;
      var j' := if j < k then j else j + 1;
      assert rest[i] == t[i'] && rest[j] == t[j'];
    }
  }

  /** In a sorted arrangement of `s`, every element placed before an
      occurrence of `s[0]` (itself the least of a sorted `s`) is tied with it. */
  lemma TiedBefore<T(!new)>(s: seq<T>, t: seq<T>, k: int, le: (T, T) -> bool)
    requires TotalPreorder(le)
    requires Sorted(s, le) && Sorted(t, le)
    requires multiset(s) == multiset(t)
    requires |s| > 0 && 0 <= k < |t| && t[k] == s[0]
    ensures forall j :: 0 <= j < k ==> t[j] in s && le(t[j], s[0]) && le(s[0], t[j])
  {
    forall j | 0 <= j < k
      ensures t[j] in s && le(t[j], s[0]) && le(s[0], t[j])
    {
      assert t[j] in multiset(t);
      assert t[j] in multiset(s);
      var m :| 0 <= m < |s| && s[m] == t[j];
      if m > 0 {
        assert le(s[0], s[m]);
      }
    }
  }

  /** Two sorted arrangements of the same elements agree on every feature `f`
      that equal keys share: however ties were broken, the projected
      sequences coincide. */
  lemma {:induction false} SortedArrangementsAgree<T(!new), U>(s: seq<T>, t: seq<T>, le: (T, T) -> bool, f: T -> U)
    requires TotalPreorder(le)
    requires Sorted(s, le) && Sorted(t, le)
    requires multiset(s) == multiset(t)
    requires forall x, y :: x in s && y in s && le(x, y) && le(y, x) ==> f(x) == f(y)
    ensures Project(s, f) == Project(t, f)
    decreases |s|
  {
    if |s| == 0 {
      assert |t| == |multiset(t)| == 0;
    } else {
      var x := s[0];
      assert x in multiset(t);
      var k :| 0 <= k < |t| && t[k] == x;
      var rest := t[..k] + t[k + 1..];
      Sums.RemoveHead(s, t, k);
      SortedRemove(t, k, le);
      TiedBefore(s, t, k, le);
      assert forall y :: y in s[1..] ==> y in s;
      SortedArrangementsAgree(s[1..], rest, le, f);
      ProjectSplice(s, t, k, f);
    }
  }

  /** The last step of the argument above: splicing the head back in. */
  lemma ProjectSplice<T, U>(s: seq<T>, t: seq<T>, k: int, f: T -> U)
    requires |s| > 0 && 0 <= k < |t| == |s| && t[k] == s[0]
    requires forall j :: 0 <= j < k ==> f(t[j]) == f(s[0])
    requires Project(s[1..], f) == Project(t[..k] + t[k + 1..], f)
    ensures Project(s, f) == Project(t, f)
  {
    var rest := t[..k] + t[k + 1..];
    var ps := Project(s, f);
    var pt := Project(t, f);
    forall i | 0 <= i < |t|
      ensures pt[i] == ps[i]
    {
      if i == 0 {
        assert pt[0] == f(s[0]);
      } else if i <= k {
        assert ps[i] == Project(rest, f)[i - 1] == f(rest[i - 1]);
        assert rest[i - 1] == t[i - 1];
      } else {
        assert ps[i] == Project(rest, f)[i - 1] == f(rest[i - 1]);
        assert rest[i - 1] == t[i];
      }
    }
  }

  lemma ProjectConcat<T, U>(a: seq<T>, b: seq<T>, f: T -> U)
    ensures Project(a + b, f) == Project(a, f) + Project(b, f)
  {
  }

  lemma ProjectInsert<T, U>(a: seq<T>, x: T, b: seq<T>, f: T -> U)
    ensures multiset(Project(a + [x] + b, f)) == multiset(Project(a + b, f)) + multiset{f(x)}
  {
    ProjectConcat(a + [x], b, f);
    ProjectConcat(a, [x], f);
    ProjectConcat(a, b, f);
    assert Project([x], f) == [f(x)];
  }

  /** Rearranging a sequence rearranges its projection the same way. */
  lemma {:induction false} ProjectMultiset<T, U>(s: seq<T>, t: seq<T>, f: T -> U)
    requires multiset(s) == multiset(t)
    ensures multiset(Project(s, f)) == multiset(Project(t, f))
    decreases |s|
  {
    if |s| == 0 {
      assert |t| == |multiset(t)| == 0;
    } else {
      var x := s[0];
      assert x in multiset(t);
      var k :| 0 <= k < |t| && t[k] == x;
      var a, b := t[..k], t[k + 1..];
      Sums.RemoveHead(s, t, k);
      ProjectMultiset(s[1..], a + b, f);
      var m := multiset(Project(a + b, f));
      calc {
        multiset(Project(s, f));
        { assert s == [] + [x] + s[1..]; }
        multiset(Project([] + [x] + s[1..], f));
        { ProjectInsert([], x, s[1..], f); assert [] + s[1..] == s[1..]; }
        m + multiset{f(x)};
        { ProjectInsert(a, x, b, f); assert t == a + [x] + b; }
        multiset(Project(t, f));
      }
    }
  }
}
