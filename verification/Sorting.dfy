/**
 * The stable comparison sort that `Array.prototype.sort` promises. `le(a, b)` stands for a
 * comparator answering `<= 0`.
 */
module Sorting {
  import opened Prelude

  ghost predicate TotalPreorder<T(!new)>(le: (T, T) -> bool) {
    && (forall a, b :: le(a, b) || le(b, a))
    && (forall a, b, c :: le(a, b) && le(b, c) ==> le(a, c))
  }

  ghost predicate SortedBy<T>(xs: seq<T>, le: (T, T) -> bool) {
    forall i, j | 0 <= i < j < |xs| :: le(xs[i], xs[j])
  }

  /** Puts `x` after every trailing element it does not precede. */
  function InsertAfter<T>(ys: seq<T>, x: T, le: (T, T) -> bool): (r: seq<T>)
    ensures |r| == |ys| + 1
  {
    if ys == [] then [x]
    else
      var last := ys[|ys| - 1];
      if le(last, x) then ys + [x]
      else InsertAfter(ys[..|ys| - 1], x, le) + [last]
  }

  function Sort<T>(xs: seq<T>, le: (T, T) -> bool): (r: seq<T>)
    ensures |r| == |xs|
  {
    if xs == [] then []
    else InsertAfter(Sort(xs[..|xs| - 1], le), xs[|xs| - 1], le)
  }

  lemma {:induction false} InsertAfterPermutes<T>(ys: seq<T>, x: T, le: (T, T) -> bool)
    ensures multiset(InsertAfter(ys, x, le)) == multiset(ys) + multiset{x}
  {
    if ys != [] {
      assert ys == ys[..|ys| - 1] + [ys[|ys| - 1]];
      InsertAfterPermutes(ys[..|ys| - 1], x, le);
    }
  }

  lemma {:induction false} SortPermutes<T>(xs: seq<T>, le: (T, T) -> bool)
    ensures multiset(Sort(xs, le)) == multiset(xs)
  {
    if xs != [] {
      assert xs == xs[..|xs| - 1] + [xs[|xs| - 1]];
      SortPermutes(xs[..|xs| - 1], le);
      InsertAfterPermutes(Sort(xs[..|xs| - 1], le), xs[|xs| - 1], le);
    }
  }

  /** The same elements, by membership. */
  lemma SortMembers<T>(xs: seq<T>, le: (T, T) -> bool)
    ensures forall e <- Sort(xs, le) :: e in xs
    ensures forall e <- xs :: e in Sort(xs, le)
  {
    SortPermutes(xs, le);
    forall e | e in Sort(xs, le) ensures e in xs {
      assert e in multiset(Sort(xs, le));
    }
    forall e | e in xs ensures e in Sort(xs, le) {
      assert e in multiset(xs);
    }
  }

  lemma InsertAfterMembers<T>(ys: seq<T>, x: T, le: (T, T) -> bool)
    ensures forall e <- InsertAfter(ys, x, le) :: e in ys || e == x
    ensures forall e <- ys + [x] :: e in InsertAfter(ys, x, le)
  {
    InsertAfterPermutes(ys, x, le);
    forall e | e in InsertAfter(ys, x, le) ensures e in ys || e == x {
      assert e in multiset(InsertAfter(ys, x, le));
    }
    forall e | e in ys + [x] ensures e in InsertAfter(ys, x, le) {
      assert e in multiset(ys) + multiset{x};
    }
  }

  lemma {:induction false} InsertAfterSorted<T(!new)>(ys: seq<T>, x: T, le: (T, T) -> bool)
    requires TotalPreorder(le) && SortedBy(ys, le)
    ensures SortedBy(InsertAfter(ys, x, le), le)
  {
    if ys != [] && !le(ys[|ys| - 1], x) {
      var init, last := ys[..|ys| - 1], ys[|ys| - 1];
      InsertAfterSorted(init, x, le);
      InsertAfterMembers(init, x, le);
      forall e | e in InsertAfter(init, x, le)
        ensures le(e, last)
      {
        if e in init {
          var i :| 0 <= i < |init| && init[i] == e;
          assert ys[i] == e;
        }
      }
    } else if ys != [] {
      forall i | 0 <= i < |ys| ensures le(ys[i], x) {
        assert i == |ys| - 1 || le(ys[i], ys[|ys| - 1]);
      }
    }
  }

  lemma {:induction false} SortSorts<T(!new)>(xs: seq<T>, le: (T, T) -> bool)
    requires TotalPreorder(le)
    ensures SortedBy(Sort(xs, le), le)
  {
    if xs != [] {
      SortSorts(xs[..|xs| - 1], le);
      InsertAfterSorted(Sort(xs[..|xs| - 1], le), xs[|xs| - 1], le);
    }
  }

  /** A list already in order is left as it is. */
  lemma {:induction false} SortOfSorted<T>(xs: seq<T>, le: (T, T) -> bool)
    requires SortedBy(xs, le)
    ensures Sort(xs, le) == xs
  {
    if xs != [] {
      var init, last := xs[..|xs| - 1], xs[|xs| - 1];
      assert xs == init + [last];
      SortOfSorted(init, le);
      if init != [] {
        assert le(xs[|xs| - 2], xs[|xs| - 1]);
      }
    }
  }

  /** Appending to an ordered list and sorting is one insertion. */
  lemma SortOfSortedAppend<T>(xs: seq<T>, x: T, le: (T, T) -> bool)
    requires SortedBy(xs, le)
    ensures Sort(xs + [x], le) == InsertAfter(xs, x, le)
  {
    SortOfSorted(xs, le);
    assert (xs + [x])[..|xs|] == xs;
  }

  /** `le`-equivalence with a fixed element, as a filter. */
  function Ties<T>(k: T, le: (T, T) -> bool): T -> bool {
    x => le(x, k) && le(k, x)
  }

  lemma TiesAreComparable<T(!new)>(a: T, b: T, le: (T, T) -> bool, k: T)
    requires TotalPreorder(le) && Ties(k, le)(a) && Ties(k, le)(b)
    ensures le(a, b)
  {
    assert le(a, k) && le(k, b);
  }

  lemma {:induction false} InsertAfterStable<T(!new)>(ys: seq<T>, x: T, le: (T, T) -> bool, k: T)
    requires TotalPreorder(le)
    ensures Filter(InsertAfter(ys, x, le), Ties(k, le)) == Filter(ys + [x], Ties(k, le))
  {
    var t := Ties(k, le);
    if ys == [] {
      assert ys + [x] == [x];
    } else if !le(ys[|ys| - 1], x) {
      var init, last := ys[..|ys| - 1], ys[|ys| - 1];
      InsertAfterStable(init, x, le, k);
      FilterPush(InsertAfter(init, x, le), last, t);
      FilterPush(init, x, t);
      FilterPush(ys, x, t);
      if t(last) && t(x) { TiesAreComparable(last, x, le, k); }
    }
  }

  /** Equal elements keep their original order. */
  lemma {:induction false} SortIsStable<T(!new)>(xs: seq<T>, le: (T, T) -> bool, k: T)
    requires TotalPreorder(le)
    ensures Filter(Sort(xs, le), Ties(k, le)) == Filter(xs, Ties(k, le))
  {
    if xs != [] {
      var init, last, t := xs[..|xs| - 1], xs[|xs| - 1], Ties(k, le);
      SortIsStable(init, le, k);
      InsertAfterStable(Sort(init, le), last, le, k);
      FilterPush(Sort(init, le), last, t);
      FilterPush(init, last, t);
      assert init + [last] == xs;
    }
  }

  /** Two comparators that agree sort alike. */
  lemma {:induction false} SortExtensional<T>(xs: seq<T>, le: (T, T) -> bool, le': (T, T) -> bool)
    requires forall a, b | a in xs && b in xs :: le(a, b) <==> le'(a, b)
    ensures Sort(xs, le) == Sort(xs, le')
  {
    if xs != [] {
      SortMembers(xs[..|xs| - 1], le);
      SortExtensional(xs[..|xs| - 1], le, le');
      InsertExtensional(Sort(xs[..|xs| - 1], le), xs[|xs| - 1], le, le');
    }
  }

  lemma {:induction false} InsertExtensional<T>(ys: seq<T>, x: T, le: (T, T) -> bool, le': (T, T) -> bool)
    requires forall a | a in ys :: le(a, x) <==> le'(a, x)
    ensures InsertAfter(ys, x, le) == InsertAfter(ys, x, le')
  {
    if ys != [] {
      InsertExtensional(ys[..|ys| - 1], x, le, le');
    }
  }

  lemma SortedPush<T>(xs: seq<T>, x: T, le: (T, T) -> bool)
    requires SortedBy(xs, le) && forall e <- xs :: le(e, x)
    ensures SortedBy(xs + [x], le)
  {
  }

  /** In an ordered list nothing precedes its last element's predecessors. */
  lemma BeforeLast<T>(xs: seq<T>, x: T, le: (T, T) -> bool)
    requires SortedBy(xs + [x], le)
    ensures SortedBy(xs, le) && forall e <- xs :: le(e, x)
  {
    var all := xs + [x];
    forall i | 0 <= i < |xs| ensures le(xs[i], x) {
      assert le(all[i], all[|xs|]);
    }
    forall i, j | 0 <= i < j < |xs| ensures le(xs[i], xs[j]) {
      assert le(all[i], all[j]);
    }
  }

  lemma {:induction false} FilterKeepsSorted<T>(xs: seq<T>, keep: T -> bool, le: (T, T) -> bool)
    requires SortedBy(xs, le)
    ensures SortedBy(Filter(xs, keep), le)
  {
    if xs != [] {
      var init, last := xs[..|xs| - 1], xs[|xs| - 1];
      assert xs == init + [last];
      BeforeLast(init, last, le);
      FilterKeepsSorted(init, keep, le);
      SortedPush(Filter(init, keep), last, le);
    }
  }

  /** An element that does not precede the one before `zs` is inserted among `zs`. */
  lemma {:induction false} InsertBehind<T>(ys: seq<T>, zs: seq<T>, x: T, le: (T, T) -> bool)
    requires ys != [] && le(ys[|ys| - 1], x)
    ensures InsertAfter(ys + zs, x, le) == ys + InsertAfter(zs, x, le)
  {
    if zs == [] {
      assert ys + zs == ys;
    } else {
      var init, last := zs[..|zs| - 1], zs[|zs| - 1];
      assert (ys + zs)[..|ys + zs| - 1] == ys + init;
      InsertBehind(ys, init, x, le);
    }
  }

  /** An element that precedes all of `zs` is inserted ahead of them. */
  lemma {:induction false} InsertAhead<T>(ys: seq<T>, zs: seq<T>, x: T, le: (T, T) -> bool)
    requires forall z <- zs :: !le(z, x)
    ensures InsertAfter(ys + zs, x, le) == InsertAfter(ys, x, le) + zs
  {
    if zs == [] {
      assert ys + zs == ys;
    } else {
      var init, last := zs[..|zs| - 1], zs[|zs| - 1];
      assert (ys + zs)[..|ys + zs| - 1] == ys + init && last in zs;
      InsertAhead(ys, init, x, le);
    }
  }

  lemma {:induction false} InsertAfterAt<T>(ys: seq<T>, x: T, le: (T, T) -> bool) returns (k: nat)
    ensures k <= |ys| && InsertAfter(ys, x, le) == ys[..k] + [x] + ys[k..]
  {
    if ys == [] || le(ys[|ys| - 1], x) {
      k := |ys|;
    } else {
      k := InsertAfterAt(ys[..|ys| - 1], x, le);
      assert ys[k..] == ys[..|ys| - 1][k..] + [ys[|ys| - 1]];
    }
  }

  lemma InsertedStaysUnique<T, K>(xs: seq<T>, k: nat, x: T, key: T -> K)
    requires k <= |xs| && UniqueBy(xs, key) && forall o <- xs :: key(o) != key(x)
    ensures UniqueBy(xs[..k] + [x] + xs[k..], key)
  {
    var all := xs[..k] + [x] + xs[k..];
    forall i, j | 0 <= i < j < |all| ensures key(all[i]) != key(all[j]) {
      if i != k && j != k {
        var i', j' := if i < k then i else i - 1, if j < k then j else j - 1;
        assert key(xs[i']) != key(xs[j']);
      } else {
        var o := if i == k then j else i;
        assert all[o] in xs;
      }
    }
  }

  lemma {:induction false} SortKeepsUniqueBy<T, K>(xs: seq<T>, le: (T, T) -> bool, key: T -> K)
    requires UniqueBy(xs, key)
    ensures UniqueBy(Sort(xs, le), key)
  {
    if xs != [] {
      var init, last := xs[..|xs| - 1], xs[|xs| - 1];
      var sorted := Sort(init, le);
      var k := InsertAfterAt(sorted, last, le);
      assert Sort(xs, le) == sorted[..k] + [last] + sorted[k..];
      hide Sort, UniqueBy;
      assert xs == init + [last];
      UniquePush(init, last, key);
      SortKeepsUniqueBy(init, le, key);
      SortMembers(init, le);
      InsertedStaysUnique(sorted, k, last, key);
    }
  }
}
