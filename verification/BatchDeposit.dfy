/** Batch deposits before any wallet is involved: splitting a selection, and ordering it by urgency. */
module BatchDeposit {
  import opened Arithmetic
  import opened Prelude
  import opened Sorting

  const MAX_TX_PER_BATCH := 15

  datatype Pool = Pool(
    id: string,
    name: string,
    contractAddress: string,
    deadline: Option<real>)

  // ---- Batching ----

  function ChunksOf<T>(items: seq<T>, size: nat): seq<seq<T>>
    requires size >= 1
    decreases |items|
  {
    if items == [] then []
    else if |items| <= size then [items]
    else [items[..size]] + ChunksOf(items[size..], size)
  }

  datatype ChunkError = SizeBelowOne

  method Chunk<T>(items: seq<T>, size: int) returns (r: Result<seq<seq<T>>, ChunkError>)
    ensures r.Ok? <==> size >= 1
    ensures r.Ok? ==> r.value == ChunksOf(items, size)
  {
    if size < 1 {
      return Err(SizeBelowOne);
    }
    var batches: seq<seq<T>> := [];
    var i := 0;
    while i < |items|
      invariant 0 <= i
      invariant batches + ChunksOf(items[if i < |items| then i else |items|..], size) == ChunksOf(items, size)
    {
      var end := if i + size < |items| then i + size else |items|;
      ghost var rest := items[i..];
      NextChunk(rest, size);
      assert items[i..end] == rest[..end - i] && items[end..] == rest[end - i..];
      assert batches + ([items[i..end]] + ChunksOf(items[end..], size)) ==
        batches + [items[i..end]] + ChunksOf(items[end..], size);
      batches := batches + [items[i..end]];
      i := i + size;
    }
    assert batches + [] == batches;
    return Ok(batches);
  }

  lemma NextChunk<T>(items: seq<T>, size: nat)
    requires size >= 1 && items != []
    ensures var end := if size < |items| then size else |items|;
            ChunksOf(items, size) == [items[..end]] + ChunksOf(items[end..], size)
  {
    if |items| <= size {
      assert items[..|items|] == items;
    }
  }

  lemma {:induction false} FlattenFront<T>(xs: seq<T>, xss: seq<seq<T>>)
    ensures Flatten([xs] + xss) == xs + Flatten(xss)
  {
    if xss == [] {
      assert [xs] + xss == [xs] && [xs][..0] == [];
    } else {
      var init, last := xss[..|xss| - 1], xss[|xss| - 1];
      assert ([xs] + xss)[..|xss|] == [xs] + init;
      FlattenFront(xs, init);
      assert xs + (Flatten(init) + last) == xs + Flatten(init) + last;
    }
  }

  /** Splitting loses, adds and reorders nothing; every batch is full but perhaps the last, and none is empty. */
  lemma {:induction false} ChunksJoinUp<T>(items: seq<T>, size: nat)
    requires size >= 1
    ensures Flatten(ChunksOf(items, size)) == items
    ensures forall i | 0 <= i < |ChunksOf(items, size)| - 1 :: |ChunksOf(items, size)[i]| == size
    ensures ChunksOf(items, size) != [] ==> 0 < |ChunksOf(items, size)[|ChunksOf(items, size)| - 1]| <= size
    ensures |ChunksOf(items, size)| == (|items| + size - 1) / size
    decreases |items|
  {
    var n := |items|;
    if n == 0 {
      Ceil(0, size);
    } else if n <= size {
      FlattenFront(items, []);
      assert [items] + [] == [items];
      Ceil(n, size);
    } else {
      var rest := items[size..];
      ChunksJoinUp(rest, size);
      FlattenFront(items[..size], ChunksOf(rest, size));
      assert items == items[..size] + rest;
      CeilStep(n, size);
    }
  }

  lemma Ceil(n: nat, size: nat)
    requires size >= 1 && n <= size
    ensures (n + size - 1) / size == if n == 0 then 0 else 1
  {
    if n > 0 {
      assert n + size - 1 == size + (n - 1);
      assert (size + (n - 1)) / size == 1;
    }
  }

  lemma CeilStep(n: nat, size: nat)
    requires size >= 1 && n > size
    ensures (n + size - 1) / size == 1 + (n - size + size - 1) / size
  {
    var m := n - 1;
    var q, r := m / size, m % size;
    assert m == q * size + r;
    Distribute(q, 1, size);
    DivMod(q + 1, size, r);
    assert n + size - 1 == (q + 1) * size + r;
  }

  // ---- Urgency ----

  datatype UrgencyLevel = Overdue | Urgent | Soon | Normal | Unknown

  const DAY_MS := 86_400_000.0

  function DepositUrgency(deadline: Option<real>, now: real): UrgencyLevel {
    if deadline.None? || deadline.value <= 0.0 then Unknown
    else
      var remaining := deadline.value - now;
      if remaining <= 0.0 then Overdue
      else if remaining < DAY_MS then Urgent
      else if remaining < 3.0 * DAY_MS then Soon
      else Normal
  }

  function Rank(level: UrgencyLevel): nat {
    match level
    case Overdue => 0
    case Urgent => 1
    case Soon => 2
    case Normal => 3
    case Unknown => 4
  }

  /** Deadlines compared as the source does, a missing one as positive infinity. */
  predicate Sooner(a: Option<real>, b: Option<real>) {
    a.Some? && (b.None? || a.value < b.value)
  }

  /** The comparator, answering `<= 0`; `collate` stands for `localeCompare`. */
  predicate UrgencyBefore(a: Pool, b: Pool, now: real, collate: (string, string) -> bool) {
    var ra, rb := Rank(DepositUrgency(a.deadline, now)), Rank(DepositUrgency(b.deadline, now));
    if ra != rb then ra < rb
    else if a.deadline != b.deadline then Sooner(a.deadline, b.deadline)
    else collate(a.name, b.name)
  }

  function ByUrgency(now: real, collate: (string, string) -> bool): (Pool, Pool) -> bool {
    (a: Pool, b: Pool) => UrgencyBefore(a, b, now, collate)
  }

  function SortByUrgency(pools: seq<Pool>, now: real, collate: (string, string) -> bool): seq<Pool> {
    Sort(pools, ByUrgency(now, collate))
  }

  predicate HasDeadline(p: Pool) { p.deadline.Some? && p.deadline.value > 0.0 }

  /** The order without the bands: pools with a deadline first, then sooner deadlines, then names. */
  predicate DeadlineBefore(a: Pool, b: Pool, collate: (string, string) -> bool) {
    if HasDeadline(a) != HasDeadline(b) then HasDeadline(a)
    else if a.deadline != b.deadline then
      a.deadline.Some? && (b.deadline.None? || a.deadline.value < b.deadline.value)
    else collate(a.name, b.name)
  }

  function ByDeadline(collate: (string, string) -> bool): (Pool, Pool) -> bool {
    (a: Pool, b: Pool) => DeadlineBefore(a, b, collate)
  }

  /** The bands follow the deadlines, so they decide nothing the deadlines do not. */
  lemma BandsAreMonotone(a: Option<real>, b: Option<real>, now: real)
    ensures var ra, rb := Rank(DepositUrgency(a, now)), Rank(DepositUrgency(b, now));
            && (DepositUrgency(a, now) == Unknown <==> a == None || a.value <= 0.0)
            && (DepositUrgency(a, now) != Unknown && DepositUrgency(b, now) != Unknown && a.value <= b.value ==>
                 ra <= rb)
            && (DepositUrgency(a, now) != Unknown && DepositUrgency(b, now) == Unknown ==> ra < rb)
  {
  }

  /** The bands: overdue at the deadline, urgent within a day of it, soon within three, unknown without one. */
  lemma UrgencyMeans(deadline: Option<real>, now: real)
    ensures var level := DepositUrgency(deadline, now);
            && (level == Unknown <==> deadline == None || deadline.value <= 0.0)
            && (level != Unknown ==>
                  var left := deadline.value - now;
                  && (level == Overdue <==> left <= 0.0)
                  && (level == Urgent <==> 0.0 < left < 86_400_000.0)
                  && (level == Soon <==> 86_400_000.0 <= left < 259_200_000.0)
                  && (level == Normal <==> 259_200_000.0 <= left))
  {
  }

  lemma OrdersAgree(now: real, collate: (string, string) -> bool, a: Pool, b: Pool)
    ensures UrgencyBefore(a, b, now, collate) == DeadlineBefore(a, b, collate)
  {
    hide DepositUrgency, Rank;
    BandsAreMonotone(a.deadline, b.deadline, now);
    BandsAreMonotone(b.deadline, a.deadline, now);
    if HasDeadline(a) && HasDeadline(b) && a.deadline != b.deadline {
      assert a.deadline == Some(a.deadline.value) && b.deadline == Some(b.deadline.value);
      assert a.deadline.value < b.deadline.value || b.deadline.value < a.deadline.value;
    }
  }

  lemma UnlikeDeadlines(a: Option<real>, b: Option<real>)
    requires a != b
    ensures Sooner(a, b) != Sooner(b, a)
  {
    if a.Some? && b.Some? {
      assert a == Some(a.value) && b == Some(b.value);
    }
  }

  lemma DeadlineOrderIsTotal(collate: (string, string) -> bool)
    requires TotalPreorder(collate)
    ensures TotalPreorder(ByDeadline(collate))
  {
    var le := ByDeadline(collate);
    forall a: Pool, b: Pool ensures le(a, b) || le(b, a) {
      if a.deadline != b.deadline {
        UnlikeDeadlines(a.deadline, b.deadline);
      }
      assert collate(a.name, b.name) || collate(b.name, a.name);
    }
    forall a: Pool, b: Pool, c: Pool | le(a, b) && le(b, c) ensures le(a, c) {
      DeadlineOrderChains(a, b, c, collate);
    }
  }

  lemma DeadlineOrderChains(a: Pool, b: Pool, c: Pool, collate: (string, string) -> bool)
    requires TotalPreorder(collate) && DeadlineBefore(a, b, collate) && DeadlineBefore(b, c, collate)
    ensures DeadlineBefore(a, c, collate)
  {
    if a.deadline == b.deadline == c.deadline {
      assert collate(a.name, b.name) && collate(b.name, c.name);
    } else if a.deadline == c.deadline {
      UnlikeDeadlines(a.deadline, b.deadline);
    }
  }

  /**
   * Sorting by urgency returns the same pools, in plain deadline order with unknown deadlines last, ties by
   * name and then as they came; the comparison is total and transitive, and the time of day changes nothing.
   */
  lemma UrgencyIsDeadlineOrder(pools: seq<Pool>, now: real, collate: (string, string) -> bool)
    requires TotalPreorder(collate)
    ensures TotalPreorder(ByUrgency(now, collate))
    ensures var sorted := SortByUrgency(pools, now, collate);
            && multiset(sorted) == multiset(pools)
            && SortedBy(sorted, ByDeadline(collate))
            && (forall later: real :: SortByUrgency(pools, later, collate) == sorted)
            && (forall p: Pool :: Filter(sorted, Ties(p, ByDeadline(collate))) ==
                 Filter(pools, Ties(p, ByDeadline(collate))))
  {
    hide Sort, Ties, SortedBy, Filter, UrgencyBefore, DeadlineBefore;
    var le := ByDeadline(collate);
    DeadlineOrderIsTotal(collate);
    forall t: real, a: Pool, b: Pool ensures ByUrgency(t, collate)(a, b) == le(a, b) {
      OrdersAgree(t, collate, a, b);
    }
    forall t: real ensures SortByUrgency(pools, t, collate) == Sort(pools, le) {
      SortExtensional(pools, ByUrgency(t, collate), le);
    }
    SortPermutes(pools, le);
    SortSorts(pools, le);
    forall p: Pool ensures Filter(Sort(pools, le), Ties(p, le)) == Filter(pools, Ties(p, le)) {
      SortIsStable(pools, le, p);
    }
    SamePreorder(ByUrgency(now, collate), le);
  }

  lemma SamePreorder(le: (Pool, Pool) -> bool, le': (Pool, Pool) -> bool)
    requires TotalPreorder(le') && forall a: Pool, b: Pool :: le(a, b) == le'(a, b)
    ensures TotalPreorder(le)
  {
  }
}
