/**
 * A run of deposits, pool by pool, with cancellation between transactions and retries afterwards. The
 * wallet, the network and the user's cancel button are the `World` of a run: what happens at each
 * position of it.
 */
module BatchRun {
  import opened BatchDeposit
  import opened Prelude

  datatype Status = Pending | Signing | Submitted | Confirmed | Failed | Cancelled

  datatype Item = Item(pool: Pool, status: Status, txHash: Option<string>, error: Option<string>)

  predicate IsTerminal(s: Status) { s == Confirmed || s == Failed || s == Cancelled }

  datatype Change =
    | ToCancelled
    | ToSigning
    | ToSubmitted(hash: Option<string>)
    | ToConfirmed(txHash: string)
    | ToFailed(message: string)

  function Changed(item: Item, change: Change): Item {
    match change
    case ToCancelled => item.(status := Cancelled)
    case ToSigning => item.(status := Signing)
    case ToSubmitted(hash) => item.(status := Submitted, txHash := hash)
    case ToConfirmed(hash) => item.(status := Confirmed, txHash := Some(hash), error := None)
    case ToFailed(message) => item.(status := Failed, error := Some(message))
  }

  function SetItemStatus(items: seq<Item>, poolId: string, change: Change): seq<Item> {
    seq(|items|, i requires 0 <= i < |items| => if items[i].pool.id == poolId then Changed(items[i], change)
        else items[i])
  }

  /** What the submission reports while it is under way. */
  datatype Phase = SigningPhase | SubmittedPhase(hash: Option<string>) | OtherPhase

  datatype Outcome = Succeeds(txHash: string) | Throws(message: string)

  /** Whether cancel was pressed since the position before, and what submitting would lead to. */
  datatype Attempt = Attempt(cancelPressed: bool, phases: seq<Phase>, outcome: Outcome)

  type World = nat -> Attempt

  function AfterPhase(items: seq<Item>, poolId: string, phase: Phase): seq<Item> {
    match phase
    case SigningPhase => SetItemStatus(items, poolId, ToSigning)
    case SubmittedPhase(hash) => SetItemStatus(items, poolId, ToSubmitted(hash))
    case OtherPhase => items
  }

  function AfterPhases(items: seq<Item>, poolId: string, phases: seq<Phase>): seq<Item> {
    if phases == [] then items
    else AfterPhase(AfterPhases(items, poolId, phases[..|phases| - 1]), poolId, phases[|phases| - 1])
  }

  datatype BatchResult = BatchResult(confirmed: seq<string>, failed: seq<string>, cancelled: seq<string>)

  /** A run under way; `submitted` lists the pools handed to the wallet so far. */
  datatype Run = Run(items: seq<Item>, cancelled: bool, result: BatchResult, submitted: seq<string>)

  function Attempted(r: Run, pool: Pool, a: Attempt): Run {
    var id := pool.id;
    if r.cancelled || a.cancelPressed then
      Run(SetItemStatus(r.items, id, ToCancelled), true, r.result.(cancelled := r.result.cancelled + [id]), r.submitted)
    else
      var items := AfterPhases(r.items, id, a.phases);
      match a.outcome
      case Succeeds(hash) =>
        Run(SetItemStatus(items, id, ToConfirmed(hash)), false, r.result.(confirmed := r.result.confirmed + [id]),
            r.submitted + [id])
      case Throws(message) =>
        Run(SetItemStatus(items, id, ToFailed(message)), false, r.result.(failed := r.result.failed + [id]),
            r.submitted + [id])
  }

  function RunOf(start: seq<Item>, ordered: seq<Pool>, world: World): Run {
    if ordered == [] then Run(start, false, BatchResult([], [], []), [])
    else
      var n := |ordered| - 1;
      Attempted(RunOf(start, ordered[..n], world), ordered[n], world(n))
  }

  function PendingItem(pool: Pool): Item { Item(pool, Pending, None, None) }

  function StartItems(retain: seq<Item>, ordered: seq<Pool>): seq<Item> {
    retain + seq(|ordered|, i requires 0 <= i < |ordered| => PendingItem(ordered[i]))
  }

  function IsRetryable(): Item -> bool { (i: Item) => i.status == Failed || i.status == Cancelled }

  function Is(s: Status): Item -> bool { (i: Item) => i.status == s }

  function PoolsOf(items: seq<Item>): seq<Pool> {
    seq(|items|, i requires 0 <= i < |items| => items[i].pool)
  }

  function RetryRun(items: seq<Item>, world: World): Run {
    var ordered := PoolsOf(Filter(items, IsRetryable()));
    RunOf(StartItems(Filter(items, Is(Confirmed)), ordered), ordered, world)
  }

  class BatchSession {
    var items: seq<Item>
    var isSubmitting: bool
    var cancelledRef: bool

    constructor ()
      ensures items == [] && !isSubmitting && !cancelledRef
    {
      items, isSubmitting, cancelledRef := [], false, false;
    }

    /** `submitTx` for one pool: its phases, then its end. */
    method SubmitTx(poolId: string, a: Attempt) returns (outcome: Outcome)
      modifies this`items
      ensures outcome == a.outcome
      ensures items == AfterPhases(old(items), poolId, a.phases)
    {
      assert a.phases[..|a.phases|] == a.phases;
      for i := 0 to |a.phases|
        invariant items == AfterPhases(old(items), poolId, a.phases[..i])
      {
        assert a.phases[..i + 1][..i] == a.phases[..i];
        if a.phases[i].SigningPhase? {
          items := SetItemStatus(items, poolId, ToSigning);
        } else if a.phases[i].SubmittedPhase? {
          items := SetItemStatus(items, poolId, ToSubmitted(a.phases[i].hash));
        }
      }
      return a.outcome;
    }

    method SubmitBatchDeposit(batches: seq<seq<Pool>>, retain: seq<Item>, world: World) returns (result: BatchResult)
      modifies this
      ensures var ordered := Flatten(batches);
              var end := RunOf(StartItems(retain, ordered), ordered, world);
              items == end.items && result == end.result
      ensures !isSubmitting && !cancelledRef
    {
      hide SetItemStatus, AfterPhases, Flatten;
      var ordered := Flatten(batches);
      cancelledRef := false;
      items := StartItems(retain, ordered);
      isSubmitting := true;
      ghost var start := items;
      result := BatchResult([], [], []);
      for i := 0 to |ordered|
        invariant items == RunOf(start, ordered[..i], world).items
        invariant result == RunOf(start, ordered[..i], world).result
        invariant cancelledRef == RunOf(start, ordered[..i], world).cancelled
      {
        var pool := ordered[i];
        assert ordered[..i + 1][..i] == ordered[..i];
        if world(i).cancelPressed {
          Cancel();
        }
        if cancelledRef {
          items := SetItemStatus(items, pool.id, ToCancelled);
          result := result.(cancelled := result.cancelled + [pool.id]);
        } else {
          var outcome := SubmitTx(pool.id, world(i));
          if outcome.Succeeds? {
            items := SetItemStatus(items, pool.id, ToConfirmed(outcome.txHash));
            result := result.(confirmed := result.confirmed + [pool.id]);
          } else {
            items := SetItemStatus(items, pool.id, ToFailed(outcome.message));
            result := result.(failed := result.failed + [pool.id]);
          }
        }
      }
      assert ordered[..|ordered|] == ordered;
      isSubmitting := false;
      cancelledRef := false;
    }

    method RetryFailed(world: World) returns (result: Option<BatchResult>)
      modifies this
      ensures result == None <==> Filter(old(items), IsRetryable()) == []
      ensures result == None ==> items == old(items)
      ensures result.Some? ==>
                items == RetryRun(old(items), world).items && result.value == RetryRun(old(items), world).result
    {
      hide Filter, RunOf, ChunksOf;
      var retryable := Filter(items, IsRetryable());
      if retryable == [] {
        return None;
      }
      var succeeded := Filter(items, Is(Confirmed));
      var pools := PoolsOf(retryable);
      var batches := Chunk(pools, MAX_TX_PER_BATCH);
      ChunksJoinUp(pools, MAX_TX_PER_BATCH);
      var r := SubmitBatchDeposit(batches.value, succeeded, world);
      return Some(r);
    }

    method Cancel()
      modifies this`cancelledRef
      ensures cancelledRef
    {
      cancelledRef := true;
    }
  }

  // ---- Where a run stops ----

  /** The position of the first press of cancel among the first `n`, or `n`. */
  function Cut(world: World, n: nat): (c: nat)
    ensures c <= n
    ensures forall i | 0 <= i < c :: !world(i).cancelPressed
    ensures c < n ==> world(c).cancelPressed
  {
    if n == 0 then 0
    else
      var c := Cut(world, n - 1);
      if c < n - 1 || world(n - 1).cancelPressed then c else n
  }

  function Ids(pools: seq<Pool>): seq<string> {
    seq(|pools|, i requires 0 <= i < |pools| => pools[i].id)
  }

  /** What a position comes to: cancelled from the cut on, else what its transaction came to. */
  function Settled(pool: Pool, world: World, i: nat): Item {
    if Cut(world, i + 1) <= i then Item(pool, Cancelled, None, None)
    else
      match world(i).outcome
      case Succeeds(hash) => Item(pool, Confirmed, Some(hash), None)
      case Throws(message) => Item(pool, Failed, LastHash(world(i).phases), Some(message))
  }

  /** The hash a failed item keeps: that of the last submitted phase. */
  function LastHash(phases: seq<Phase>): Option<string> {
    if phases == [] then None
    else if phases[|phases| - 1].SubmittedPhase? then phases[|phases| - 1].hash
    else LastHash(phases[..|phases| - 1])
  }

  /** The status the phases leave: that of the last one that has one. */
  function LastStatus(before: Status, phases: seq<Phase>): Status {
    if phases == [] then before
    else
      match phases[|phases| - 1]
      case SigningPhase => Signing
      case SubmittedPhase(_) => Submitted
      case OtherPhase => LastStatus(before, phases[..|phases| - 1])
  }

  function SettledItems(ordered: seq<Pool>, world: World): seq<Item> {
    seq(|ordered|, i requires 0 <= i < |ordered| => Settled(ordered[i], world, i))
  }

  function IdsWith(items: seq<Item>, s: Status): seq<string> {
    Ids(PoolsOf(Filter(items, Is(s))))
  }

  lemma IdsWithPush(items: seq<Item>, x: Item, s: Status)
    ensures IdsWith(items + [x], s) == IdsWith(items, s) + if x.status == s then [x.pool.id] else []
  {
    hide Filter;
    FilterPush(items, x, Is(s));
    assert Filter(items, Is(s)) + [] == Filter(items, Is(s));
  }

  lemma SettledPush(ordered: seq<Pool>, world: World)
    requires ordered != []
    ensures var n := |ordered| - 1;
            SettledItems(ordered, world) == SettledItems(ordered[..n], world) + [Settled(ordered[n], world, n)]
  {
  }

  /**
   * A run's three lists are the pools of each outcome, in plan order; every planned pool is in exactly
   * one; the cancelled ones are the plan's tail, and the rest is what went to the wallet, each once.
   */
  lemma {:induction false} RunPartitionsPlan(start: seq<Item>, ordered: seq<Pool>, world: World)
    ensures var end, done, cut := RunOf(start, ordered, world), SettledItems(ordered, world), Cut(world, |ordered|);
            && end.result.confirmed == IdsWith(done, Confirmed)
            && end.result.failed == IdsWith(done, Failed)
            && end.result.cancelled == IdsWith(done, Cancelled) == Ids(ordered[cut..])
            && end.submitted == Ids(ordered[..cut])
            && multiset(end.result.confirmed) + multiset(end.result.failed) == multiset(Ids(ordered[..cut]))
            && (end.cancelled <==> cut < |ordered|)
  {
    hide IdsWith, Settled, SettledItems;
    if ordered == [] {
      NothingSettled(world);
    } else {
      var n := |ordered| - 1;
      var init, last := ordered[..n], ordered[n];
      RunPartitionsPlan(start, init, world);
      SettledPush(ordered, world);
      var done, x := SettledItems(init, world), Settled(last, world, n);
      IdsWithPush(done, x, Confirmed);
      IdsWithPush(done, x, Failed);
      IdsWithPush(done, x, Cancelled);
      SettledStatus(last, world, n);
      var cut, cut' := Cut(world, n), Cut(world, n + 1);
      LaterCut(ordered, cut, cut', n);
    }
  }

  lemma NothingSettled(world: World)
    ensures SettledItems([], world) == [] && forall s: Status :: IdsWith([], s) == []
  {
  }

  lemma SettledStatus(pool: Pool, world: World, n: nat)
    ensures var x := Settled(pool, world, n);
            && x.pool == pool
            && (x.status == Cancelled <==> Cut(world, n + 1) <= n)
            && (x.status == Confirmed <==> Cut(world, n + 1) > n && world(n).outcome.Succeeds?)
            && (x.status == Failed <==> Cut(world, n + 1) > n && world(n).outcome.Throws?)
            && IsTerminal(x.status)
  {
  }

  lemma LaterCut(ordered: seq<Pool>, cut: nat, cut': nat, n: nat)
    requires n + 1 == |ordered| && cut <= n && (cut' == cut || (cut == n && cut' == n + 1))
    ensures cut' <= n ==>
              && Ids(ordered[cut'..]) == Ids(ordered[..n][cut..]) + [ordered[n].id]
              && ordered[..cut'] == ordered[..n][..cut]
    ensures cut' == n + 1 ==>
              && Ids(ordered[cut'..]) == Ids(ordered[..n][cut..]) == []
              && Ids(ordered[..cut']) == Ids(ordered[..n][..cut]) + [ordered[n].id]
  {
  }

  // ---- What the items come to ----

  function IdOf(): Item -> string { (i: Item) => i.pool.id }

  lemma SetOne(items: seq<Item>, k: nat, change: Change)
    requires k < |items| && UniqueBy(items, IdOf())
    ensures SetItemStatus(items, items[k].pool.id, change) == items[k := Changed(items[k], change)]
  {
    assert forall i | 0 <= i < k :: IdOf()(items[i]) != IdOf()(items[k]);
    assert forall i | k < i < |items| :: IdOf()(items[k]) != IdOf()(items[i]);
  }

  lemma ReplacedStaysUnique(items: seq<Item>, k: nat, x: Item)
    requires k < |items| && UniqueBy(items, IdOf()) && x.pool == items[k].pool
    ensures UniqueBy(items[k := x], IdOf())
  {
    var all := items[k := x];
    forall i, j | 0 <= i < j < |all| ensures IdOf()(all[i]) != IdOf()(all[j]) {
      assert IdOf()(items[i]) != IdOf()(items[j]);
    }
  }

  lemma {:induction false} PhasesOfOne(items: seq<Item>, k: nat, phases: seq<Phase>) returns (x: Item)
    requires k < |items| && UniqueBy(items, IdOf())
    ensures AfterPhases(items, items[k].pool.id, phases) == items[k := x]
    ensures x.pool == items[k].pool && x.error == items[k].error
    ensures items[k].txHash == None ==> x.txHash == LastHash(phases)
    ensures x.status == LastStatus(items[k].status, phases)
  {
    hide SetItemStatus, UniqueBy;
    if phases == [] {
      x := items[k];
      assert items[k := x] == items;
    } else {
      var y := PhasesOfOne(items, k, phases[..|phases| - 1]);
      ReplacedStaysUnique(items, k, y);
      var now := items[k := y];
      SetOne(now, k, ToSigning);
      var phase := phases[|phases| - 1];
      if phase.SubmittedPhase? {
        SetOne(now, k, ToSubmitted(phase.hash));
      }
      x := if phase.SigningPhase? then Changed(y, ToSigning)
           else if phase.SubmittedPhase? then Changed(y, ToSubmitted(phase.hash)) else y;
      assert now[k := x] == items[k := x];
    }
  }

  /** Whether position `n` is past the cut depends on the cut before it and on its own press. */
  lemma SettledHere(pool: Pool, world: World, n: nat)
    ensures Settled(pool, world, n) ==
            if Cut(world, n) < n || world(n).cancelPressed then Changed(PendingItem(pool), ToCancelled)
            else if world(n).outcome.Succeeds? then Item(pool, Confirmed, Some(world(n).outcome.txHash), None)
            else Item(pool, Failed, LastHash(world(n).phases), Some(world(n).outcome.message))
  {
  }

  /** One position turns its own pending item into its settled one. */
  lemma AttemptSettles(r: Run, k: nat, ordered: seq<Pool>, world: World, n: nat)
    requires n < |ordered| && k < |r.items| && UniqueBy(r.items, IdOf())
    requires r.items[k] == PendingItem(ordered[n]) && (r.cancelled <==> Cut(world, n) < n)
    ensures Attempted(r, ordered[n], world(n)).items == r.items[k := Settled(ordered[n], world, n)]
  {
    SettledHere(ordered[n], world, n);
    hide SetItemStatus, AfterPhases, UniqueBy, Settled, Cut, LastHash;
    var a := world(n);
    if r.cancelled || a.cancelPressed {
      SetOne(r.items, k, ToCancelled);
    } else {
      var x := PhasesOfOne(r.items, k, a.phases);
      ReplacedStaysUnique(r.items, k, x);
      var now := r.items[k := x];
      SetOne(now, k, if a.outcome.Succeeds? then ToConfirmed(a.outcome.txHash) else ToFailed(a.outcome.message));
      assert now[k := Settled(ordered[n], world, n)] == r.items[k := Settled(ordered[n], world, n)];
    }
  }

  /** The items once `n` positions are settled. */
  function Layout(retain: seq<Item>, ordered: seq<Pool>, world: World, n: nat): seq<Item>
    requires n <= |ordered|
  {
    retain + SettledItems(ordered[..n], world) + StartItems([], ordered[n..])
  }

  lemma LayoutStep(retain: seq<Item>, ordered: seq<Pool>, world: World, n: nat)
    requires n < |ordered|
    ensures Layout(retain, ordered, world, 0) == StartItems(retain, ordered)
    ensures var before, k := Layout(retain, ordered, world, n), |retain| + n;
            && k < |before| && before[k] == PendingItem(ordered[n])
            && Layout(retain, ordered, world, n + 1) == before[k := Settled(ordered[n], world, n)]
  {
    hide Settled;
  }

  lemma LayoutEnds(retain: seq<Item>, ordered: seq<Pool>, world: World)
    ensures Layout(retain, ordered, world, |ordered|) == retain + SettledItems(ordered, world)
    ensures Layout(retain, [], world, 0) == StartItems(retain, [])
  {
    assert ordered[..|ordered|] == ordered;
  }

  lemma CancelledIs(start: seq<Item>, ordered: seq<Pool>, world: World)
    ensures RunOf(start, ordered, world).cancelled <==> Cut(world, |ordered|) < |ordered|
  {
    RunPartitionsPlan(start, ordered, world);
  }

  lemma RunStep(start: seq<Item>, ordered: seq<Pool>, world: World, n: nat)
    requires 0 < n <= |ordered|
    ensures RunOf(start, ordered[..n], world) ==
            Attempted(RunOf(start, ordered[..n - 1], world), ordered[n - 1], world(n - 1))
  {
    assert ordered[..n][..n - 1] == ordered[..n - 1];
  }

  lemma {:induction false} RunSettlesPrefix(retain: seq<Item>, ordered: seq<Pool>, world: World, n: nat)
    requires n <= |ordered| && UniqueBy(StartItems(retain, ordered), IdOf())
    ensures var items := RunOf(StartItems(retain, ordered), ordered[..n], world).items;
            UniqueBy(items, IdOf()) && items == Layout(retain, ordered, world, n)
  {
    hide Attempted, Settled, UniqueBy, Layout, StartItems, SettledItems, Cut;
    var start := StartItems(retain, ordered);
    if n == 0 {
      if ordered == [] {
        LayoutEnds(retain, ordered, world);
      } else {
        LayoutStep(retain, ordered, world, 0);
      }
    } else {
      hide RunOf;
      RunSettlesPrefix(retain, ordered, world, n - 1);
      RunStep(start, ordered, world, n);
      var before, k := RunOf(start, ordered[..n - 1], world), |retain| + n - 1;
      LayoutStep(retain, ordered, world, n - 1);
      CancelledIs(start, ordered[..n - 1], world);
      AttemptSettles(before, k, ordered, world, n - 1);
      SettledStatus(ordered[n - 1], world, n - 1);
      ReplacedStaysUnique(before.items, k, Settled(ordered[n - 1], world, n - 1));
    }
  }

  /** With one item a pool, a run leaves the retained items alone and settles every other. */
  lemma RunSettlesAll(retain: seq<Item>, ordered: seq<Pool>, world: World)
    requires UniqueBy(StartItems(retain, ordered), IdOf())
    ensures RunOf(StartItems(retain, ordered), ordered, world).items == retain + SettledItems(ordered, world)
    ensures UniqueBy(retain + SettledItems(ordered, world), IdOf())
    ensures forall i <- SettledItems(ordered, world) :: IsTerminal(i.status)
    ensures PoolsOf(SettledItems(ordered, world)) == ordered
  {
    hide RunOf, Settled, UniqueBy;
    var n := |ordered|;
    RunSettlesPrefix(retain, ordered, world, n);
    assert ordered[..n] == ordered;
    LayoutEnds(retain, ordered, world);
    forall i | 0 <= i < n
      ensures IsTerminal(Settled(ordered[i], world, i).status) && Settled(ordered[i], world, i).pool == ordered[i]
    {
      SettledStatus(ordered[i], world, i);
    }
  }

  // ---- Retries ----

  /** One item a pool, all of them settled. */
  ghost predicate Finished(items: seq<Item>) {
    UniqueBy(items, IdOf()) && forall i <- items :: IsTerminal(i.status)
  }

  function AfterRetry(items: seq<Item>, world: World): seq<Item> {
    if Filter(items, IsRetryable()) == [] then items else RetryRun(items, world).items
  }

  function SubmittedByRetry(items: seq<Item>, world: World): seq<string> {
    if Filter(items, IsRetryable()) == [] then [] else RetryRun(items, world).submitted
  }

  lemma {:induction false} PoolsPermute(xs: seq<Item>, ys: seq<Item>)
    ensures multiset(PoolsOf(xs + ys)) == multiset(PoolsOf(xs)) + multiset(PoolsOf(ys))
  {
    assert PoolsOf(xs + ys) == PoolsOf(xs) + PoolsOf(ys);
  }

  /** Splitting finished items by outcome keeps their pools. */
  lemma {:induction false} SplitKeepsPools(items: seq<Item>)
    requires forall i <- items :: IsTerminal(i.status)
    ensures multiset(PoolsOf(Filter(items, Is(Confirmed)))) + multiset(PoolsOf(Filter(items, IsRetryable()))) ==
            multiset(PoolsOf(items))
  {
    hide Filter, PoolsOf;
    if items == [] {
      FilterNone(items, Is(Confirmed));
      FilterNone(items, IsRetryable());
      NoPools();
    } else {
      var init, last := items[..|items| - 1], items[|items| - 1];
      assert items == init + [last] && last in items;
      assert forall i <- init :: i in items;
      SplitKeepsPools(init);
      var kept, retryable := Filter(init, Is(Confirmed)), Filter(init, IsRetryable());
      FilterPush(init, last, Is(Confirmed));
      FilterPush(init, last, IsRetryable());
      assert kept + [] == kept && retryable + [] == retryable;
      PoolsPush(init, last);
      if last.status == Confirmed {
        PoolsPush(kept, last);
        assert Filter(items, Is(Confirmed)) == kept + [last] && Filter(items, IsRetryable()) == retryable;
      } else {
        PoolsPush(retryable, last);
        assert Filter(items, Is(Confirmed)) == kept && Filter(items, IsRetryable()) == retryable + [last];
      }
    }
  }

  lemma NoPools()
    ensures PoolsOf([]) == []
  {
  }

  lemma PoolsPush(items: seq<Item>, last: Item)
    ensures multiset(PoolsOf(items + [last])) == multiset(PoolsOf(items)) + multiset{last.pool}
  {
    assert PoolsOf(items + [last]) == PoolsOf(items) + [last.pool];
  }

  /** The items a retry starts from are the old ones, confirmed ones first. */
  lemma {:induction false} SplitStaysUnique(items: seq<Item>)
    requires UniqueBy(items, IdOf())
    ensures var kept, again := Filter(items, Is(Confirmed)), PoolsOf(Filter(items, IsRetryable()));
            UniqueBy(StartItems(kept, again), IdOf())
  {
    hide Filter;
    var kept, retryable := Filter(items, Is(Confirmed)), Filter(items, IsRetryable());
    FilterKeepsUniqueBy(items, Is(Confirmed), IdOf());
    FilterKeepsUniqueBy(items, IsRetryable(), IdOf());
    var start := StartItems(kept, PoolsOf(retryable));
    forall i, j | 0 <= i < j < |start| ensures IdOf()(start[i]) != IdOf()(start[j]) {
      if j < |kept| {
        assert IdOf()(kept[i]) != IdOf()(kept[j]);
      } else if |kept| <= i {
        assert IdOf()(retryable[i - |kept|]) != IdOf()(retryable[j - |kept|]);
      } else {
        var a, b := kept[i], retryable[j - |kept|];
        assert a in kept && b in retryable;
        if a.pool.id == b.pool.id {
          UniqueMeansSame(items, IdOf(), a, b);
        }
      }
    }
  }

  /**
   * A retry keeps every pool, settles every item again, leaves each confirmed one as it was, and submits
   * none of the confirmed pools.
   */
  lemma RetryKeepsConfirmed(items: seq<Item>, world: World)
    requires Finished(items)
    ensures Finished(AfterRetry(items, world))
    ensures multiset(PoolsOf(AfterRetry(items, world))) == multiset(PoolsOf(items))
    ensures forall i <- items | i.status == Confirmed ::
              i in AfterRetry(items, world) && i.pool.id !in SubmittedByRetry(items, world)
  {
    hide Filter, UniqueBy, RunOf, StartItems, SettledItems, Ids, PoolsOf, IdsWith;
    var kept, retryable := Filter(items, Is(Confirmed)), Filter(items, IsRetryable());
    if retryable != [] {
      var ordered := PoolsOf(retryable);
      SplitKeepsPools(items);
      SplitStaysUnique(items);
      RunSettlesAll(kept, ordered, world);
      PoolsPermute(kept, SettledItems(ordered, world));
      RunPartitionsPlan(StartItems(kept, ordered), ordered, world);
      var cut := Cut(world, |ordered|);
      assert |ordered| == |retryable| by { PoolsCount(retryable); }
      forall i | i in items && i.status == Confirmed
        ensures i in AfterRetry(items, world) && i.pool.id !in SubmittedByRetry(items, world)
      {
        assert Is(Confirmed)(i) && i in kept;
        NotRetried(items, i, cut);
      }
    }
  }

  lemma PoolsCount(items: seq<Item>)
    ensures |PoolsOf(items)| == |items|
  {
  }

  lemma NotRetried(items: seq<Item>, item: Item, cut: nat)
    requires UniqueBy(items, IdOf()) && item in items && item.status == Confirmed
    requires cut <= |Filter(items, IsRetryable())|
    ensures item.pool.id !in Ids(PoolsOf(Filter(items, IsRetryable()))[..cut])
  {
    hide Filter, UniqueBy;
    var retryable := Filter(items, IsRetryable());
    forall k | 0 <= k < cut ensures retryable[k].pool.id != item.pool.id {
      assert retryable[k] in retryable && IsRetryable()(retryable[k]);
      if retryable[k].pool.id == item.pool.id {
        UniqueMeansSame(items, IdOf(), item, retryable[k]);
      }
    }
  }

  /** The items after a first run and a sequence of retries. */
  function ItemsAfter(selected: seq<Pool>, first: World, retries: seq<World>): seq<Item> {
    if retries == [] then RunOf(StartItems([], selected), selected, first).items
    else AfterRetry(ItemsAfter(selected, first, retries[..|retries| - 1]), retries[|retries| - 1])
  }

  /** The pools submitted by `more` retries that follow `retries`. */
  function SubmittedLater(selected: seq<Pool>, first: World, retries: seq<World>, more: seq<World>): seq<string> {
    if more == [] then []
    else
      var init, last := more[..|more| - 1], more[|more| - 1];
      SubmittedLater(selected, first, retries, init)
        + SubmittedByRetry(ItemsAfter(selected, first, retries + init), last)
  }

  function PoolId(): Pool -> string { (p: Pool) => p.id }

  lemma FreshItemsUnique(selected: seq<Pool>)
    requires UniqueBy(selected, PoolId())
    ensures UniqueBy(StartItems([], selected), IdOf())
  {
    var start := StartItems([], selected);
    forall i, j | 0 <= i < j < |start| ensures IdOf()(start[i]) != IdOf()(start[j]) {
      assert PoolId()(selected[i]) != PoolId()(selected[j]);
    }
  }

  /** Over any sequence of retries the selected pools stay, each once and settled. */
  lemma {:induction false} RetriesKeepPools(selected: seq<Pool>, first: World, retries: seq<World>)
    requires UniqueBy(selected, PoolId())
    ensures Finished(ItemsAfter(selected, first, retries))
    ensures multiset(PoolsOf(ItemsAfter(selected, first, retries))) == multiset(selected)
  {
    hide AfterRetry, RunOf, StartItems, UniqueBy, SettledItems;
    if retries == [] {
      FreshItemsUnique(selected);
      RunSettlesAll([], selected, first);
      assert [] + SettledItems(selected, first) == SettledItems(selected, first);
    } else {
      RetriesKeepPools(selected, first, retries[..|retries| - 1]);
      RetryKeepsConfirmed(ItemsAfter(selected, first, retries[..|retries| - 1]), retries[|retries| - 1]);
    }
  }

  /** A confirmed deposit stays confirmed, hash and all, and no later retry submits its pool. */
  lemma {:induction false} ConfirmedIsFinal(selected: seq<Pool>, first: World, retries: seq<World>, more: seq<World>,
                                            item: Item)
    requires UniqueBy(selected, PoolId())
    requires item in ItemsAfter(selected, first, retries) && item.status == Confirmed
    ensures item in ItemsAfter(selected, first, retries + more)
    ensures item.pool.id !in SubmittedLater(selected, first, retries, more)
  {
    hide AfterRetry, SubmittedByRetry, UniqueBy, Finished;
    if more == [] {
      assert retries + more == retries;
    } else {
      var init, last := more[..|more| - 1], more[|more| - 1];
      ConfirmedIsFinal(selected, first, retries, init, item);
      assert (retries + more)[..|retries + more| - 1] == retries + init;
      RetriesKeepPools(selected, first, retries + init);
      RetryKeepsConfirmed(ItemsAfter(selected, first, retries + init), last);
    }
  }

  // ---- Progress ----

  datatype Progress = Progress(total: nat, done: nat, confirmed: nat, failed: nat, currentIndex: Option<nat>)

  function Terminal(): Item -> bool { (i: Item) => IsTerminal(i.status) }

  /** `findIndex` of the item in flight, counted from one. */
  function CurrentIndex(items: seq<Item>, from: nat): Option<nat>
    requires from <= |items|
    decreases |items| - from
  {
    if from == |items| then None
    else if items[from].status == Signing || items[from].status == Submitted then Some(from + 1)
    else CurrentIndex(items, from + 1)
  }

  function ComputeProgress(items: seq<Item>): Progress {
    Progress(|items|, |Filter(items, Terminal())|, |Filter(items, Is(Confirmed))|, |Filter(items, Is(Failed))|,
             CurrentIndex(items, 0))
  }

  predicate InFlight(i: Item) { i.status == Signing || i.status == Submitted }

  /** The index is that of the first item in flight, counted from one, and none when none is. */
  lemma {:induction false} CurrentIsFirst(items: seq<Item>, from: nat)
    requires from <= |items|
    ensures var at := CurrentIndex(items, from);
            && (at.Some? <==> exists k :: from <= k < |items| && InFlight(items[k]))
            && (at.Some? ==>
                  && from < at.value <= |items| && InFlight(items[at.value - 1])
                  && forall k | from <= k < at.value - 1 :: !InFlight(items[k]))
    decreases |items| - from
  {
    if from < |items| && !InFlight(items[from]) {
      CurrentIsFirst(items, from + 1);
    }
  }

  lemma StartsPending(ordered: seq<Pool>)
    ensures forall i <- StartItems([], ordered) :: i.status == Pending
  {
  }

  /** Some phase put the deposit in flight. */
  predicate Launched(phases: seq<Phase>) { exists p <- phases :: !p.OtherPhase? }

  lemma NothingLaunched()
    ensures !Launched([])
  {
  }

  lemma LaunchedBy(init: seq<Phase>, last: Phase)
    ensures Launched(init + [last]) <==> Launched(init) || !last.OtherPhase?
  {
    assert last in init + [last];
    assert forall p <- init :: p in init + [last];
  }

  lemma {:induction false} LaunchedMeans(phases: seq<Phase>)
    ensures LastStatus(Pending, phases) in {Pending, Signing, Submitted}
    ensures LastStatus(Pending, phases) != Pending <==> Launched(phases)
  {
    hide Launched;
    NothingLaunched();
    if phases != [] {
      var init, last := phases[..|phases| - 1], phases[|phases| - 1];
      LaunchedMeans(init);
      LaunchedBy(init, last);
      assert phases == init + [last];
    }
  }

  /**
   * The progress while position `n` is under way: everything before it is done, and the bar points at it
   * from its first signing or submitted phase on.
   */
  lemma ProgressFollowsRun(retain: seq<Item>, ordered: seq<Pool>, world: World, n: nat, phases: seq<Phase>)
    requires n < |ordered| && UniqueBy(StartItems(retain, ordered), IdOf())
    requires forall i <- retain :: i.status == Confirmed
    ensures var before := RunOf(StartItems(retain, ordered), ordered[..n], world).items;
            var p := ComputeProgress(AfterPhases(before, ordered[n].id, phases));
            && p.total == |retain| + |ordered| && p.done == |retain| + n
            && p.currentIndex == if Launched(phases) then Some(|retain| + n + 1) else None
  {
    hide RunOf, AfterPhases, UniqueBy, Settled, Filter, CurrentIndex, LastStatus, Launched;
    RunSettlesPrefix(retain, ordered, world, n);
    LayoutStep(retain, ordered, world, n);
    var before, k := Layout(retain, ordered, world, n), |retain| + n;
    var x := PhasesOfOne(before, k, phases);
    LaunchedMeans(phases);
    var done, later := retain + SettledItems(ordered[..n], world), StartItems([], ordered[n + 1..]);
    StartsPending(ordered[n + 1..]);
    assert before[k := x] == done + ([x] + later);
    TerminalDone(retain, ordered[..n], world);
    CountInFlight(done, x, later);
  }

  lemma TerminalDone(retain: seq<Item>, ordered: seq<Pool>, world: World)
    requires forall i <- retain :: i.status == Confirmed
    ensures forall i <- retain + SettledItems(ordered, world) :: IsTerminal(i.status)
  {
  }

  lemma CountInFlight(done: seq<Item>, x: Item, later: seq<Item>)
    requires (forall i <- done :: IsTerminal(i.status)) && (forall i <- later :: i.status == Pending)
    requires x.status in {Pending, Signing, Submitted}
    ensures var p := ComputeProgress(done + ([x] + later));
            p.done == |done| && p.currentIndex == if x.status == Pending then None else Some(|done| + 1)
  {
    hide Filter, CurrentIndex;
    var items := done + ([x] + later);
    FilterAppend(done, [x] + later, Terminal());
    FilterAll(done, Terminal());
    FilterNone([x] + later, Terminal());
    CurrentIsFirst(items, 0);
    assert items[|done|] == x;
    assert forall k | 0 <= k < |done| :: items[k] in done;
    assert forall k | |done| < k < |items| :: items[k] in later;
  }

  lemma {:induction false} NothingInFlight(items: seq<Item>, from: nat)
    requires from <= |items| && forall i <- items :: IsTerminal(i.status)
    ensures CurrentIndex(items, from) == None
    decreases |items| - from
  {
    if from < |items| {
      assert items[from] in items;
      NothingInFlight(items, from + 1);
    }
  }

  /** After a run over confirmed leftovers, the bar is full and its counts are the result's and the leftovers'. */
  lemma ProgressMatchesResult(retain: seq<Item>, ordered: seq<Pool>, world: World)
    requires UniqueBy(StartItems(retain, ordered), IdOf()) && forall i <- retain :: i.status == Confirmed
    ensures var end := RunOf(StartItems(retain, ordered), ordered, world);
            ComputeProgress(end.items) ==
            Progress(|retain| + |ordered|, |retain| + |ordered|, |retain|
                     + |end.result.confirmed|, |end.result.failed|, None)
  {
    hide UniqueBy, RunOf, StartItems, Filter, CurrentIndex;
    var done := SettledItems(ordered, world);
    RunSettlesAll(retain, ordered, world);
    RunPartitionsPlan(StartItems(retain, ordered), ordered, world);
    NothingInFlight(retain + done, 0);
    FilterAll(retain + done, Terminal());
    FilterAppend(retain, done, Is(Confirmed));
    FilterAll(retain, Is(Confirmed));
    FilterAppend(retain, done, Is(Failed));
    FilterNone(retain, Is(Failed));
  }
}
