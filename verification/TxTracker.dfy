/**
 * The tracker of broadcast transactions: a capped list in local storage, kept sorted by submission
 * time and unique by hash, and the duplicate lookup made against it. `stored` is the list as
 * written; every operation starts from what reading it back accepts.
 */
module TxTracker {
  import opened Prelude
  import opened Sorting

  const PENDING_TX_MAX: nat := 10
  const PENDING_TX_MAX_AGE_MS := 3_600_000
  const RECENT_DUPLICATE_WINDOW_MS := 120_000

  datatype TxType = Deposit | Withdraw | Payout | EmergencyWithdraw | Pause | Join | Create | SetSupportedTokens

  datatype TxStatus = Pending | Confirmed | Failed

  datatype ErrorNote = FailedOnChainAfter(attempts: int) | OtherNote(text: string)

  datatype PendingTransaction = PendingTransaction(
    hash: string,
    txType: TxType,
    poolId: string,
    poolName: string,
    submittedAt: int,
    status: TxStatus,
    attempts: int,
    lastChecked: int,
    error: Option<ErrorNote>)

  /** The fields the source ever patches. */
  datatype Patch = Patch(status: Option<TxStatus>, lastChecked: Option<int>, error: Option<ErrorNote>)

  datatype TrackerOp =
    | Add(record: PendingTransaction)
    | Remove(hash: string)
    | Update(hash: string, patch: Patch)
    | Cleanup(now: int)

  /** The validity check lists seven of the eight types. */
  predicate IsPendingTransactionType(t: TxType) {
    t != SetSupportedTokens
  }

  function Accepted(): PendingTransaction -> bool {
    (r: PendingTransaction) => IsPendingTransactionType(r.txType)
  }

  function HashIsNot(hash: string): PendingTransaction -> bool {
    (r: PendingTransaction) => r.hash != hash
  }

  function YoungAt(now: int): PendingTransaction -> bool {
    (r: PendingTransaction) => now - r.submittedAt <= PENDING_TX_MAX_AGE_MS
  }

  function SubmittedInOrder(): (PendingTransaction, PendingTransaction) -> bool {
    (a: PendingTransaction, b: PendingTransaction) => a.submittedAt <= b.submittedAt
  }

  function ReadPendingTxs(stored: seq<PendingTransaction>): seq<PendingTransaction> {
    Filter(stored, Accepted())
  }

  function SortAndCap(records: seq<PendingTransaction>): seq<PendingTransaction> {
    LastN(Sort(records, SubmittedInOrder()), PENDING_TX_MAX)
  }

  function AddPendingTx(stored: seq<PendingTransaction>, record: PendingTransaction): seq<PendingTransaction> {
    SortAndCap(Filter(ReadPendingTxs(stored), HashIsNot(record.hash)) + [record])
  }

  function RemovePendingTx(stored: seq<PendingTransaction>, hash: string): seq<PendingTransaction> {
    Filter(ReadPendingTxs(stored), HashIsNot(hash))
  }

  function Patched(r: PendingTransaction, hash: string, patch: Patch): PendingTransaction {
    if r.hash != hash then r
    else r.(status := if patch.status.Some? then patch.status.value else r.status,
            lastChecked := if patch.lastChecked.Some? then patch.lastChecked.value else r.lastChecked,
            error := if patch.error.Some? then patch.error else r.error)
  }

  function PatchAll(records: seq<PendingTransaction>, hash: string, patch: Patch): seq<PendingTransaction> {
    seq(|records|, i requires 0 <= i < |records| => Patched(records[i], hash, patch))
  }

  function UpdatePendingTx(stored: seq<PendingTransaction>, hash: string, patch: Patch): seq<PendingTransaction> {
    PatchAll(ReadPendingTxs(stored), hash, patch)
  }

  function CleanupPendingTxs(stored: seq<PendingTransaction>, now: int): seq<PendingTransaction> {
    SortAndCap(Filter(ReadPendingTxs(stored), YoungAt(now)))
  }

  function ApplyOp(stored: seq<PendingTransaction>, op: TrackerOp): seq<PendingTransaction> {
    match op
    case Add(record) => AddPendingTx(stored, record)
    case Remove(hash) => RemovePendingTx(stored, hash)
    case Update(hash, patch) => UpdatePendingTx(stored, hash, patch)
    case Cleanup(now) => CleanupPendingTxs(stored, now)
  }

  function RunOps(stored: seq<PendingTransaction>, ops: seq<TrackerOp>): seq<PendingTransaction> {
    if ops == [] then stored else ApplyOp(RunOps(stored, ops[..|ops| - 1]), ops[|ops| - 1])
  }

  // ---- Shape ----

  ghost predicate UniqueHashes(records: seq<PendingTransaction>) {
    forall i, j | 0 <= i < j < |records| :: records[i].hash != records[j].hash
  }

  ghost predicate WellKept(stored: seq<PendingTransaction>) {
    && SortedBy(stored, SubmittedInOrder())
    && UniqueHashes(stored)
    && |stored| <= PENDING_TX_MAX
  }

  lemma {:induction false} FilterKeepsUnique(records: seq<PendingTransaction>, keep: PendingTransaction -> bool)
    requires UniqueHashes(records)
    ensures UniqueHashes(Filter(records, keep))
  {
    if records != [] {
      var init, last := records[..|records| - 1], records[|records| - 1];
      FilterKeepsUnique(init, keep);
      var kept := Filter(init, keep);
      forall i | 0 <= i < |kept| ensures kept[i].hash != last.hash {
        assert kept[i] in kept;
        var k :| 0 <= k < |init| && init[k] == kept[i];
        assert records[k].hash != records[|records| - 1].hash;
      }
    }
  }

  lemma FilterKeepsShape(records: seq<PendingTransaction>, keep: PendingTransaction -> bool)
    requires SortedBy(records, SubmittedInOrder()) && UniqueHashes(records)
    ensures SortedBy(Filter(records, keep), SubmittedInOrder()) && UniqueHashes(Filter(records, keep))
  {
    FilterKeepsSorted(records, keep, SubmittedInOrder());
    FilterKeepsUnique(records, keep);
  }

  lemma SubmissionOrderIsTotal()
    ensures TotalPreorder(SubmittedInOrder())
  {
  }

  lemma {:induction false} InsertKeepsUnique(records: seq<PendingTransaction>, r: PendingTransaction)
    requires UniqueHashes(records) && forall e <- records :: e.hash != r.hash
    ensures UniqueHashes(InsertAfter(records, r, SubmittedInOrder()))
  {
    if records != [] {
      var init, last := records[..|records| - 1], records[|records| - 1];
      InsertKeepsUnique(init, r);
      InsertAfterMembers(init, r, SubmittedInOrder());
      forall e | e in InsertAfter(init, r, SubmittedInOrder())
        ensures e.hash != last.hash
      {
        if e in init {
          var i :| 0 <= i < |init| && init[i] == e;
          assert records[i] == e;
        } else {
          assert last in records;
        }
      }
    }
  }

  /** An add inserts the record into the sorted remainder, then drops the oldest past the cap. */
  lemma AddIsInsert(stored: seq<PendingTransaction>, r: PendingTransaction)
    requires WellKept(stored)
    ensures var rest := Filter(ReadPendingTxs(stored), HashIsNot(r.hash));
            && SortedBy(rest, SubmittedInOrder()) && UniqueHashes(rest)
            && AddPendingTx(stored, r) == LastN(InsertAfter(rest, r, SubmittedInOrder()), PENDING_TX_MAX)
  {
    FilterKeepsShape(stored, Accepted());
    FilterKeepsShape(ReadPendingTxs(stored), HashIsNot(r.hash));
    SortOfSortedAppend(Filter(ReadPendingTxs(stored), HashIsNot(r.hash)), r, SubmittedInOrder());
  }

  lemma AddKeepsShape(stored: seq<PendingTransaction>, r: PendingTransaction)
    requires WellKept(stored)
    ensures WellKept(AddPendingTx(stored, r))
  {
    AddIsInsert(stored, r);
    var rest := Filter(ReadPendingTxs(stored), HashIsNot(r.hash));
    SubmissionOrderIsTotal();
    InsertAfterSorted(rest, r, SubmittedInOrder());
    InsertKeepsUnique(rest, r);
  }

  /** A record an add of `r` is to keep: `r` itself, or a readable one of another hash. */
  predicate ToKeep(e: PendingTransaction, stored: seq<PendingTransaction>, r: PendingTransaction) {
    e == r || (e in stored && e.txType != SetSupportedTokens && e.hash != r.hash)
  }

  /**
   * An add leaves a well-kept list of `r` and the readable records of other hashes; one of them is evicted
   * only when the list is full, and then nothing kept is older than it.
   */
  lemma AddMeans(stored: seq<PendingTransaction>, r: PendingTransaction)
    requires WellKept(stored)
    ensures var now := AddPendingTx(stored, r);
            && WellKept(now)
            && (forall e <- now :: ToKeep(e, stored, r))
            && (forall e | ToKeep(e, stored, r) && e !in now ::
                  |now| == 10 && forall k <- now :: e.submittedAt <= k.submittedAt)
  {
    hide Filter, InsertAfter;
    AddKeepsShape(stored, r);
    AddIsInsert(stored, r);
    var rest := Filter(ReadPendingTxs(stored), HashIsNot(r.hash));
    var all, now := InsertAfter(rest, r, SubmittedInOrder()), AddPendingTx(stored, r);
    SubmissionOrderIsTotal();
    InsertAfterSorted(rest, r, SubmittedInOrder());
    InsertAfterMembers(rest, r, SubmittedInOrder());
    forall e | e in now ensures ToKeep(e, stored, r) {
      assert e in all && (e == r || e in rest);
      assert e in rest ==> HashIsNot(r.hash)(e) && e in ReadPendingTxs(stored);
      assert e in rest ==> Accepted()(e) && e in stored;
    }
    forall e | ToKeep(e, stored, r) && e !in now
      ensures |now| == 10 && forall k <- now :: e.submittedAt <= k.submittedAt
    {
      assert e in all;
      OlderThanCapped(all, e, PENDING_TX_MAX);
    }
  }

  lemma OlderThanCapped(all: seq<PendingTransaction>, e: PendingTransaction, n: nat)
    requires SortedBy(all, SubmittedInOrder()) && e in all
    ensures e in LastN(all, n) || (|LastN(all, n)| == n && forall k <- LastN(all, n) :: e.submittedAt <= k.submittedAt)
  {
    var i :| 0 <= i < |all| && all[i] == e;
    var kept := LastN(all, n);
    if |all| > n {
      var cut := |all| - n;
      if i >= cut {
        assert kept[i - cut] == e;
      } else {
        forall k | k in kept ensures e.submittedAt <= k.submittedAt {
          var j :| 0 <= j < |kept| && kept[j] == k;
          assert SubmittedInOrder()(all[i], all[cut + j]);
        }
      }
    }
  }

  lemma UpdateKeepsShape(stored: seq<PendingTransaction>, hash: string, patch: Patch)
    requires WellKept(stored)
    ensures WellKept(UpdatePendingTx(stored, hash, patch))
  {
    FilterKeepsShape(stored, Accepted());
    var read := ReadPendingTxs(stored);
    assert forall i, j | 0 <= i < j < |read| :: SubmittedInOrder()(read[i], read[j]);
  }

  /** On a well-kept list cleanup only ages records out: sorting and capping change nothing. */
  lemma CleanupOnlyAges(stored: seq<PendingTransaction>, now: int)
    requires WellKept(stored)
    ensures CleanupPendingTxs(stored, now) == Filter(ReadPendingTxs(stored), YoungAt(now))
    ensures WellKept(CleanupPendingTxs(stored, now))
    ensures forall e :: e in CleanupPendingTxs(stored, now) <==>
              e in stored && e.txType != SetSupportedTokens && now - e.submittedAt <= 3_600_000
  {
    FilterKeepsShape(stored, Accepted());
    FilterKeepsShape(ReadPendingTxs(stored), YoungAt(now));
    SortOfSorted(Filter(ReadPendingTxs(stored), YoungAt(now)), SubmittedInOrder());
  }

  lemma OpKeepsShape(stored: seq<PendingTransaction>, op: TrackerOp)
    requires WellKept(stored)
    ensures WellKept(ApplyOp(stored, op))
  {
    match op
    case Add(r) => AddKeepsShape(stored, r);
    case Remove(hash) =>
      FilterKeepsShape(stored, Accepted());
      FilterKeepsShape(ReadPendingTxs(stored), HashIsNot(hash));
    case Update(hash, patch) => UpdateKeepsShape(stored, hash, patch);
    case Cleanup(now) => CleanupOnlyAges(stored, now);
  }

  /** Under every run of tracker operations the list stays sorted, unique by hash and capped. */
  lemma {:induction false} TrackerStaysWellKept(stored: seq<PendingTransaction>, ops: seq<TrackerOp>)
    requires WellKept(stored)
    ensures WellKept(RunOps(stored, ops))
  {
    if ops != [] {
      TrackerStaysWellKept(stored, ops[..|ops| - 1]);
      OpKeepsShape(RunOps(stored, ops[..|ops| - 1]), ops[|ops| - 1]);
    }
  }

  // ---- The cap against an unbounded log ----

  function Adds(records: seq<PendingTransaction>): seq<TrackerOp> {
    seq(|records|, i requires 0 <= i < |records| => Add(records[i]))
  }

  /** Every record ever added, a re-added hash moving to the end. */
  function UncappedLog(records: seq<PendingTransaction>): seq<PendingTransaction> {
    if records == [] then []
    else
      var before, last := UncappedLog(records[..|records| - 1]), records[|records| - 1];
      Filter(before, HashIsNot(last.hash)) + [last]
  }

  lemma {:induction false} LogMembers(records: seq<PendingTransaction>)
    ensures forall r <- UncappedLog(records) :: r in records
  {
    if records != [] {
      LogMembers(records[..|records| - 1]);
    }
  }

  lemma {:induction false} LogUnique(records: seq<PendingTransaction>)
    ensures UniqueHashes(UncappedLog(records))
  {
    if records != [] {
      var log, last := UncappedLog(records[..|records| - 1]), records[|records| - 1];
      LogUnique(records[..|records| - 1]);
      FilterKeepsUnique(log, HashIsNot(last.hash));
      var rest := Filter(log, HashIsNot(last.hash));
      assert forall i | 0 <= i < |rest| :: rest[i] in rest && HashIsNot(last.hash)(rest[i]);
    }
  }

  lemma {:induction false} LogSorted(records: seq<PendingTransaction>)
    requires SortedBy(records, SubmittedInOrder())
    ensures SortedBy(UncappedLog(records), SubmittedInOrder())
  {
    if records != [] {
      var init, last := records[..|records| - 1], records[|records| - 1];
      assert records == init + [last];
      BeforeLast(init, last, SubmittedInOrder());
      LogSorted(init);
      LogMembers(init);
      FilterKeepsSorted(UncappedLog(init), HashIsNot(last.hash), SubmittedInOrder());
      SortedPush(Filter(UncappedLog(init), HashIsNot(last.hash)), last, SubmittedInOrder());
    }
  }

  lemma {:induction false} FilterDropsAtMostOne(records: seq<PendingTransaction>, hash: string)
    requires UniqueHashes(records)
    ensures |Filter(records, HashIsNot(hash))| >= |records| - 1
  {
    if records != [] {
      var init, last := records[..|records| - 1], records[|records| - 1];
      if last.hash == hash {
        FilterAll(init, HashIsNot(hash));
      } else {
        FilterDropsAtMostOne(init, hash);
      }
    }
  }

  lemma LastNOfTail<T>(xs: seq<T>, ys: seq<T>, y: T, n: nat)
    requires |ys| + 1 >= n
    ensures LastN(xs + ys + [y], n) == LastN(ys + [y], n)
  {
  }

  /** Dropping one hash and appending commutes with keeping the last `n`. */
  lemma CapThenAdd(log: seq<PendingTransaction>, r: PendingTransaction, n: nat)
    requires UniqueHashes(log)
    ensures LastN(Filter(LastN(log, n), HashIsNot(r.hash)) + [r], n) == LastN(Filter(log, HashIsNot(r.hash)) + [r], n)
  {
    if |log| > n {
      var older, newer := log[..|log| - n], log[|log| - n..];
      assert log == older + newer;
      FilterAppend(older, newer, HashIsNot(r.hash));
      FilterDropsAtMostOne(newer, r.hash);
      LastNOfTail(Filter(older, HashIsNot(r.hash)), Filter(newer, HashIsNot(r.hash)), r, n);
    }
  }

  /** A record no older than any stored one goes to the end. */
  lemma AddNewest(stored: seq<PendingTransaction>, r: PendingTransaction)
    requires WellKept(stored) && forall e <- stored :: e.submittedAt <= r.submittedAt
    ensures AddPendingTx(stored, r) ==
            LastN(Filter(ReadPendingTxs(stored), HashIsNot(r.hash)) + [r], PENDING_TX_MAX)
  {
    AddIsInsert(stored, r);
    var rest := Filter(ReadPendingTxs(stored), HashIsNot(r.hash));
    assert rest != [] ==> rest[|rest| - 1] in rest && rest[|rest| - 1] in stored;
    assert InsertAfter(rest, r, SubmittedInOrder()) == rest + [r];
  }

  lemma LastNWellKept(log: seq<PendingTransaction>)
    requires SortedBy(log, SubmittedInOrder()) && UniqueHashes(log)
    ensures WellKept(LastN(log, PENDING_TX_MAX))
    ensures forall e <- LastN(log, PENDING_TX_MAX) :: e in log
  {
  }

  lemma CapStep(log: seq<PendingTransaction>, r: PendingTransaction)
    requires SortedBy(log, SubmittedInOrder()) && UniqueHashes(log)
    requires forall e <- log :: IsPendingTransactionType(e.txType) && e.submittedAt <= r.submittedAt
    ensures AddPendingTx(LastN(log, PENDING_TX_MAX), r) == LastN(Filter(log, HashIsNot(r.hash)) + [r], PENDING_TX_MAX)
  {
    var capped := LastN(log, PENDING_TX_MAX);
    LastNWellKept(log);
    FilterAll(capped, Accepted());
    AddNewest(capped, r);
    CapThenAdd(log, r, PENDING_TX_MAX);
  }

  /**
   * For an add-only run of accepted types with a clock that does not go back, the capped list is
   * exactly the last ten entries of the uncapped log.
   */
  lemma {:induction false} CapRefinesLog(records: seq<PendingTransaction>)
    requires SortedBy(records, SubmittedInOrder())
    requires forall r <- records :: IsPendingTransactionType(r.txType)
    ensures RunOps([], Adds(records)) == LastN(UncappedLog(records), 10)
  {
    hide AddPendingTx, Filter;
    if records != [] {
      var init, last := records[..|records| - 1], records[|records| - 1];
      assert init + [last] == records;
      BeforeLast(init, last, SubmittedInOrder());
      CapRefinesLog(init);
      assert Adds(records)[..|records| - 1] == Adds(init);
      LogMembers(init);
      LogUnique(init);
      LogSorted(init);
      CapStep(UncappedLog(init), last);
    }
  }

  /** The eighth type is written and then lost: the next read does not see it. */
  lemma UnlistedTypeVanishes(stored: seq<PendingTransaction>, r: PendingTransaction)
    requires r.txType == SetSupportedTokens
    ensures forall e <- ReadPendingTxs(AddPendingTx(stored, r)) :: e.hash != r.hash
  {
    var rest := Filter(ReadPendingTxs(stored), HashIsNot(r.hash));
    SortMembers(rest + [r], SubmittedInOrder());
    forall e | e in ReadPendingTxs(AddPendingTx(stored, r)) ensures e.hash != r.hash {
      assert e in Sort(rest + [r], SubmittedInOrder());
    }
  }

  // ---- Duplicate lookup ----

  function NormalizePool(poolId: string): string {
    ToUpper(Trim(poolId))
  }

  function IsRecentDuplicate(poolId: string, txType: TxType, now: int): PendingTransaction -> bool {
    (r: PendingTransaction) => r.status == Pending
      && NormalizePool(r.poolId) == NormalizePool(poolId)
      && r.txType == txType
      && now - r.submittedAt <= RECENT_DUPLICATE_WINDOW_MS
  }

  /** `records.find(wanted)`. */
  function Find(records: seq<PendingTransaction>, wanted: PendingTransaction -> bool): (r: Option<PendingTransaction>)
    ensures r.Some? <==> exists e <- records :: wanted(e)
    ensures r.Some? ==> r.value in records && wanted(r.value)
  {
    if records == [] then None
    else if wanted(records[0]) then Some(records[0])
    else
      var r := Find(records[1..], wanted);
      assert records == [records[0]] + records[1..];
      r
  }

  function FindRecentPendingTx(stored: seq<PendingTransaction>, poolId: string, txType: TxType, now: int)
    : Option<PendingTransaction>
  {
    Find(ReadPendingTxs(stored), IsRecentDuplicate(poolId, txType, now))
  }

  /** The same pool id, but for spaces around it and the case of its letters. */
  ghost predicate SamePool(a: string, b: string) {
    SameIgnoringCase(Trim(a), Trim(b))
  }

  /** A pending transaction of the pool and type, of an accepted type and submitted at most two minutes ago. */
  ghost predicate InFlight(r: PendingTransaction, poolId: string, txType: TxType, now: int) {
    && r.status == Pending
    && SamePool(r.poolId, poolId)
    && r.txType == txType && txType != SetSupportedTokens
    && now - r.submittedAt <= 120_000
  }

  /** The record at `k` is the first one in flight. */
  ghost predicate FirstInFlight(stored: seq<PendingTransaction>, k: int, poolId: string, txType: TxType, now: int) {
    && 0 <= k < |stored| && InFlight(stored[k], poolId, txType, now)
    && forall j | 0 <= j < k :: !InFlight(stored[j], poolId, txType, now)
  }

  lemma SamePoolMeans(a: string, b: string)
    ensures NormalizePool(a) == NormalizePool(b) <==> SamePool(a, b)
  {
    UpperMeans(Trim(a), Trim(b));
  }

  function Both(first: PendingTransaction -> bool, second: PendingTransaction -> bool): PendingTransaction -> bool {
    (r: PendingTransaction) => first(r) && second(r)
  }

  lemma FindStep(first: PendingTransaction, rest: seq<PendingTransaction>, wanted: PendingTransaction -> bool)
    ensures Find([first] + rest, wanted) == if wanted(first) then Some(first) else Find(rest, wanted)
  {
    assert ([first] + rest)[1..] == rest;
  }

  lemma FilterStep(first: PendingTransaction, rest: seq<PendingTransaction>, keep: PendingTransaction -> bool)
    ensures Filter([first] + rest, keep) == (if keep(first) then [first] else []) + Filter(rest, keep)
  {
    FilterAppend([first], rest, keep);
    assert [first][..0] == [];
  }

  lemma {:induction false} FindInFiltered(stored: seq<PendingTransaction>, keep: PendingTransaction -> bool,
                                          wanted: PendingTransaction -> bool)
    ensures Find(Filter(stored, keep), wanted) == Find(stored, Both(keep, wanted))
  {
    if stored != [] {
      var first, rest := stored[0], stored[1..];
      assert stored == [first] + rest;
      FindInFiltered(rest, keep, wanted);
      hide Find, Filter;
      FilterStep(first, rest, keep);
      FindStep(first, rest, Both(keep, wanted));
      if keep(first) {
        FindStep(first, Filter(rest, keep), wanted);
      } else {
        assert [] + Filter(rest, keep) == Filter(rest, keep);
      }
    } else {
      assert Filter(stored, keep) == [];
    }
  }

  lemma {:induction false} FindsFirst(records: seq<PendingTransaction>, wanted: PendingTransaction -> bool)
    returns (k: nat)
    requires exists e <- records :: wanted(e)
    ensures k < |records| && wanted(records[k]) && Find(records, wanted) == Some(records[k])
    ensures forall j | 0 <= j < k :: !wanted(records[j])
  {
    if wanted(records[0]) {
      k := 0;
    } else {
      assert records == [records[0]] + records[1..];
      k := FindsFirst(records[1..], wanted);
      k := k + 1;
    }
  }

  lemma WantedMeans(r: PendingTransaction, poolId: string, txType: TxType, now: int)
    ensures Both(Accepted(), IsRecentDuplicate(poolId, txType, now))(r) <==> InFlight(r, poolId, txType, now)
  {
    hide NormalizePool, SamePool;
    SamePoolMeans(r.poolId, poolId);
  }

  /**
   * The lookup finds the first record in flight, and nothing exactly when there is none: none pending, of the
   * pool, of the type and submitted within two minutes.
   */
  lemma FindRecentIsExact(stored: seq<PendingTransaction>, poolId: string, txType: TxType, now: int)
    ensures var found := FindRecentPendingTx(stored, poolId, txType, now);
            && (found.Some? <==> exists r <- stored :: InFlight(r, poolId, txType, now))
            && (found.Some? ==>
                  exists k :: FirstInFlight(stored, k, poolId, txType, now) && found == Some(stored[k]))
  {
    hide Find, InFlight, Filter;
    var wanted := Both(Accepted(), IsRecentDuplicate(poolId, txType, now));
    FindInFiltered(stored, Accepted(), IsRecentDuplicate(poolId, txType, now));
    forall r | r in stored ensures wanted(r) <==> InFlight(r, poolId, txType, now) {
      WantedMeans(r, poolId, txType, now);
    }
    if exists r <- stored :: wanted(r) {
      var k := FindsFirst(stored, wanted);
      assert FirstInFlight(stored, k, poolId, txType, now);
    }
  }

  // ---- How long a record stays findable ----

  /** The parts of a record the duplicate lookup reads are as in `r`. */
  ghost predicate StillPendingAs(e: PendingTransaction, r: PendingTransaction) {
    && e.hash == r.hash && e.txType == r.txType && e.poolId == r.poolId
    && e.submittedAt == r.submittedAt && e.status == Pending
  }

  ghost predicate Around(
      stored: seq<PendingTransaction>, head: seq<PendingTransaction>, e: PendingTransaction,
        tail: seq<PendingTransaction>)
  {
    stored == head + [e] + tail
  }

  /** `r`, still pending, stands directly before `tail`. */
  ghost predicate HeldBefore(stored: seq<PendingTransaction>, r: PendingTransaction, tail: seq<PendingTransaction>) {
    exists head, e :: Around(stored, head, e, tail) && StillPendingAs(e, r)
  }

  ghost predicate Holds(stored: seq<PendingTransaction>, r: PendingTransaction) {
    exists e <- stored :: StillPendingAs(e, r)
  }

  ghost predicate Gone(stored: seq<PendingTransaction>, hash: string) {
    forall e <- stored :: e.hash != hash
  }

  /** An operation that neither settles, removes nor ages out `r`. */
  ghost predicate Harmless(op: TrackerOp, r: PendingTransaction) {
    match op
    case Add(other) => other.hash != r.hash
    case Remove(hash) => hash != r.hash
    case Update(hash, patch) => hash == r.hash ==> patch.status == None || patch.status == Some(Pending)
    case Cleanup(now) => now - r.submittedAt <= 3_600_000
  }

  /** The tracker's operations without the cap. */
  function UncappedOp(records: seq<PendingTransaction>, op: TrackerOp): seq<PendingTransaction> {
    match op
    case Add(record) => Sort(Filter(ReadPendingTxs(records), HashIsNot(record.hash)) + [record], SubmittedInOrder())
    case Remove(hash) => RemovePendingTx(records, hash)
    case Update(hash, patch) => UpdatePendingTx(records, hash, patch)
    case Cleanup(now) => Filter(ReadPendingTxs(records), YoungAt(now))
  }

  function SubmittedAfter(r: PendingTransaction): PendingTransaction -> bool {
    (e: PendingTransaction) => e.submittedAt > r.submittedAt
  }

  /** An operation as seen by the records newer than `r`: adding an older one at most drops its hash. */
  function AmongNewer(op: TrackerOp, r: PendingTransaction): TrackerOp {
    if op.Add? && op.record.submittedAt < r.submittedAt then Remove(op.record.hash) else op
  }

  /**
   * The records newer than `r` that are live after it was added to `stored` and `ops` ran: later ones
   * already there, and those added since, less what was replaced, removed or aged out.
   */
  function Newer(stored: seq<PendingTransaction>, r: PendingTransaction, ops: seq<TrackerOp>): seq<PendingTransaction> {
    if ops == [] then Filter(Filter(ReadPendingTxs(stored), HashIsNot(r.hash)), SubmittedAfter(r))
    else UncappedOp(Newer(stored, r, ops[..|ops| - 1]), AmongNewer(ops[|ops| - 1], r))
  }

  /** At no moment were there ten or more live records newer than `r`. */
  ghost predicate NeverCrowded(stored: seq<PendingTransaction>, r: PendingTransaction, ops: seq<TrackerOp>) {
    && |Newer(stored, r, ops)| < 10
    && (ops != [] ==> NeverCrowded(stored, r, ops[..|ops| - 1]))
  }

  lemma TailOf(
      stored: seq<PendingTransaction>, head: seq<PendingTransaction>, e: PendingTransaction,
        tail: seq<PendingTransaction>)
    requires SortedBy(stored, SubmittedInOrder()) && UniqueHashes(stored) && Around(stored, head, e, tail)
    ensures SortedBy(tail, SubmittedInOrder()) && UniqueHashes(tail)
    ensures forall t <- tail :: t.hash != e.hash && e.submittedAt <= t.submittedAt
  {
    var n := |head|;
    assert stored[n] == e && stored[n + 1..] == tail;
    forall t | t in tail ensures t.hash != e.hash && e.submittedAt <= t.submittedAt {
      var k :| 0 <= k < |tail| && tail[k] == t;
      assert stored[n + 1 + k] == t && SubmittedInOrder()(stored[n], stored[n + 1 + k]);
    }
    forall j, k | 0 <= j < k < |tail|
      ensures SubmittedInOrder()(tail[j], tail[k]) && tail[j].hash != tail[k].hash
    {
      assert stored[n + 1 + j] == tail[j] && stored[n + 1 + k] == tail[k];
      assert SubmittedInOrder()(stored[n + 1 + j], stored[n + 1 + k]);
    }
  }

  lemma FilterKeepsHeld(stored: seq<PendingTransaction>, keep: PendingTransaction -> bool, r: PendingTransaction,
                        tail: seq<PendingTransaction>)
    requires HeldBefore(stored, r, tail) && forall e: PendingTransaction | StillPendingAs(e, r) :: keep(e)
    ensures HeldBefore(Filter(stored, keep), r, Filter(tail, keep))
  {
    hide Filter;
    var head, e :| Around(stored, head, e, tail) && StillPendingAs(e, r);
    FilterAppend(head + [e], tail, keep);
    FilterPush(head, e, keep);
    assert Around(Filter(stored, keep), Filter(head, keep), e, Filter(tail, keep));
  }

  /** Inserting among sorted records moves `r`'s tail only if the new record is not older. */
  lemma InsertKeepsHeld(rest: seq<PendingTransaction>, other: PendingTransaction, r: PendingTransaction,
                        tail: seq<PendingTransaction>)
    requires SortedBy(rest, SubmittedInOrder()) && UniqueHashes(rest) && HeldBefore(rest, r, tail)
    ensures HeldBefore(InsertAfter(rest, other, SubmittedInOrder()), r,
                       if other.submittedAt < r.submittedAt then tail else InsertAfter(tail, other, SubmittedInOrder()))
  {
    hide InsertAfter, UniqueHashes, SortedBy;
    var le := SubmittedInOrder();
    var head, e :| Around(rest, head, e, tail) && StillPendingAs(e, r);
    TailOf(rest, head, e, tail);
    if other.submittedAt < r.submittedAt {
      assert rest == head + ([e] + tail);
      InsertAhead(head, [e] + tail, other, le);
      assert Around(InsertAfter(rest, other, le), InsertAfter(head, other, le), e, tail);
    } else {
      InsertBehind(head + [e], tail, other, le);
      assert Around(InsertAfter(rest, other, le), head, e, InsertAfter(tail, other, le));
    }
  }

  /** The cap keeps `r` exactly when fewer than `n` records stand behind it. */
  lemma CapKeepsHeld(records: seq<PendingTransaction>, r: PendingTransaction, tail: seq<PendingTransaction>, n: nat)
    requires SortedBy(records, SubmittedInOrder()) && UniqueHashes(records) && HeldBefore(records, r, tail)
    ensures |tail| < n ==> HeldBefore(LastN(records, n), r, tail)
    ensures |tail| >= n ==> Gone(LastN(records, n), r.hash)
  {
    var head, e :| Around(records, head, e, tail) && StillPendingAs(e, r);
    TailOf(records, head, e, tail);
    hide UniqueHashes, SortedBy;
    var cut := |records| - |LastN(records, n)|;
    if |tail| < n {
      assert Around(LastN(records, n), head[cut..], e, tail);
    } else {
      assert LastN(records, n) == tail[|tail| - n..];
    }
  }

  lemma AddKeepsHeld(stored: seq<PendingTransaction>, other: PendingTransaction, r: PendingTransaction,
                     tail: seq<PendingTransaction>)
    requires WellKept(stored) && HeldBefore(stored, r, tail)
    requires IsPendingTransactionType(r.txType) && other.hash != r.hash
    ensures var tail' := UncappedOp(tail, AmongNewer(Add(other), r));
            && (|tail'| < PENDING_TX_MAX ==> HeldBefore(AddPendingTx(stored, other), r, tail'))
            && (|tail'| >= PENDING_TX_MAX ==> Gone(AddPendingTx(stored, other), r.hash))
  {
    hide Filter, InsertAfter, Sort;
    AddIsInsert(stored, other);
    var head, e :| Around(stored, head, e, tail) && StillPendingAs(e, r);
    TailOf(stored, head, e, tail);
    hide Around, StillPendingAs;
    FilterKeepsHeld(stored, Accepted(), r, tail);
    var keep := HashIsNot(other.hash);
    var rest, restTail := Filter(ReadPendingTxs(stored), keep), Filter(ReadPendingTxs(tail), keep);
    FilterKeepsHeld(ReadPendingTxs(stored), keep, r, ReadPendingTxs(tail));
    FilterKeepsShape(tail, Accepted());
    FilterKeepsShape(ReadPendingTxs(tail), keep);
    InsertKeepsHeld(rest, other, r, restTail);
    SortOfSortedAppend(restTail, other, SubmittedInOrder());
    InsertKeepsUnique(rest, other);
    SubmissionOrderIsTotal();
    InsertAfterSorted(rest, other, SubmittedInOrder());
    CapKeepsHeld(InsertAfter(rest, other, SubmittedInOrder()), r, UncappedOp(tail, AmongNewer(Add(other), r)),
                 PENDING_TX_MAX);
  }

  lemma UpdateKeepsHeld(stored: seq<PendingTransaction>, hash: string, patch: Patch, r: PendingTransaction,
                        tail: seq<PendingTransaction>)
    requires HeldBefore(stored, r, tail) && Harmless(Update(hash, patch), r) && IsPendingTransactionType(r.txType)
    ensures HeldBefore(UpdatePendingTx(stored, hash, patch), r, UpdatePendingTx(tail, hash, patch))
  {
    hide Filter, PatchAll;
    FilterKeepsHeld(stored, Accepted(), r, tail);
    var read, readTail := ReadPendingTxs(stored), ReadPendingTxs(tail);
    var head, e :| Around(read, head, e, readTail) && StillPendingAs(e, r);
    PatchSplits(read, head, e, readTail, hash, patch);
  }

  lemma PatchSplits(records: seq<PendingTransaction>, head: seq<PendingTransaction>, e: PendingTransaction,
                    tail: seq<PendingTransaction>, hash: string, patch: Patch)
    requires Around(records, head, e, tail)
    ensures Around(PatchAll(records, hash, patch), PatchAll(head, hash, patch), Patched(e, hash, patch),
            PatchAll(tail, hash, patch))
  {
  }

  lemma HarmlessStep(stored: seq<PendingTransaction>, op: TrackerOp, r: PendingTransaction,
                     tail: seq<PendingTransaction>)
    requires WellKept(stored) && Harmless(op, r) && IsPendingTransactionType(r.txType)
    requires HeldBefore(stored, r, tail)
    ensures var tail' := UncappedOp(tail, AmongNewer(op, r));
            && (|tail'| < PENDING_TX_MAX ==> HeldBefore(ApplyOp(stored, op), r, tail'))
            && (|tail'| >= PENDING_TX_MAX ==> Gone(ApplyOp(stored, op), r.hash))
  {
    hide Filter, AddPendingTx, UpdatePendingTx, CleanupPendingTxs, HeldBefore;
    if op.Add? {
      AddKeepsHeld(stored, op.record, r, tail);
    } else {
      HeldTailIsShort(stored, r, tail);
      FilterKeepsHeld(stored, Accepted(), r, tail);
      match op
      case Remove(hash) => FilterKeepsHeld(ReadPendingTxs(stored), HashIsNot(hash), r, ReadPendingTxs(tail));
      case Update(hash, patch) =>
        UpdateKeepsHeld(stored, hash, patch, r, tail);
        UpdateIsNoLonger(tail, hash, patch);
      case Cleanup(now) =>
        CleanupOnlyAges(stored, now);
        FilterKeepsHeld(ReadPendingTxs(stored), YoungAt(now), r, ReadPendingTxs(tail));
    }
  }

  lemma HeldTailIsShort(stored: seq<PendingTransaction>, r: PendingTransaction, tail: seq<PendingTransaction>)
    requires WellKept(stored) && HeldBefore(stored, r, tail)
    ensures |tail| < PENDING_TX_MAX
  {
  }

  lemma UpdateIsNoLonger(records: seq<PendingTransaction>, hash: string, patch: Patch)
    ensures |UpdatePendingTx(records, hash, patch)| <= |records|
  {
  }

  lemma GoneStays(stored: seq<PendingTransaction>, op: TrackerOp, r: PendingTransaction)
    requires WellKept(stored) && Harmless(op, r) && Gone(stored, r.hash)
    ensures Gone(ApplyOp(stored, op), r.hash)
  {
    match op
    case Add(other) =>
      AddIsInsert(stored, other);
      InsertAfterMembers(Filter(ReadPendingTxs(stored), HashIsNot(other.hash)), other, SubmittedInOrder());
    case Remove(_) =>
    case Update(_, _) =>
    case Cleanup(now) => CleanupOnlyAges(stored, now);
  }

  /** In a sorted list a new record goes before exactly the later ones. */
  lemma {:induction false} InsertSplits(rest: seq<PendingTransaction>, r: PendingTransaction)
    requires SortedBy(rest, SubmittedInOrder()) && r.status == Pending
    ensures HeldBefore(InsertAfter(rest, r, SubmittedInOrder()), r, Filter(rest, SubmittedAfter(r)))
  {
    hide Filter, InsertAfter;
    var le, later := SubmittedInOrder(), SubmittedAfter(r);
    var all := InsertAfter(rest, r, le);
    if rest == [] {
      InsertIntoNothing(r);
      FilterNone(rest, later);
      assert Around(all, [], r, []);
    } else {
      var init, last := rest[..|rest| - 1], rest[|rest| - 1];
      assert rest == init + [last];
      BeforeLast(init, last, le);
      if last.submittedAt <= r.submittedAt {
        FilterNone(rest, later);
        assert rest + [] == rest;
        InsertBehind(rest, [], r, le);
        InsertIntoNothing(r);
        assert Around(all, rest, r, []);
      } else {
        InsertSplits(init, r);
        FilterPush(init, last, later);
        InsertAhead(init, [last], r, le);
        var head, e :| Around(InsertAfter(init, r, le), head, e, Filter(init, later)) && StillPendingAs(e, r);
        assert Around(all, head, e, Filter(init, later) + [last]);
      }
    }
  }

  lemma InsertIntoNothing(r: PendingTransaction)
    ensures InsertAfter([], r, SubmittedInOrder()) == [r]
  {
  }

  lemma AddHolds(stored: seq<PendingTransaction>, r: PendingTransaction)
    requires WellKept(stored) && r.status == Pending
    ensures |Newer(stored, r, [])| < PENDING_TX_MAX ==> HeldBefore(AddPendingTx(stored, r), r, Newer(stored, r, []))
    ensures |Newer(stored, r, [])| >= PENDING_TX_MAX ==> Gone(AddPendingTx(stored, r), r.hash)
  {
    hide Filter, InsertAfter;
    AddIsInsert(stored, r);
    var rest := Filter(ReadPendingTxs(stored), HashIsNot(r.hash));
    InsertSplits(rest, r);
    InsertKeepsUnique(rest, r);
    SubmissionOrderIsTotal();
    InsertAfterSorted(rest, r, SubmittedInOrder());
    CapKeepsHeld(InsertAfter(rest, r, SubmittedInOrder()), r, Newer(stored, r, []), PENDING_TX_MAX);
  }

  /** While `r` is never crowded out it stands before the newer records; once it is, its hash is gone for good. */
  lemma {:induction false} HeldOrGone(stored: seq<PendingTransaction>, r: PendingTransaction, ops: seq<TrackerOp>)
    requires WellKept(stored) && IsPendingTransactionType(r.txType) && r.status == Pending
    requires forall op <- ops :: Harmless(op, r)
    ensures var now := RunOps(AddPendingTx(stored, r), ops);
            if NeverCrowded(stored, r, ops) then HeldBefore(now, r, Newer(stored, r, ops)) else Gone(now, r.hash)
  {
    hide AddPendingTx, HeldBefore, UncappedOp, Gone, ApplyOp, Harmless;
    if ops == [] {
      AddHolds(stored, r);
    } else {
      var init, last := ops[..|ops| - 1], ops[|ops| - 1];
      HeldOrGone(stored, r, init);
      AddKeepsShape(stored, r);
      TrackerStaysWellKept(AddPendingTx(stored, r), init);
      var before := RunOps(AddPendingTx(stored, r), init);
      if NeverCrowded(stored, r, init) {
        HarmlessStep(before, last, r, Newer(stored, r, init));
      } else {
        GoneStays(before, last, r);
      }
    }
  }

  lemma HeldMeansHolds(stored: seq<PendingTransaction>, r: PendingTransaction, tail: seq<PendingTransaction>)
    ensures HeldBefore(stored, r, tail) ==> Holds(stored, r)
    ensures Gone(stored, r.hash) ==> !Holds(stored, r)
  {
  }

  /**
   * A record of an accepted type that nothing settles, removes or ages out is kept exactly as long as at
   * no moment ten live records are newer; older, replaced and removed ones do not count.
   */
  lemma KeptExactlyWhile(stored: seq<PendingTransaction>, r: PendingTransaction, ops: seq<TrackerOp>)
    requires WellKept(stored) && IsPendingTransactionType(r.txType) && r.status == Pending
    requires forall op <- ops :: Harmless(op, r)
    ensures Holds(RunOps(AddPendingTx(stored, r), ops), r) <==> NeverCrowded(stored, r, ops)
  {
    hide HeldBefore, Holds, Gone, RunOps, NeverCrowded;
    HeldOrGone(stored, r, ops);
    HeldMeansHolds(RunOps(AddPendingTx(stored, r), ops), r, Newer(stored, r, ops));
  }

  /** The hashes that were ever newer than `r`. */
  function NewerHashes(stored: seq<PendingTransaction>, r: PendingTransaction, ops: seq<TrackerOp>): set<string> {
    if ops == [] then set e | e in stored && e.submittedAt > r.submittedAt :: e.hash
    else
      var before, op := NewerHashes(stored, r, ops[..|ops| - 1]), ops[|ops| - 1];
      if op.Add? && op.record.submittedAt >= r.submittedAt then before + {op.record.hash} else before
  }

  lemma {:induction false} DistinctFit(records: seq<PendingTransaction>, hashes: set<string>)
    requires UniqueHashes(records) && forall e <- records :: e.hash in hashes
    ensures |records| <= |hashes|
  {
    if records != [] {
      var init, last := records[..|records| - 1], records[|records| - 1];
      assert last in records;
      forall e | e in init ensures e.hash in hashes - {last.hash} {
        var i :| 0 <= i < |init| && init[i] == e;
        assert records[i].hash != records[|records| - 1].hash;
      }
      DistinctFit(init, hashes - {last.hash});
    }
  }

  lemma {:induction false} NewerAreDistinct(stored: seq<PendingTransaction>, r: PendingTransaction, ops: seq<TrackerOp>)
    requires WellKept(stored)
    ensures var newer := Newer(stored, r, ops);
            && SortedBy(newer, SubmittedInOrder()) && UniqueHashes(newer)
            && forall e <- newer :: e.hash in NewerHashes(stored, r, ops)
  {
    hide Filter, Sort, UpdatePendingTx;
    if ops == [] {
      FilterKeepsShape(stored, Accepted());
      FilterKeepsShape(ReadPendingTxs(stored), HashIsNot(r.hash));
      FilterKeepsShape(Filter(ReadPendingTxs(stored), HashIsNot(r.hash)), SubmittedAfter(r));
    } else {
      var init, op := ops[..|ops| - 1], AmongNewer(ops[|ops| - 1], r);
      NewerAreDistinct(stored, r, init);
      UncappedKeepsShape(Newer(stored, r, init), op);
    }
  }

  lemma UncappedKeepsShape(records: seq<PendingTransaction>, op: TrackerOp)
    requires SortedBy(records, SubmittedInOrder()) && UniqueHashes(records)
    ensures SortedBy(UncappedOp(records, op), SubmittedInOrder()) && UniqueHashes(UncappedOp(records, op))
    ensures forall e <- UncappedOp(records, op) ::
              (exists f <- records :: f.hash == e.hash) || (op.Add? && e.hash == op.record.hash)
  {
    hide Filter, Sort;
    FilterKeepsShape(records, Accepted());
    var read := ReadPendingTxs(records);
    match op
    case Add(record) =>
      var rest := Filter(read, HashIsNot(record.hash));
      FilterKeepsShape(read, HashIsNot(record.hash));
      SortOfSortedAppend(rest, record, SubmittedInOrder());
      SubmissionOrderIsTotal();
      InsertAfterSorted(rest, record, SubmittedInOrder());
      InsertKeepsUnique(rest, record);
      InsertAfterMembers(rest, record, SubmittedInOrder());
    case Remove(hash) => FilterKeepsShape(read, HashIsNot(hash));
    case Update(hash, patch) => PatchKeepsShape(read, records, hash, patch);
    case Cleanup(now) => FilterKeepsShape(read, YoungAt(now));
  }

  lemma PatchKeepsShape(read: seq<PendingTransaction>, records: seq<PendingTransaction>, hash: string, patch: Patch)
    requires read == ReadPendingTxs(records) && SortedBy(read, SubmittedInOrder()) && UniqueHashes(read)
    ensures var updated := UpdatePendingTx(records, hash, patch);
            && SortedBy(updated, SubmittedInOrder()) && UniqueHashes(updated)
            && forall e <- updated :: exists f <- records :: f.hash == e.hash
  {
    hide Filter;
    var updated := UpdatePendingTx(records, hash, patch);
    assert forall i, j | 0 <= i < j < |read| :: SubmittedInOrder()(read[i], read[j]);
    forall e | e in updated ensures exists f <- records :: f.hash == e.hash {
      var i :| 0 <= i < |updated| && updated[i] == e;
      assert read[i] in records && read[i].hash == e.hash;
    }
  }

  /** Fewer than ten distinct newer hashes can never crowd a record out. */
  lemma {:induction false} FewNewerHashes(stored: seq<PendingTransaction>, r: PendingTransaction, ops: seq<TrackerOp>)
    requires WellKept(stored) && |NewerHashes(stored, r, ops)| < 10
    ensures NeverCrowded(stored, r, ops)
  {
    NewerAreDistinct(stored, r, ops);
    hide Newer, WellKept;
    DistinctFit(Newer(stored, r, ops), NewerHashes(stored, r, ops));
    if ops != [] {
      MoreHashes(stored, r, ops);
      FewNewerHashes(stored, r, ops[..|ops| - 1]);
    }
  }

  lemma MoreHashes(stored: seq<PendingTransaction>, r: PendingTransaction, ops: seq<TrackerOp>)
    requires ops != []
    ensures |NewerHashes(stored, r, ops[..|ops| - 1])| <= |NewerHashes(stored, r, ops)|
  {
    var before, op := NewerHashes(stored, r, ops[..|ops| - 1]), ops[|ops| - 1];
    if op.Add? && op.record.hash !in before {
      assert |before + {op.record.hash}| == |before| + 1;
    } else if op.Add? {
      assert before + {op.record.hash} == before;
    }
  }

  /**
   * A recorded broadcast of an accepted type stays findable under its pool and type for as long as it is
   * pending, at most two minutes old and never crowded out by ten live newer records.
   */
  lemma RecordedStaysFindable(
      stored: seq<PendingTransaction>, r: PendingTransaction, ops: seq<TrackerOp>, poolId: string, now: int)
    requires WellKept(stored) && IsPendingTransactionType(r.txType) && r.status == Pending
    requires (forall op <- ops :: Harmless(op, r)) && NeverCrowded(stored, r, ops)
    requires SamePool(r.poolId, poolId) && now - r.submittedAt <= 120_000
    ensures FindRecentPendingTx(RunOps(AddPendingTx(stored, r), ops), poolId, r.txType, now).Some?
  {
    hide NeverCrowded, RunOps, AddPendingTx, FindRecentPendingTx, WellKept, Harmless, SamePool;
    KeptExactlyWhile(stored, r, ops);
    var final := RunOps(AddPendingTx(stored, r), ops);
    var e :| e in final && StillPendingAs(e, r);
    assert InFlight(e, poolId, r.txType, now);
    FindRecentIsExact(final, poolId, r.txType, now);
  }
}
