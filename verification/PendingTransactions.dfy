/**
 * The per-wallet list of submitted transactions and its reconciliation against the chain: each
 * record is looked up, and removed and reported once its fate is known.
 */
module PendingTransactions {
  import opened Prelude
  import opened Sorting

  const DROPPED_TX_WINDOW_MS := 300_000

  datatype RecordType = Deposit | Withdraw | TriggerPayout | SetSupportedTokens

  datatype Record = Record(hash: string, recordType: RecordType, poolId: string, submittedAt: int,
                           amount: Option<string>)

  datatype ChainStatus = SUCCESS | FAILED | NOT_FOUND | OTHER

  datatype Reply = Answer(status: ChainStatus, resultXdr: Option<string>, errorResultXdr: Option<string>) | Threw

  datatype Reason = FromXdr(xdr: string) | Unstated

  datatype Fate = Succeeded | Failed(reason: Reason) | Dropped

  datatype RecoveryOutcome = RecoveryOutcome(record: Record, fate: Fate)

  type Query = string -> Reply

  function HashOf(): Record -> string { (r: Record) => r.hash }

  function HashIsNot(hash: string): Record -> bool { (r: Record) => r.hash != hash }

  function SubmittedInOrder(): (Record, Record) -> bool {
    (a: Record, b: Record) => a.submittedAt <= b.submittedAt
  }

  function AddRecord(stored: seq<Record>, r: Record): seq<Record> {
    Filter(stored, HashIsNot(r.hash)) + [r]
  }

  function RemoveRecord(stored: seq<Record>, hash: string): seq<Record> {
    Filter(stored, HashIsNot(hash))
  }

  /** What a reply settles about a record, if anything. */
  function FateOf(r: Record, reply: Reply, now: int): Option<Fate> {
    if reply.Threw? then None
    else
      match reply.status
      case SUCCESS => Some(Succeeded)
      case FAILED =>
        Some(Failed(if reply.errorResultXdr.Some? then FromXdr(reply.errorResultXdr.value)
                    else if reply.resultXdr.Some? then FromXdr(reply.resultXdr.value) else Unstated))
      case NOT_FOUND => if now - r.submittedAt >= DROPPED_TX_WINDOW_MS then Some(Dropped) else None
      case OTHER => None
  }

  datatype Scan = Scan(stored: seq<Record>, outcomes: seq<RecoveryOutcome>, threw: bool)

  /** The loop of `reconcilePendingTransactions` over the records still to be queried. */
  function ScanFrom(stored: seq<Record>, todo: seq<Record>, query: Query, now: int): Scan
    decreases todo
  {
    if todo == [] then Scan(stored, [], false)
    else
      var r := todo[0];
      var reply := query(r.hash);
      if reply.Threw? then Scan(stored, [], true)
      else
        var fate := FateOf(r, reply, now);
        if fate.None? then ScanFrom(stored, todo[1..], query, now)
        else
          var rest := ScanFrom(RemoveRecord(stored, r.hash), todo[1..], query, now);
          rest.(outcomes := [RecoveryOutcome(r, fate.value)] + rest.outcomes)
  }

  function Reconcile(stored: seq<Record>, query: Query, now: int): Scan {
    ScanFrom(stored, Sort(stored, SubmittedInOrder()), query, now)
  }

  /** A throwing scan's outcomes are lost with the exception. */
  function Reported(s: Scan): seq<RecoveryOutcome> {
    if s.threw then [] else s.outcomes
  }

  // ---- What a scan amounts to ----

  /** The reply settles a record of that age: it succeeded, failed, or is missing for five minutes. */
  predicate Settles(reply: Reply, age: int) {
    && reply.Answer?
    && (reply.status == SUCCESS || reply.status == FAILED || (reply.status == NOT_FOUND && age >= 300_000))
  }

  /** `fate` is what the reply says about a record of that age. */
  ghost predicate Says(reply: Reply, age: int, fate: Fate) {
    && reply.Answer?
    && match fate
       case Succeeded => reply.status == SUCCESS
       case Failed(reason) => reply.status == FAILED && Explains(reply, reason)
       case Dropped => reply.status == NOT_FOUND && age >= 300_000
  }

  /** The error's result if there is one, else the transaction's, else nothing stated. */
  ghost predicate Explains(reply: Reply, reason: Reason)
    requires reply.Answer?
  {
    match reason
    case FromXdr(xdr) =>
      reply.errorResultXdr == Some(xdr) || (reply.errorResultXdr == None && reply.resultXdr == Some(xdr))
    case Unstated => reply.errorResultXdr == None && reply.resultXdr == None
  }

  lemma FateMeans(r: Record, reply: Reply, now: int)
    ensures FateOf(r, reply, now).Some? <==> Settles(reply, now - r.submittedAt)
    ensures FateOf(r, reply, now).Some? ==> Says(reply, now - r.submittedAt, FateOf(r, reply, now).value)
  {
  }

  lemma SaysOneThing(reply: Reply, age: int, fate: Fate, other: Fate)
    requires Says(reply, age, fate) && Says(reply, age, other)
    ensures fate == other
  {
  }

  function Settled(query: Query, now: int): Record -> bool {
    (r: Record) => Settles(query(r.hash), now - r.submittedAt)
  }

  function Unsettled(query: Query, now: int): Record -> bool {
    (r: Record) => !Settles(query(r.hash), now - r.submittedAt)
  }

  /** Every outcome is what the chain said about its record. */
  ghost predicate AllSaid(outcomes: seq<RecoveryOutcome>, query: Query, now: int) {
    forall o <- outcomes :: Says(query(o.record.hash), now - o.record.submittedAt, o.fate)
  }

  function RecordsOf(outcomes: seq<RecoveryOutcome>): seq<Record> {
    seq(|outcomes|, i requires 0 <= i < |outcomes| => outcomes[i].record)
  }

  /** How many of `todo` are queried before one throws. */
  function Answered(todo: seq<Record>, query: Query): (n: nat)
    ensures n <= |todo|
  {
    if todo == [] || query(todo[0].hash).Threw? then 0 else 1 + Answered(todo[1..], query)
  }

  /** Kept by a scan: not the hash of a settled record it reached. */
  function KeptAfter(reached: seq<Record>, query: Query, now: int): Record -> bool {
    (r: Record) => forall t <- reached :: Settled(query, now)(t) ==> t.hash != r.hash
  }

  /** One turn of the scan's loop. */
  lemma ScanStep(stored: seq<Record>, todo: seq<Record>, query: Query, now: int)
    requires todo != []
    ensures var r, rest, reply, s := todo[0], todo[1..], query(todo[0].hash), ScanFrom(stored, todo, query, now);
            if reply.Threw? then s == Scan(stored, [], true)
            else if FateOf(r, reply, now).None? then s == ScanFrom(stored, rest, query, now)
            else
              var next := ScanFrom(RemoveRecord(stored, r.hash), rest, query, now);
              s == next.(outcomes := [RecoveryOutcome(r, FateOf(r, reply, now).value)] + next.outcomes)
  {
  }

  lemma ScanEnds(stored: seq<Record>, query: Query, now: int)
    ensures ScanFrom(stored, [], query, now) == Scan(stored, [], false)
  {
  }

  lemma {:induction false} ScanSays(stored: seq<Record>, todo: seq<Record>, query: Query, now: int)
    ensures AllSaid(ScanFrom(stored, todo, query, now).outcomes, query, now)
    decreases todo
  {
    hide ScanFrom, FateOf, Says, RemoveRecord;
    if todo == [] {
      ScanEnds(stored, query, now);
    } else {
      var r, rest := todo[0], todo[1..];
      ScanStep(stored, todo, query, now);
      FateMeans(r, query(r.hash), now);
      ScanSays(stored, rest, query, now);
      ScanSays(RemoveRecord(stored, r.hash), rest, query, now);
    }
  }

  lemma RecordsFront(o: RecoveryOutcome, rest: seq<RecoveryOutcome>)
    ensures RecordsOf([o] + rest) == [o.record] + RecordsOf(rest)
  {
  }

  /** With a first record answered, the records reached are it and those reached after it. */
  lemma ReachedStep(todo: seq<Record>, query: Query)
    requires todo != [] && query(todo[0].hash).Answer?
    ensures Answered(todo, query) == 1 + Answered(todo[1..], query)
    ensures todo[..Answered(todo, query)] == [todo[0]] + todo[1..][..Answered(todo[1..], query)]
  {
  }

  lemma KeptStep(stored: seq<Record>, r: Record, reached: seq<Record>, query: Query, now: int)
    ensures Filter(stored, KeptAfter([r] + reached, query, now)) ==
            Filter(if Settled(query, now)(r) then RemoveRecord(stored, r.hash) else stored,
                   KeptAfter(reached, query, now))
  {
    hide Filter, Settles;
    var before, after := KeptAfter(reached, query, now), KeptAfter([r] + reached, query, now);
    if Settled(query, now)(r) {
      FilterTwice(stored, HashIsNot(r.hash), before, after);
    } else {
      FilterSame(stored, before, after);
    }
  }

  lemma SettledStep(r: Record, reached: seq<Record>, query: Query, now: int)
    ensures Filter([r] + reached, Settled(query, now)) ==
            (if Settled(query, now)(r) then [r] else []) + Filter(reached, Settled(query, now))
  {
    FilterAppend([r], reached, Settled(query, now));
    assert [r][..0] == [];
  }

  lemma NothingReached(stored: seq<Record>, query: Query, now: int)
    ensures Filter(stored, KeptAfter([], query, now)) == stored
    ensures Filter<Record>([], Settled(query, now)) == [] && RecordsOf([]) == []
  {
    FilterAll(stored, KeptAfter([], query, now));
  }

  /**
   * One scan in closed form. It handles the records up to the first query that throws; it keeps the
   * stored list but for the settled ones among those; the outcomes are those, in query order, each being
   * what the chain said.
   */
  lemma {:induction false} ScanMeans(stored: seq<Record>, todo: seq<Record>, query: Query, now: int)
    ensures var s, reached := ScanFrom(stored, todo, query, now), todo[..Answered(todo, query)];
            && s.stored == Filter(stored, KeptAfter(reached, query, now))
            && RecordsOf(s.outcomes) == Filter(reached, Settled(query, now))
            && (s.threw <==> Answered(todo, query) < |todo|)
            && AllSaid(s.outcomes, query, now)
    decreases todo
  {
    hide FateOf, Filter, Settles, AllSaid, RecordsOf, KeptAfter;
    ScanSays(stored, todo, query, now);
    NothingReached(stored, query, now);
    if todo != [] && query(todo[0].hash).Answer? {
      hide ScanFrom, Answered;
      var r, rest := todo[0], todo[1..];
      var reached, fate := rest[..Answered(rest, query)], FateOf(r, query(r.hash), now);
      ReachedStep(todo, query);
      ScanStep(stored, todo, query, now);
      FateMeans(r, query(r.hash), now);
      KeptStep(stored, r, reached, query, now);
      SettledStep(r, reached, query, now);
      if fate.Some? {
        ScanMeans(RemoveRecord(stored, r.hash), rest, query, now);
        RecordsFront(RecoveryOutcome(r, fate.value), ScanFrom(RemoveRecord(stored, r.hash), rest, query, now).outcomes);
      } else {
        ScanMeans(stored, rest, query, now);
        assert [] + Filter(reached, Settled(query, now)) == Filter(reached, Settled(query, now));
      }
    } else {
      assert todo[..0] == [];
    }
  }

  lemma {:induction false} FilterSame<T>(xs: seq<T>, p: T -> bool, q: T -> bool)
    requires forall x <- xs :: p(x) <==> q(x)
    ensures Filter(xs, p) == Filter(xs, q)
  {
    if xs != [] {
      FilterSame(xs[..|xs| - 1], p, q);
    }
  }

  /** Sorting first, the records up to the first throwing query, in the order they are queried. */
  function Reached(stored: seq<Record>, query: Query): seq<Record> {
    var sorted := Sort(stored, SubmittedInOrder());
    sorted[..Answered(sorted, query)]
  }

  lemma SubmissionOrderIsTotal()
    ensures TotalPreorder(SubmittedInOrder())
  {
  }

  /** With unique hashes a stored record is dropped exactly when it was reached and settled. */
  lemma KeptExactly(stored: seq<Record>, query: Query, now: int, r: Record)
    requires UniqueBy(stored, HashOf()) && r in stored
    ensures KeptAfter(Reached(stored, query), query, now)(r) <==>
            !(r in Reached(stored, query) && Settled(query, now)(r))
  {
    hide Settles, Says;
    var reached := Reached(stored, query);
    SortMembers(stored, SubmittedInOrder());
    if !KeptAfter(reached, query, now)(r) {
      var t :| t in reached && Settled(query, now)(t) && t.hash == r.hash;
      UniqueMeansSame(stored, HashOf(), t, r);
    }
  }

  /**
   * A scan in which no query throws. The outcomes, one per settled record and in submission order,
   * and the records left in storage together are exactly the records it began with; those left
   * keep their stored order.
   */
  lemma ReconcileConserves(stored: seq<Record>, query: Query, now: int)
    requires UniqueBy(stored, HashOf())
    requires !Reconcile(stored, query, now).threw
    ensures var s := Reconcile(stored, query, now);
            && multiset(RecordsOf(s.outcomes)) + multiset(s.stored) == multiset(stored)
            && s.stored == Filter(stored, Unsettled(query, now))
            && RecordsOf(s.outcomes) == Filter(Sort(stored, SubmittedInOrder()), Settled(query, now))
            && (forall i, j | 0 <= i < j < |s.outcomes| ::
                  s.outcomes[i].record.submittedAt <= s.outcomes[j].record.submittedAt)
            && AllSaid(s.outcomes, query, now)
  {
    hide Settles, Says, ScanFrom, Filter, Sort, Answered;
    var sorted := Sort(stored, SubmittedInOrder());
    ScanMeans(stored, sorted, query, now);
    var reached := sorted[..Answered(sorted, query)];
    assert reached == sorted;
    SortMembers(stored, SubmittedInOrder());
    forall r | r in stored
      ensures KeptAfter(reached, query, now)(r) <==> Unsettled(query, now)(r)
    {
      KeptExactly(stored, query, now, r);
      assert reached == Reached(stored, query) && r in sorted;
      assert Unsettled(query, now)(r) <==> !Settled(query, now)(r);
    }
    FilterSame(stored, KeptAfter(reached, query, now), Unsettled(query, now));
    SortPermutes(stored, SubmittedInOrder());
    FilterPermutes(sorted, stored, Settled(query, now));
    FilterSplitsMultiset(stored, Unsettled(query, now), Settled(query, now));
    SubmissionOrderIsTotal();
    SortSorts(stored, SubmittedInOrder());
    FilterKeepsSorted(sorted, Settled(query, now), SubmittedInOrder());
    OldestFirst(Reconcile(stored, query, now).outcomes);
  }

  lemma OldestFirst(outcomes: seq<RecoveryOutcome>)
    requires SortedBy(RecordsOf(outcomes), SubmittedInOrder())
    ensures forall i, j | 0 <= i < j < |outcomes| ::
              outcomes[i].record.submittedAt <= outcomes[j].record.submittedAt
  {
    forall i, j | 0 <= i < j < |outcomes|
      ensures outcomes[i].record.submittedAt <= outcomes[j].record.submittedAt
    {
      assert SubmittedInOrder()(RecordsOf(outcomes)[i], RecordsOf(outcomes)[j]);
    }
  }

  /**
   * What becomes of each record in a scan in which no query throws. It is reported succeeded, failed or
   * dropped exactly when that is what the chain said, a failure with its reason, and kept exactly when the
   * chain said nothing that settles it.
   */
  lemma EachRecordAsSaid(stored: seq<Record>, query: Query, now: int, r: Record, fate: Fate)
    requires UniqueBy(stored, HashOf()) && r in stored
    requires !Reconcile(stored, query, now).threw
    ensures var s := Reconcile(stored, query, now);
            && (RecoveryOutcome(r, fate) in s.outcomes <==> Says(query(r.hash), now - r.submittedAt, fate))
            && (r in s.stored <==> !Settles(query(r.hash), now - r.submittedAt))
  {
    hide Reconcile, Filter, Sort, UniqueBy;
    ReconcileConserves(stored, query, now);
    SortMembers(stored, SubmittedInOrder());
    var s, reply, age := Reconcile(stored, query, now), query(r.hash), now - r.submittedAt;
    assert Unsettled(query, now)(r) <==> !Settles(reply, age);
    if Says(reply, age, fate) {
      assert Settled(query, now)(r) && r in Sort(stored, SubmittedInOrder());
      assert r in RecordsOf(s.outcomes);
      var i :| 0 <= i < |s.outcomes| && RecordsOf(s.outcomes)[i] == r;
      assert s.outcomes[i] in s.outcomes;
      SaysOneThing(reply, age, s.outcomes[i].fate, fate);
    }
  }

  /**
   * A scan in which some query throws reports nothing, though it has already removed what it settled
   * before: records are lost exactly when one was settled ahead of the throwing query.
   */
  lemma ThrowingScanLoses(stored: seq<Record>, query: Query, now: int)
    requires UniqueBy(stored, HashOf())
    requires Reconcile(stored, query, now).threw
    ensures var s := Reconcile(stored, query, now);
            && Reported(s) == []
            && s.stored == Filter(stored, KeptAfter(Reached(stored, query), query, now))
            && (s.stored == stored <==> forall r <- Reached(stored, query) :: !Settled(query, now)(r))
  {
    hide Settles, Says, ScanFrom, Sort, Answered;
    var s, reached := Reconcile(stored, query, now), Reached(stored, query);
    ScanMeans(stored, Sort(stored, SubmittedInOrder()), query, now);
    SortMembers(stored, SubmittedInOrder());
    if r :| r in reached && Settled(query, now)(r) {
      KeptExactly(stored, query, now, r);
      assert r in stored && r !in s.stored;
    } else {
      FilterAll(stored, KeptAfter(reached, query, now));
    }
  }

  // ---- Many scans ----

  /** A scan waiting for the reply about the first record of `todo`. */
  datatype InFlight = InFlight(todo: seq<Record>, found: seq<RecoveryOutcome>, now: int)

  datatype History = History(stored: seq<Record>, scan: Option<InFlight>, reported: seq<RecoveryOutcome>)

  /** Each query is awaited, so adds and removals fall between the replies. */
  datatype Event = Add(record: Record) | Remove(hash: string) | StartScan(now: int) | Replied(reply: Reply)

  const NOTHING := History([], None, [])

  /** A scan with nothing left to query hands over its outcomes. */
  function Finish(h: History): History {
    if h.scan.Some? && h.scan.value.todo == [] then History(h.stored, None, h.reported + h.scan.value.found) else h
  }

  function HandleReply(h: History, reply: Reply): History
    requires h.scan.Some? && h.scan.value.todo != []
  {
    var s := h.scan.value;
    var r, rest := s.todo[0], s.todo[1..];
    if reply.Threw? then h.(scan := None)
    else
      var fate := FateOf(r, reply, s.now);
      if fate.None? then Finish(h.(scan := Some(s.(todo := rest))))
      else
        Finish(h.(stored := RemoveRecord(h.stored, r.hash),
                  scan := Some(InFlight(rest, s.found + [RecoveryOutcome(r, fate.value)], s.now))))
  }

  /** The recovery provider starts no scan while one is in flight. */
  function Step(h: History, e: Event): History {
    match e
    case Add(r) => h.(stored := AddRecord(h.stored, r))
    case Remove(hash) => h.(stored := RemoveRecord(h.stored, hash))
    case StartScan(now) =>
      if h.scan.Some? then h else Finish(h.(scan := Some(InFlight(Sort(h.stored, SubmittedInOrder()), [], now))))
    case Replied(reply) => if h.scan.None? || h.scan.value.todo == [] then h else HandleReply(h, reply)
  }

  function Run(events: seq<Event>): History {
    if events == [] then NOTHING else Step(Run(events[..|events| - 1]), events[|events| - 1])
  }

  /** A scan left to itself: `query` answers until it is over. */
  function Drive(h: History, query: Query): History
    decreases if h.scan.Some? then |h.scan.value.todo| else 0
  {
    if h.scan.None? || h.scan.value.todo == [] then h
    else Drive(HandleReply(h, query(h.scan.value.todo[0].hash)), query)
  }

  lemma {:induction false} DriveIsScan(h: History, query: Query)
    requires h.scan.Some?
    ensures var s := h.scan.value;
            var end := ScanFrom(h.stored, s.todo, query, s.now);
            Drive(Finish(h), query) ==
            History(end.stored, None, if end.threw then h.reported else h.reported + (s.found + end.outcomes))
    decreases |h.scan.value.todo|
  {
    hide FateOf, RemoveRecord;
    var s := h.scan.value;
    if s.todo == [] {
      assert s.found + [] == s.found;
    } else {
      var r, rest := s.todo[0], s.todo[1..];
      var reply := query(r.hash);
      if reply.Answer? {
        var fate := FateOf(r, reply, s.now);
        if fate.None? {
          DriveIsScan(h.(scan := Some(s.(todo := rest))), query);
        } else {
          var outcome := RecoveryOutcome(r, fate.value);
          var stored := RemoveRecord(h.stored, r.hash);
          DriveIsScan(h.(stored := stored, scan := Some(InFlight(rest, s.found + [outcome], s.now))), query);
          var more := ScanFrom(stored, rest, query, s.now).outcomes;
          assert s.found + ([outcome] + more) == (s.found + [outcome]) + more;
        }
      }
    }
  }

  /** A scan that nothing else falls into is `Reconcile`. */
  lemma UndisturbedScanIsReconcile(h: History, query: Query, now: int)
    requires h.scan.None?
    ensures var end := Reconcile(h.stored, query, now);
            Drive(Step(h, StartScan(now)), query) == History(end.stored, None, h.reported + Reported(end))
  {
    hide ScanFrom, Drive, Sort;
    var started := h.(scan := Some(InFlight(Sort(h.stored, SubmittedInOrder()), [], now)));
    DriveIsScan(started, query);
    var end := Reconcile(h.stored, query, now);
    assert [] + end.outcomes == end.outcomes && h.reported + [] == h.reported;
  }

  function AddsOf(hash: string): Event -> bool { (e: Event) => e.Add? && e.record.hash == hash }

  function ReportsOf(hash: string): RecoveryOutcome -> bool { (o: RecoveryOutcome) => o.record.hash == hash }

  predicate HasHash(records: seq<Record>, hash: string) { exists r <- records :: r.hash == hash }

  function Todo(h: History): seq<Record> {
    if h.scan.Some? then h.scan.value.todo else []
  }

  function Found(h: History): seq<RecoveryOutcome> {
    if h.scan.Some? then h.scan.value.found else []
  }

  /** How often `hash` was or will be reported, and whether it still may be. */
  function Mentions(h: History, hash: string): nat {
    |Filter(h.reported, ReportsOf(hash))| + |Filter(Found(h), ReportsOf(hash))|
    + if HasHash(h.stored, hash) || HasHash(Todo(h), hash) then 1 else 0
  }

  ghost predicate Distinct(h: History) {
    UniqueBy(h.stored, HashOf()) && UniqueBy(Todo(h), HashOf())
  }

  lemma FinishKeeps(h: History, hash: string)
    ensures Mentions(Finish(h), hash) == Mentions(h, hash)
    ensures Distinct(h) ==> Distinct(Finish(h))
  {
    hide Filter;
    if h.scan.Some? && h.scan.value.todo == [] {
      FilterAppend(h.reported, h.scan.value.found, ReportsOf(hash));
      FilterNone<RecoveryOutcome>([], ReportsOf(hash));
    }
  }

  lemma RemovedHash(stored: seq<Record>, removed: string, hash: string)
    ensures HasHash(RemoveRecord(stored, removed), hash) <==> hash != removed && HasHash(stored, hash)
  {
    hide Filter;
    if hash != removed && HasHash(stored, hash) {
      var r :| r in stored && r.hash == hash;
      assert HashIsNot(removed)(r) && r in RemoveRecord(stored, removed);
    }
  }

  lemma AddedHash(stored: seq<Record>, r: Record, hash: string)
    ensures HasHash(AddRecord(stored, r), hash) <==> hash == r.hash || HasHash(stored, hash)
  {
    hide Filter;
    RemovedHash(stored, r.hash, hash);
    var rest := Filter(stored, HashIsNot(r.hash));
    assert rest == RemoveRecord(stored, r.hash);
    if HasHash(rest, hash) {
      var e :| e in rest && e.hash == hash;
      assert e in rest + [r];
    }
    assert r in rest + [r];
  }

  lemma {:induction false} HandleReplyKeeps(h: History, reply: Reply, hash: string)
    requires Distinct(h) && h.scan.Some? && h.scan.value.todo != []
    ensures Distinct(HandleReply(h, reply)) && Mentions(HandleReply(h, reply), hash) <= Mentions(h, hash)
  {
    hide Filter, FateOf, Finish, RemoveRecord;
    var s := h.scan.value;
    var r, rest := s.todo[0], s.todo[1..];
    HeadHash(s.todo, hash);
    if reply.Threw? {
      FilterNone<RecoveryOutcome>([], ReportsOf(hash));
    } else {
      var fate := FateOf(r, reply, s.now);
      if fate.None? {
        FinishKeeps(h.(scan := Some(s.(todo := rest))), hash);
      } else {
        var outcome := RecoveryOutcome(r, fate.value);
        FilterPush(s.found, outcome, ReportsOf(hash));
        RemovedHash(h.stored, r.hash, hash);
        RemoveKeepsUnique(h.stored, r.hash);
        FinishKeeps(h.(stored := RemoveRecord(h.stored, r.hash),
                       scan := Some(InFlight(rest, s.found + [outcome], s.now))), hash);
      }
    }
  }

  lemma RemoveKeepsUnique(stored: seq<Record>, hash: string)
    requires UniqueBy(stored, HashOf())
    ensures UniqueBy(RemoveRecord(stored, hash), HashOf())
  {
    FilterKeepsUniqueBy(stored, HashIsNot(hash), HashOf());
  }

  lemma HeadHash(todo: seq<Record>, hash: string)
    requires todo != [] && UniqueBy(todo, HashOf())
    ensures UniqueBy(todo[1..], HashOf())
    ensures HasHash(todo, hash) <==> todo[0].hash == hash || HasHash(todo[1..], hash)
    ensures !(todo[0].hash == hash && HasHash(todo[1..], hash))
  {
    var rest := todo[1..];
    assert todo == [todo[0]] + rest;
    forall i, j | 0 <= i < j < |rest| ensures HashOf()(rest[i]) != HashOf()(rest[j]) {
      assert HashOf()(todo[i + 1]) != HashOf()(todo[j + 1]);
    }
    forall i | 0 <= i < |rest| ensures rest[i].hash != todo[0].hash {
      assert HashOf()(todo[0]) != HashOf()(todo[i + 1]);
    }
    if HasHash(rest, hash) {
      var r :| r in rest && r.hash == hash;
      assert r in todo;
    }
  }

  lemma StepMentions(h: History, e: Event, hash: string)
    requires Distinct(h)
    ensures Distinct(Step(h, e))
    ensures Mentions(Step(h, e), hash) <= Mentions(h, hash) + if AddsOf(hash)(e) then 1 else 0
  {
    hide Filter, Sort, Finish, HandleReply;
    match e
    case Add(r) =>
      AddedHash(h.stored, r, hash);
      RemoveKeepsUnique(h.stored, r.hash);
      UniquePush(Filter(h.stored, HashIsNot(r.hash)), r, HashOf());
    case Remove(removed) =>
      RemovedHash(h.stored, removed, hash);
      RemoveKeepsUnique(h.stored, removed);
    case StartScan(now) =>
      if h.scan.None? {
        var todo := Sort(h.stored, SubmittedInOrder());
        SortMembers(h.stored, SubmittedInOrder());
        SortKeepsUniqueBy(h.stored, SubmittedInOrder(), HashOf());
        FinishKeeps(h.(scan := Some(InFlight(todo, [], now))), hash);
      }
    case Replied(reply) =>
      if h.scan.Some? && h.scan.value.todo != [] {
        HandleReplyKeeps(h, reply, hash);
      }
  }

  /**
   * Over any run of adds, removals and scans, with adds and removals falling between a scan's replies, a
   * hash is reported at most once for each time it was added.
   */
  lemma {:induction false} ReportedOncePerAdd(events: seq<Event>, hash: string)
    ensures Distinct(Run(events)) && Mentions(Run(events), hash) <= |Filter(events, AddsOf(hash))|
    ensures |Filter(Run(events).reported, ReportsOf(hash))| <= |Filter(events, AddsOf(hash))|
  {
    hide Step, Filter, Distinct;
    if events == [] {
      FilterNone<Event>([], AddsOf(hash));
      FilterNone<RecoveryOutcome>([], ReportsOf(hash));
      NothingIsDistinct();
    } else {
      var init, last := events[..|events| - 1], events[|events| - 1];
      ReportedOncePerAdd(init, hash);
      StepMentions(Run(init), last, hash);
      assert events == init + [last];
      FilterPush(init, last, AddsOf(hash));
    }
  }

  /** One of the replies, to a scan started at one of the times, said so. */
  ghost predicate SaidDuring(events: seq<Event>, o: RecoveryOutcome) {
    exists e <- events, start <- events ::
      e.Replied? && start.StartScan? && Says(e.reply, start.now - o.record.submittedAt, o.fate)
  }

  ghost predicate StartedAt(events: seq<Event>, h: History) {
    h.scan.Some? ==> StartScan(h.scan.value.now) in events
  }

  lemma StillSaid(events: seq<Event>, e: Event, o: RecoveryOutcome)
    requires SaidDuring(events, o)
    ensures SaidDuring(events + [e], o)
  {
    hide Says;
    var reply, start :| reply in events && start in events && reply.Replied? && start.StartScan?
                        && Says(reply.reply, start.now - o.record.submittedAt, o.fate);
    assert reply in events + [e] && start in events + [e];
  }

  /** What is reported, now or when the scan is over. */
  function Outcomes(h: History): seq<RecoveryOutcome> { h.reported + Found(h) }

  lemma FinishTells(h: History)
    ensures Outcomes(Finish(h)) == Outcomes(h)
    ensures Finish(h).scan.Some? ==> h.scan.Some? && Finish(h).scan.value.now == h.scan.value.now
  {
  }

  /** The outcome, if any, that `reply` adds to what is reported. */
  ghost predicate Adds(h: History, reply: Reply, o: RecoveryOutcome) {
    && h.scan.Some? && h.scan.value.todo != []
    && o.record == h.scan.value.todo[0] && FateOf(o.record, reply, h.scan.value.now) == Some(o.fate)
  }

  lemma HandleTells(h: History, reply: Reply)
    requires h.scan.Some? && h.scan.value.todo != []
    ensures forall o <- Outcomes(HandleReply(h, reply)) :: o in Outcomes(h) || Adds(h, reply, o)
    ensures HandleReply(h, reply).scan.Some? ==> HandleReply(h, reply).scan.value.now == h.scan.value.now
  {
    hide FateOf, Finish, RemoveRecord;
    var s := h.scan.value;
    var rest, fate := s.todo[1..], FateOf(s.todo[0], reply, s.now);
    if reply.Answer? {
      if fate.None? {
        FinishTells(h.(scan := Some(s.(todo := rest))));
      } else {
        var outcome := RecoveryOutcome(s.todo[0], fate.value);
        FinishTells(h.(stored := RemoveRecord(h.stored, s.todo[0].hash),
                       scan := Some(InFlight(rest, s.found + [outcome], s.now))));
        assert h.reported + (s.found + [outcome]) == Outcomes(h) + [outcome];
      }
    }
  }

  lemma StepTells(h: History, e: Event)
    ensures forall o <- Outcomes(Step(h, e)) :: o in Outcomes(h) || (e.Replied? && Adds(h, e.reply, o))
    ensures var scan := Step(h, e).scan;
            scan.Some? ==> (h.scan.Some? && scan.value.now == h.scan.value.now) || e == StartScan(scan.value.now)
  {
    hide HandleReply, Finish, Sort, FateOf, AddRecord, RemoveRecord, Adds;
    match e
    case Add(_) =>
    case Remove(_) =>
    case StartScan(now) =>
      if h.scan.None? {
        FinishTells(h.(scan := Some(InFlight(Sort(h.stored, SubmittedInOrder()), [], now))));
      }
    case Replied(reply) =>
      if h.scan.Some? && h.scan.value.todo != [] {
        HandleTells(h, reply);
      }
  }

  /** Over any such run, whatever is reported is what a reply said, with the age at the scan's start. */
  lemma {:induction false} ReportsWereSaid(events: seq<Event>)
    ensures StartedAt(events, Run(events))
    ensures forall o <- Outcomes(Run(events)) :: SaidDuring(events, o)
  {
    hide Says, FateOf, SaidDuring, Step, Outcomes;
    if events == [] {
      NothingReported();
    } else {
      var init, last := events[..|events| - 1], events[|events| - 1];
      assert events == init + [last];
      ReportsWereSaid(init);
      var before := Run(init);
      StepTells(before, last);
      forall o | o in Outcomes(Run(events)) ensures SaidDuring(events, o) {
        if o in Outcomes(before) {
          StillSaid(init, last, o);
        } else {
          var now := before.scan.value.now;
          FateMeans(o.record, last.reply, now);
          SaidNow(init, last, StartScan(now), o);
        }
      }
    }
  }

  lemma NothingReported()
    ensures Outcomes(NOTHING) == []
  {
  }

  lemma SaidNow(init: seq<Event>, reply: Event, start: Event, o: RecoveryOutcome)
    requires start in init && start.StartScan? && reply.Replied?
    requires Says(reply.reply, start.now - o.record.submittedAt, o.fate)
    ensures SaidDuring(init + [reply], o)
  {
    hide Says;
    assert start in init + [reply] && reply in init + [reply];
  }

  lemma NothingIsDistinct()
    ensures Distinct(NOTHING)
  {
  }

  // ---- The module as it runs ----

  lemma AddKeepsOthers(stored: seq<Record>, r: Record)
    ensures Filter(AddRecord(stored, r), HashIsNot(r.hash)) == Filter(stored, HashIsNot(r.hash))
  {
    hide Filter;
    var rest := Filter(stored, HashIsNot(r.hash));
    FilterPush(rest, r, HashIsNot(r.hash));
    FilterTwice(stored, HashIsNot(r.hash), HashIsNot(r.hash), HashIsNot(r.hash));
    assert rest + [] == rest;
  }

  lemma OutcomesWereSaid(stored: seq<Record>, query: Query, now: int)
    ensures AllSaid(Reconcile(stored, query, now).outcomes, query, now)
  {
    hide AllSaid, ScanFrom, Sort, Filter;
    ScanMeans(stored, Sort(stored, SubmittedInOrder()), query, now);
  }

  class PendingStore {
    var stored: seq<Record>

    constructor ()
      ensures stored == []
    {
      stored := [];
    }

    /** The record goes last, replacing any with its hash; the others stay as they are, in order. */
    method AddPendingTransactionRecord(r: Record)
      modifies this
      ensures stored == AddRecord(old(stored), r)
      ensures stored != [] && stored[|stored| - 1] == r
      ensures forall e <- stored | e.hash == r.hash :: e == r
      ensures Filter(stored, HashIsNot(r.hash)) == Filter(old(stored), HashIsNot(r.hash))
    {
      AddKeepsOthers(stored, r);
      stored := Filter(stored, HashIsNot(r.hash)) + [r];
    }

    /** No record with the hash is left; the others stay as they are, in order. */
    method RemovePendingTransactionRecord(hash: string)
      modifies this
      ensures stored == RemoveRecord(old(stored), hash)
      ensures !HasHash(stored, hash)
      ensures Filter(stored, HashIsNot(hash)) == Filter(old(stored), HashIsNot(hash))
    {
      FilterTwice(stored, HashIsNot(hash), HashIsNot(hash), HashIsNot(hash));
      stored := Filter(stored, HashIsNot(hash));
    }

    method ReconcilePendingTransactions(query: Query, now: int) returns (outcomes: Option<seq<RecoveryOutcome>>)
      modifies this
      ensures var s := Reconcile(old(stored), query, now);
              stored == s.stored && outcomes == if s.threw then None else Some(s.outcomes)
      ensures outcomes.Some? ==> AllSaid(outcomes.value, query, now)
    {
      hide FateOf, Sort, RemoveRecord, ScanFrom, AllSaid, Filter, HasHash;
      OutcomesWereSaid(stored, query, now);
      ghost var whole := Reconcile(stored, query, now);
      var records := Sort(stored, SubmittedInOrder());
      var found: seq<RecoveryOutcome> := [];
      for i := 0 to |records|
        invariant var rest := ScanFrom(stored, records[i..], query, now);
                  whole.stored == rest.stored && whole.threw == rest.threw && whole.outcomes == found + rest.outcomes
      {
        assert records[i..][0] == records[i] && records[i..][1..] == records[i + 1..];
        ScanStep(stored, records[i..], query, now);
        var record := records[i];
        var reply := query(record.hash);
        if reply.Threw? {
          return None;
        }
        var fate := FateOf(record, reply, now);
        if fate.Some? {
          RemovePendingTransactionRecord(record.hash);
          found := found + [RecoveryOutcome(record, fate.value)];
        }
      }
      assert records[|records|..] == [];
      ScanEnds(stored, query, now);
      assert found + [] == found;
      return Some(found);
    }
  }
}
