/**
 * The wallet signing queue. `processQueue` is an async loop that suspends at its one `await`;
 * between suspensions JavaScript runs to completion, so an event here is one such uninterrupted
 * run: an enqueue, a wallet answer, a timer firing, a kit being registered, time passing.
 * A request is named by its position in enqueue order.
 */
module TxQueue {
  import opened Prelude

  const SIGN_TIMEOUT_MS := 120_000

  datatype Answer = Approved(signedXdr: string) | Refused(error: string)

  datatype Outcome = ByWallet(answer: Answer) | NoKit | TimedOut

  datatype Entry = Entry(xdr: string, enqueuedAt: int, settled: bool, timerLive: bool)

  /** What the outside can observe, in the order it happens. */
  datatype Effect =
    | Opened(id: nat, xdr: string)
    | Answered(id: nat, answer: Answer)
    | Settled(id: nat, outcome: Outcome, at: int)

  /** `awaiting` lists the activations of `processQueue` suspended at the `await`. */
  datatype State = State(
    kit: bool,
    queue: seq<nat>,
    isProcessing: bool,
    awaiting: seq<nat>,
    entries: seq<Entry>,
    now: int,
    log: seq<Effect>)

  datatype Event =
    | Enqueue(xdr: string)
    | WalletAnswer(activation: nat, answer: Answer)
    | TimerFires(id: nat)
    | SetKit(present: bool)
    | Tick(to: int)

  const INITIAL := State(false, [], false, [], [], 0, [])

  ghost predicate Formed(s: State) {
    && (forall j | 0 <= j < |s.queue| :: s.queue[j] < |s.entries|)
    && (forall j | 0 <= j < |s.awaiting| :: s.awaiting[j] < |s.entries|)
  }

  // ---- The code, as functions on the state ----

  function Settle(s: State, id: nat, outcome: Outcome): State
    requires id < |s.entries|
  {
    if s.entries[id].settled then s
    else s.(entries := s.entries[id := s.entries[id].(settled := true, timerLive := false)],
            log := s.log + [Settled(id, outcome, s.now)])
  }

  /** The `while` loop of `processQueue`, up to its next suspension or its end. */
  function Drain(s: State): State
    requires Formed(s)
    decreases |s.queue|
  {
    if s.queue == [] then s.(isProcessing := false)
    else if !s.kit then Drain(Settle(s, s.queue[0], NoKit).(queue := s.queue[1..]))
    else s.(awaiting := s.awaiting + [s.queue[0]],
            log := s.log + [Opened(s.queue[0], s.entries[s.queue[0]].xdr)])
  }

  function ProcessQueue(s: State): State
    requires Formed(s)
  {
    if s.isProcessing then s else Drain(s.(isProcessing := true))
  }

  function EnqueueSign(s: State, xdr: string): State
    requires Formed(s)
  {
    ProcessQueue(s.(entries := s.entries + [Entry(xdr, s.now, false, true)], queue := s.queue + [|s.entries|]))
  }

  function Without(queue: seq<nat>, id: nat): seq<nat> {
    if queue == [] then [] else if queue[0] == id then queue[1..] else [queue[0]] + Without(queue[1..], id)
  }

  function ShiftIfFront(queue: seq<nat>, id: nat): seq<nat> {
    if queue != [] && queue[0] == id then queue[1..] else queue
  }

  /** What runs between the wallet's answer and the top of the loop. */
  function AfterAnswer(s: State, activation: nat, answer: Answer): State
    requires Formed(s) && activation < |s.awaiting|
  {
    var id := s.awaiting[activation];
    var heard := s.(awaiting := s.awaiting[..activation] + s.awaiting[activation + 1..],
                    log := s.log + [Answered(id, answer)]);
    Settle(heard, id, ByWallet(answer)).(queue := ShiftIfFront(s.queue, id))
  }

  function TimeOut(s: State, id: nat): State
    requires Formed(s) && id < |s.entries|
  {
    var fired := s.(entries := s.entries[id := s.entries[id].(timerLive := false)]);
    if s.entries[id].settled then fired
    else Settle(fired, id, TimedOut).(queue := Without(s.queue, id))
  }

  ghost predicate Enabled(s: State, e: Event) {
    match e
    case WalletAnswer(k, _) => k < |s.awaiting|
    case TimerFires(id) =>
      id < |s.entries| && s.entries[id].timerLive && s.entries[id].enqueuedAt + SIGN_TIMEOUT_MS <= s.now
    case Tick(t) => s.now <= t
    case _ => true
  }

  ghost function Apply(s: State, e: Event): State
    requires Formed(s)
  {
    if !Enabled(s, e) then s
    else
      match e
      case Enqueue(xdr) => EnqueueSign(s, xdr)
      case WalletAnswer(k, answer) =>
        var s' := AfterAnswer(s, k, answer);
        if Formed(s') then Drain(s') else s
      case TimerFires(id) => TimeOut(s, id)
      case SetKit(present) => s.(kit := present)
      case Tick(t) => s.(now := t)
  }

  ghost function Run(events: seq<Event>): State {
    if events == [] then INITIAL
    else
      var s := Run(events[..|events| - 1]);
      if Formed(s) then Apply(s, events[|events| - 1]) else s
  }

  // ---- What is kept ----

  /** The prompts open after a log: each opening adds one, each answer takes one away. */
  ghost function OpenPrompts(log: seq<Effect>): multiset<nat> {
    if log == [] then multiset{}
    else
      var open, e := OpenPrompts(log[..|log| - 1]), log[|log| - 1];
      if e.Opened? then open + multiset{e.id} else if e.Answered? then open - multiset{e.id} else open
  }

  /** The latest request prompted for, -1 before the first prompt. */
  ghost function LastPrompted(log: seq<Effect>): int {
    if log == [] then -1
    else if log[|log| - 1].Opened? then log[|log| - 1].id
    else LastPrompted(log[..|log| - 1])
  }

  ghost function SettledIds(log: seq<Effect>): set<nat> {
    if log == [] then {}
    else
      var before, e := SettledIds(log[..|log| - 1]), log[|log| - 1];
      if e.Settled? then before + {e.id} else before
  }

  /** The log ends with an answer to a request that is still unsettled. */
  ghost predicate OwesSettlement(log: seq<Effect>) {
    log != [] && log[|log| - 1].Answered? && log[|log| - 1].id !in SettledIds(log)
  }

  /** Whether `e` may follow `log`; an answer to an unsettled request must be followed by its settlement. */
  ghost predicate Justified(log: seq<Effect>, e: Effect) {
    && (OwesSettlement(log) ==>
          e.Settled? && e.id == log[|log| - 1].id && e.outcome == ByWallet(log[|log| - 1].answer))
    && match e
    case Opened(id, _) =>
      && OpenPrompts(log) == multiset{}
      && id !in SettledIds(log)
      && LastPrompted(log) < id
    case Answered(id, _) => id in OpenPrompts(log)
    case Settled(id, outcome, _) =>
      && id !in SettledIds(log)
      && (outcome.ByWallet? ==> log != [] && log[|log| - 1] == Answered(id, outcome.answer))
  }

  /** Every effect was justified by the ones before it. */
  ghost predicate LogSafe(log: seq<Effect>) {
    log == [] || (LogSafe(log[..|log| - 1]) && Justified(log[..|log| - 1], log[|log| - 1]))
  }

  lemma LogPush(log: seq<Effect>, e: Effect)
    ensures LogSafe(log + [e]) <==> LogSafe(log) && Justified(log, e)
    ensures SettledIds(log + [e]) == if e.Settled? then SettledIds(log) + {e.id} else SettledIds(log)
    ensures LastPrompted(log + [e]) == if e.Opened? then e.id else LastPrompted(log)
    ensures OpenPrompts(log + [e]) ==
            if e.Opened? then OpenPrompts(log) + multiset{e.id}
            else if e.Answered? then OpenPrompts(log) - multiset{e.id} else OpenPrompts(log)
  {
    assert (log + [e])[..|log|] == log;
  }

  ghost predicate Increasing(xs: seq<nat>) {
    forall i, j | 0 <= i < j < |xs| :: xs[i] < xs[j]
  }

  /** Settled requests are out of the queue, have no timer, and have exactly one settlement logged. */
  ghost predicate EntriesAgree(s: State) {
    forall id | 0 <= id < |s.entries| ::
      && (s.entries[id].settled <==> id !in s.queue)
      && (s.entries[id].settled <==> id in SettledIds(s.log))
      && (s.entries[id].timerLive <==> !s.entries[id].settled)
  }

  /** Nothing still queued has been prompted for, but for the request being awaited. */
  ghost predicate PromptsPrecedeQueue(s: State) {
    && (forall x <- s.awaiting :: x == LastPrompted(s.log))
    && (forall y <- s.queue :: LastPrompted(s.log) < y || (LastPrompted(s.log) == y && y in s.awaiting))
    && LastPrompted(s.log) < |s.entries|
    && (forall x <- SettledIds(s.log) :: x < |s.entries|)
  }

  /** Kept by every step inside an event as well as between events. */
  ghost predicate Core(s: State) {
    && Formed(s)
    && Increasing(s.queue)
    && EntriesAgree(s)
    && PromptsPrecedeQueue(s)
    && OpenPrompts(s.log) == multiset(s.awaiting)
    && LogSafe(s.log)
    && !OwesSettlement(s.log)
  }

  /** Kept at every event boundary. */
  ghost predicate Inv(s: State) {
    && Core(s)
    && |s.awaiting| <= 1
    && (s.isProcessing <==> s.awaiting != [])
    && (!s.isProcessing ==> s.queue == [])
  }

  /** Settling a queued request and taking it out of the queue. */
  lemma SettleKeeps(s: State, id: nat, outcome: Outcome, queue': seq<nat>)
    requires Core(s) && id in s.queue && id < |s.entries| && !outcome.ByWallet?
    requires Increasing(queue')
    requires forall x: nat :: x in queue' <==> x in s.queue && x != id
    ensures Core(Settle(s, id, outcome).(queue := queue'))
  {
    LogPush(s.log, Settled(id, outcome, s.now));
    hide LogSafe, SettledIds, OpenPrompts, LastPrompted;
    forall j | 0 <= j < |queue'|
      ensures queue'[j] < |s.entries|
    {
      assert queue'[j] in queue' && queue'[j] in s.queue;
    }
  }

  lemma IncreasingTail(queue: seq<nat>)
    requires Increasing(queue) && queue != []
    ensures Increasing(queue[1..])
    ensures forall x: nat :: x in queue[1..] <==> x in queue && x != queue[0]
    ensures forall x: nat | x in queue[1..] :: queue[0] < x
  {
    assert queue == [queue[0]] + queue[1..];
    forall x: nat | x in queue[1..]
      ensures queue[0] < x
    {
      var j :| 0 <= j < |queue[1..]| && queue[1..][j] == x;
      assert queue[j + 1] == x;
    }
  }

  /** The loop, entered with nothing suspended, ends at a boundary. */
  lemma {:induction false} DrainKeeps(s: State)
    requires Core(s) && s.isProcessing && s.awaiting == []
    ensures Inv(Drain(s))
    decreases |s.queue|
  {
    if s.queue != [] {
      if !s.kit {
        var front := s.queue[0];
        IncreasingTail(s.queue);
        SettleKeeps(s, front, NoKit, s.queue[1..]);
        DrainKeeps(Settle(s, front, NoKit).(queue := s.queue[1..]));
      } else {
        OpenKeeps(s);
      }
    }
  }

  /** A prompt opened for the front of the queue. */
  function Prompted(s: State): State
    requires s.queue != [] && s.queue[0] < |s.entries|
  {
    s.(awaiting := [s.queue[0]], log := s.log + [Opened(s.queue[0], s.entries[s.queue[0]].xdr)])
  }

  lemma DrainPrompts(s: State)
    requires Formed(s) && s.awaiting == [] && s.queue != [] && s.kit
    ensures Drain(s) == Prompted(s)
  {
  }

  /** With a kit set the loop opens a prompt for the front of the queue and suspends. */
  lemma OpenKeeps(s: State)
    requires Core(s) && s.isProcessing && s.awaiting == [] && s.queue != [] && s.kit
    ensures Inv(Drain(s))
  {
    hide LogSafe, SettledIds, OpenPrompts, LastPrompted, Drain;
    var front := s.queue[0];
    DrainPrompts(s);
    IncreasingTail(s.queue);
    LogPush(s.log, Opened(front, s.entries[front].xdr));
    assert front in s.queue && front !in SettledIds(s.log) && LastPrompted(s.log) < front;
    var open := Prompted(s);
    assert EntriesAgree(open);
    assert PromptsPrecedeQueue(open);
    hide EntriesAgree, PromptsPrecedeQueue;
    assert OpenPrompts(open.log) == multiset(open.awaiting);
  }

  lemma PushKeeps(s: State, xdr: string)
    requires Core(s)
    ensures Core(s.(entries := s.entries + [Entry(xdr, s.now, false, true)], queue := s.queue + [|s.entries|]))
  {
    var pushed := s.(entries := s.entries + [Entry(xdr, s.now, false, true)], queue := s.queue + [|s.entries|]);
    forall x: nat
      ensures x in pushed.queue <==> x in s.queue || x == |s.entries|
    {
      assert pushed.queue[|s.queue|] == |s.entries|;
    }
    forall x | x in s.queue || x in s.awaiting ensures x < |s.entries| {}
  }

  lemma EnqueueKeeps(s: State, xdr: string)
    requires Inv(s)
    ensures Inv(EnqueueSign(s, xdr))
  {
    PushKeeps(s, xdr);
    if !s.isProcessing {
      var pushed := s.(entries := s.entries + [Entry(xdr, s.now, false, true)], queue := s.queue + [|s.entries|]);
      DrainKeeps(pushed.(isProcessing := true));
    }
  }

  lemma ShrinkAwaiting(s: State, log: seq<Effect>)
    requires Formed(s)
    ensures Formed(s.(awaiting := [], log := log))
  {
  }

  lemma HearKeeps(s: State, answer: Answer)
    requires Core(s) && |s.awaiting| == 1
    requires s.awaiting[0] !in s.queue
    ensures Core(s.(awaiting := [], log := s.log + [Answered(s.awaiting[0], answer)]))
  {
    hide LogSafe, SettledIds, OpenPrompts, LastPrompted, Increasing;
    var id := s.awaiting[0];
    assert s.awaiting == [id];
    assert id < |s.entries| && id in SettledIds(s.log);
    hide Formed;
    LogPush(s.log, Answered(id, answer));
    assert multiset(s.awaiting) == multiset{id};
    var log := s.log + [Answered(id, answer)];
    assert EntriesAgree(s.(awaiting := [], log := log));
    hide EntriesAgree;
    ShrinkAwaiting(s, log);
  }

  lemma HearThenSettleLog(log: seq<Effect>, id: nat, answer: Answer, at: int)
    requires LogSafe(log) && OpenPrompts(log) == multiset{id} && id !in SettledIds(log) && !OwesSettlement(log)
    ensures var log' := log + [Answered(id, answer)] + [Settled(id, ByWallet(answer), at)];
            && LogSafe(log') && OpenPrompts(log') == multiset{} && !OwesSettlement(log')
            && SettledIds(log') == SettledIds(log) + {id}
            && LastPrompted(log') == LastPrompted(log)
  {
    var log1 := log + [Answered(id, answer)];
    LogPush(log, Answered(id, answer));
    LogPush(log1, Settled(id, ByWallet(answer), at));
    assert log1[|log1| - 1] == Answered(id, answer);
  }

  /** The wallet answers the request at the front: it is settled with that answer and shifted. */
  lemma HearFrontKeeps(s: State, s': State)
    requires Core(s) && s.queue != [] && s.awaiting == [s.queue[0]]
    requires s'.queue == s.queue[1..] && s'.awaiting == []
    requires s'.entries == s.entries[s.queue[0] := s.entries[s.queue[0]].(settled := true, timerLive := false)]
    requires LogSafe(s'.log) && OpenPrompts(s'.log) == multiset{} && !OwesSettlement(s'.log)
    requires SettledIds(s'.log) == SettledIds(s.log) + {s.queue[0]}
    requires LastPrompted(s'.log) == LastPrompted(s.log)
    ensures Core(s')
  {
    IncreasingTail(s.queue);
    assert s.queue[0] in s.queue && s.queue[0] in s.awaiting;
  }

  lemma AnswerFrontKeeps(s: State, answer: Answer)
    requires Core(s) && s.queue != [] && s.awaiting == [s.queue[0]]
    ensures Core(AfterAnswer(s, 0, answer))
    ensures AfterAnswer(s, 0, answer).isProcessing == s.isProcessing && AfterAnswer(s, 0, answer).awaiting == []
  {
    assert s.queue[0] in s.queue;
    assert s.awaiting[..0] + s.awaiting[1..] == [];
    HearThenSettleLog(s.log, s.queue[0], answer, s.now);
    HearFrontKeeps(s, AfterAnswer(s, 0, answer));
  }

  /** The awaited request timed out meanwhile: the answer changes nothing and nothing is shifted. */
  lemma AnswerStaleKeeps(s: State, answer: Answer)
    requires Core(s) && |s.awaiting| == 1 && s.awaiting[0] !in s.queue
    ensures Core(AfterAnswer(s, 0, answer))
    ensures AfterAnswer(s, 0, answer).isProcessing == s.isProcessing && AfterAnswer(s, 0, answer).awaiting == []
  {
    HearKeeps(s, answer);
    assert s.awaiting[..0] + s.awaiting[1..] == [];
    assert ShiftIfFront(s.queue, s.awaiting[0]) == s.queue;
  }

  lemma AnswerKeeps(s: State, answer: Answer)
    requires Inv(s) && s.awaiting != []
    ensures Core(AfterAnswer(s, 0, answer))
    ensures AfterAnswer(s, 0, answer).isProcessing && AfterAnswer(s, 0, answer).awaiting == []
  {
    if s.awaiting[0] in s.queue {
      FrontIsAwaited(s, s.awaiting[0]);
      assert s.awaiting == [s.queue[0]];
      AnswerFrontKeeps(s, answer);
    } else {
      AnswerStaleKeeps(s, answer);
    }
  }

  lemma FrontIsAwaited(s: State, id: nat)
    requires Core(s) && id in s.queue && id in s.awaiting
    ensures s.queue[0] == id
  {
    assert s.queue[0] in s.queue;
  }

  lemma AnswerResumes(s: State, k: nat, answer: Answer)
    requires Inv(s) && k < |s.awaiting|
    ensures Formed(AfterAnswer(s, k, answer))
    ensures Apply(s, WalletAnswer(k, answer)) == Drain(AfterAnswer(s, k, answer))
    ensures Inv(Drain(AfterAnswer(s, k, answer)))
  {
    AnswerKeeps(s, answer);
    DrainKeeps(AfterAnswer(s, 0, answer));
  }

  lemma {:induction false} WithoutDropsOne(queue: seq<nat>, id: nat)
    requires Increasing(queue) && id in queue
    ensures forall x: nat :: x in Without(queue, id) <==> x in queue && x != id
    ensures Increasing(Without(queue, id))
  {
    IncreasingTail(queue);
    assert queue == [queue[0]] + queue[1..];
    if queue[0] != id {
      WithoutDropsOne(queue[1..], id);
      var rest := Without(queue[1..], id);
      forall j | 0 <= j < |rest| ensures queue[0] < rest[j] {
        assert rest[j] in rest;
      }
    }
  }

  lemma TimeOutKeeps(s: State, id: nat)
    requires Inv(s) && id < |s.entries| && s.entries[id].timerLive
    ensures Inv(TimeOut(s, id))
  {
    WithoutDropsOne(s.queue, id);
    SettleKeeps(s, id, TimedOut, Without(s.queue, id));
    var direct := Settle(s, id, TimedOut).(queue := Without(s.queue, id));
    assert TimeOut(s, id).entries == direct.entries;
    assert TimeOut(s, id) == direct;
  }

  lemma KitAndClockKeep(s: State, kit: bool, now: int)
    requires Inv(s)
    ensures Inv(s.(kit := kit)) && Inv(s.(now := now))
  {
    assert Core(s.(kit := kit)) && Core(s.(now := now));
  }

  lemma StepKeeps(s: State, e: Event)
    requires Inv(s)
    ensures Inv(Apply(s, e))
  {
    if Enabled(s, e) {
      match e
      case Enqueue(xdr) => EnqueueKeeps(s, xdr);
      case WalletAnswer(k, answer) => AnswerResumes(s, k, answer);
      case TimerFires(id) => TimeOutKeeps(s, id);
      case SetKit(present) => KitAndClockKeep(s, present, s.now);
      case Tick(t) => KitAndClockKeep(s, s.kit, t);
    }
  }

  lemma {:induction false} RunKeeps(events: seq<Event>)
    ensures Inv(Run(events))
  {
    if events == [] {
      assert OpenPrompts(INITIAL.log) == multiset(INITIAL.awaiting);
    } else {
      RunKeeps(events[..|events| - 1]);
      StepKeeps(Run(events[..|events| - 1]), events[|events| - 1]);
    }
  }

  // ---- What the log then says ----

  ghost predicate SettledIn(log: seq<Effect>, id: nat) {
    exists p | 0 <= p < |log| :: log[p].Settled? && log[p].id == id
  }

  ghost predicate SettledOnce(log: seq<Effect>) {
    forall p, q | 0 <= p < q < |log| && log[p].Settled? && log[q].Settled? :: log[p].id != log[q].id
  }

  ghost predicate PromptsInOrder(log: seq<Effect>) {
    forall p, q | 0 <= p < q < |log| && log[p].Opened? && log[q].Opened? :: log[p].id < log[q].id
  }

  ghost predicate NeverPromptedOnceSettled(log: seq<Effect>) {
    forall p, q | 0 <= p < q < |log| && log[p].Settled? && log[q].Opened? :: log[p].id != log[q].id
  }

  ghost predicate OnePromptAtATime(log: seq<Effect>) {
    forall n | 0 <= n <= |log| :: |OpenPrompts(log[..n])| <= 1
  }

  /** A wallet outcome is the answer to that very request's prompt, delivered as it arrives. */
  ghost predicate AnswersDelivered(log: seq<Effect>) {
    forall q | 0 <= q < |log| && log[q].Settled? && log[q].outcome.ByWallet? ::
      q > 0 && log[q - 1] == Answered(log[q].id, log[q].outcome.answer)
  }

  /** An answer to a request unsettled at that point settles it, with that answer, at once. */
  ghost predicate AnswersSettle(log: seq<Effect>) {
    forall p | 0 <= p < |log| && log[p].Answered? && log[p].id !in SettledIds(log[..p]) ::
      p + 1 < |log| && log[p + 1].Settled? && log[p + 1].id == log[p].id
        && log[p + 1].outcome == ByWallet(log[p].answer)
  }

  /** Each effect was justified where it stands. */
  lemma {:induction false} JustifiedThere(log: seq<Effect>, n: nat)
    requires LogSafe(log) && n < |log|
    ensures Justified(log[..n], log[n])
  {
    if n < |log| - 1 {
      var init := log[..|log| - 1];
      JustifiedThere(init, n);
      assert init[..n] == log[..n] && init[n] == log[n];
    }
  }

  lemma {:induction false} AtMostOneOpen(log: seq<Effect>)
    requires LogSafe(log)
    ensures |OpenPrompts(log)| <= 1
  {
    if log != [] {
      AtMostOneOpen(log[..|log| - 1]);
    }
  }

  lemma {:induction false} EarlierEffects(log: seq<Effect>, p: nat)
    requires LogSafe(log) && p < |log|
    ensures log[p].Settled? ==> log[p].id in SettledIds(log)
    ensures log[p].Opened? ==> log[p].id <= LastPrompted(log)
  {
    if p < |log| - 1 {
      EarlierEffects(log[..|log| - 1], p);
    }
  }

  lemma {:induction false} SettledSomewhere(log: seq<Effect>, id: nat)
    requires id in SettledIds(log)
    ensures SettledIn(log, id)
  {
    var last := log[|log| - 1];
    if !(last.Settled? && last.id == id) {
      SettledSomewhere(log[..|log| - 1], id);
      var p :| 0 <= p < |log| - 1 && log[..|log| - 1][p].Settled? && log[..|log| - 1][p].id == id;
      assert log[p].Settled? && log[p].id == id;
    }
  }

  lemma {:induction false} PrefixSafe(log: seq<Effect>, n: nat)
    requires LogSafe(log) && n <= |log|
    ensures LogSafe(log[..n])
  {
    if n == |log| {
      assert log[..n] == log;
    } else {
      PrefixSafe(log[..|log| - 1], n);
      assert log[..|log| - 1][..n] == log[..n];
    }
  }

  lemma OneAnswerSettles(log: seq<Effect>, p: nat)
    requires LogSafe(log) && !OwesSettlement(log)
    requires p < |log| && log[p].Answered? && log[p].id !in SettledIds(log[..p])
    ensures p + 1 < |log| && log[p + 1].Settled? && log[p + 1].id == log[p].id
            && log[p + 1].outcome == ByWallet(log[p].answer)
  {
    hide LogSafe, SettledIds, OpenPrompts, LastPrompted;
    var upTo := log[..p + 1];
    assert p + 1 == |log| ==> upTo == log;
    assert upTo == log[..p] + [log[p]];
    LogPush(log[..p], log[p]);
    if p + 1 < |log| {
      JustifiedThere(log, p + 1);
    }
  }

  lemma AnsweredSettles(log: seq<Effect>)
    requires LogSafe(log) && !OwesSettlement(log)
    ensures AnswersSettle(log)
  {
    hide LogSafe, SettledIds, OwesSettlement;
    forall p | 0 <= p < |log| && log[p].Answered? && log[p].id !in SettledIds(log[..p])
      ensures p + 1 < |log| && log[p + 1].Settled? && log[p + 1].id == log[p].id
              && log[p + 1].outcome == ByWallet(log[p].answer)
    {
      OneAnswerSettles(log, p);
    }
  }

  lemma SafeLogs(log: seq<Effect>)
    requires LogSafe(log)
    ensures OnePromptAtATime(log)
    ensures PromptsInOrder(log)
    ensures SettledOnce(log)
    ensures NeverPromptedOnceSettled(log)
    ensures AnswersDelivered(log)
  {
    forall n | 0 <= n <= |log|
      ensures |OpenPrompts(log[..n])| <= 1
    {
      PrefixSafe(log, n);
      AtMostOneOpen(log[..n]);
    }
    forall q | 0 <= q < |log|
      ensures Justified(log[..q], log[q])
      ensures forall p | 0 <= p < q && log[p].Settled? :: log[p].id in SettledIds(log[..q])
      ensures forall p | 0 <= p < q && log[p].Opened? :: log[p].id <= LastPrompted(log[..q])
    {
      JustifiedThere(log, q);
      PrefixSafe(log, q);
      forall p | 0 <= p < q
        ensures log[p].Settled? ==> log[p].id in SettledIds(log[..q])
        ensures log[p].Opened? ==> log[p].id <= LastPrompted(log[..q])
      {
        EarlierEffects(log[..q], p);
      }
    }
    forall q | 0 <= q < |log| && log[q].Settled? && log[q].outcome.ByWallet?
      ensures q > 0 && log[q - 1] == Answered(log[q].id, log[q].outcome.answer)
    {
      assert Justified(log[..q], log[q]);
      assert q > 0 && log[..q][q - 1] == log[q - 1];
    }
  }

  /**
   * Safety of the queue in every interleaving. At most one wallet prompt is ever open; prompts open
   * in enqueue order, so at most once each, and never for a request already settled; a request is
   * either queued and unsettled or gone and settled exactly once; an answer to an unsettled request
   * settles it with that answer, and only answers do so; an idle loop has an empty queue.
   */
  lemma QueueIsSafe(events: seq<Event>)
    ensures var s := Run(events);
            && OnePromptAtATime(s.log) && |s.awaiting| <= 1
            && PromptsInOrder(s.log)
            && SettledOnce(s.log)
            && NeverPromptedOnceSettled(s.log)
            && AnswersDelivered(s.log) && AnswersSettle(s.log)
    ensures var s := Run(events);
            forall id | 0 <= id < |s.entries| ::
              && (id in s.queue <==> !s.entries[id].settled)
              && (id in s.queue <==> !SettledIn(s.log, id))
    ensures var s := Run(events);
            && Increasing(s.queue)
            && (!s.isProcessing ==> s.queue == [])
            && (s.isProcessing <==> s.awaiting != [])
  {
    RunKeeps(events);
    var s := Run(events);
    SafeLogs(s.log);
    AnsweredSettles(s.log);
    forall id | 0 <= id < |s.entries|
      ensures id in s.queue <==> !SettledIn(s.log, id)
    {
      if id in SettledIds(s.log) {
        SettledSomewhere(s.log, id);
      }
      if SettledIn(s.log, id) {
        var p :| 0 <= p < |s.log| && s.log[p].Settled? && s.log[p].id == id;
        EarlierEffects(s.log, p);
      }
    }
  }

  // ---- What each effect comes from ----

  /** `x` is what `e` does in `s`: each kind of effect has its own cause. */
  ghost predicate Caused(s: State, e: Event, x: Effect) {
    match x
    case Opened(id, xdr) =>
      && s.kit && (e.Enqueue? || e.WalletAnswer?)
      && (if id < |s.entries| then s.entries[id].xdr == xdr else e == Enqueue(xdr) && id == |s.entries|)
    case Answered(id, answer) =>
      e.WalletAnswer? && e.answer == answer && e.activation < |s.awaiting| && s.awaiting[e.activation] == id
    case Settled(id, outcome, at) =>
      at == s.now &&
      match outcome
      case ByWallet(answer) =>
        e.WalletAnswer? && e.answer == answer && e.activation < |s.awaiting| && s.awaiting[e.activation] == id
      case NoKit => !s.kit && (e.Enqueue? || e.WalletAnswer?)
      case TimedOut => e == TimerFires(id) && id < |s.entries| && s.entries[id].enqueuedAt + 120_000 <= s.now
  }

  /** What the loop adds: refusals for want of a kit, or one prompt. */
  ghost predicate ByLoop(s: State, x: Effect) {
    if s.kit then x.Opened? && x.id < |s.entries| && x.xdr == s.entries[x.id].xdr
    else x.Settled? && x.outcome == NoKit && x.at == s.now
  }

  lemma {:induction false} DrainAdds(s: State)
    requires Formed(s)
    ensures var log := Drain(s).log;
            && |s.log| <= |log| && log[..|s.log|] == s.log
            && forall p | |s.log| <= p < |log| :: ByLoop(s, log[p])
    decreases |s.queue|
  {
    if s.queue != [] && !s.kit {
      var next := Settle(s, s.queue[0], NoKit).(queue := s.queue[1..]);
      DrainAdds(next);
      assert next.log[..|s.log|] == s.log;
      assert Drain(s).log[..|s.log|] == Drain(s).log[..|next.log|][..|s.log|];
      forall p | |s.log| <= p < |Drain(s).log| ensures ByLoop(s, Drain(s).log[p]) {
        if p < |next.log| {
          assert Drain(s).log[..|next.log|][p] == next.log[p];
        } else {
          assert ByLoop(next, Drain(s).log[p]);
        }
      }
    }
  }

  lemma EnqueueCauses(s: State, xdr: string, x: Effect)
    requires Formed(s)
    requires var pushed := s.(entries := s.entries + [Entry(xdr, s.now, false, true)], queue := s.queue
             + [|s.entries|]);
             ByLoop(pushed, x)
    ensures Caused(s, Enqueue(xdr), x)
  {
  }

  lemma AnswerCauses(s: State, answer: Answer, x: Effect)
    requires Inv(s) && s.awaiting != [] && ByLoop(AfterAnswer(s, 0, answer), x)
    ensures Caused(s, WalletAnswer(0, answer), x)
  {
  }

  /** From `s` on, `log` holds nothing but what `e` does in `s`. */
  ghost predicate AllCaused(s: State, e: Event, log: seq<Effect>) {
    && |s.log| <= |log| && log[..|s.log|] == s.log
    && forall p | |s.log| <= p < |log| :: Caused(s, e, log[p])
  }

  lemma EnqueueAllCaused(s: State, xdr: string)
    requires Inv(s)
    ensures AllCaused(s, Enqueue(xdr), EnqueueSign(s, xdr).log)
  {
    hide Drain, Inv, Caused, ByLoop;
    var pushed := s.(entries := s.entries + [Entry(xdr, s.now, false, true)], queue := s.queue + [|s.entries|]);
    if !s.isProcessing {
      assert Formed(s) by { InvFormed(s); }
      var started := pushed.(isProcessing := true);
      DrainAdds(started);
      forall x: Effect | ByLoop(started, x) ensures Caused(s, Enqueue(xdr), x) {
        StartedByLoop(pushed, x);
        EnqueueCauses(s, xdr, x);
      }
    }
  }

  lemma InvFormed(s: State)
    requires Inv(s)
    ensures Formed(s)
  {
  }

  lemma StartedByLoop(s: State, x: Effect)
    ensures ByLoop(s.(isProcessing := true), x) == ByLoop(s, x)
  {
  }

  lemma CausesJoin(s: State, e: Event, mid: seq<Effect>, log: seq<Effect>)
    requires AllCaused(s, e, mid) && |mid| <= |log| && log[..|mid|] == mid
    requires forall p | |mid| <= p < |log| :: Caused(s, e, log[p])
    ensures AllCaused(s, e, log)
  {
    hide Caused;
    assert log[..|s.log|] == mid[..|s.log|];
    forall p | |s.log| <= p < |log| ensures Caused(s, e, log[p]) {
      assert p < |mid| ==> log[p] == mid[p];
    }
  }

  lemma AnswerAllCaused(s: State, answer: Answer)
    requires Inv(s) && s.awaiting != [] && Formed(AfterAnswer(s, 0, answer))
    ensures AllCaused(s, WalletAnswer(0, answer), Drain(AfterAnswer(s, 0, answer)).log)
  {
    hide Drain, Inv, AfterAnswer, ByLoop, Caused, AllCaused;
    InvFormed(s);
    AnswerLog(s, answer);
    var resumed := AfterAnswer(s, 0, answer);
    DrainAdds(resumed);
    var log := Drain(resumed).log;
    forall p | |resumed.log| <= p < |log| ensures Caused(s, WalletAnswer(0, answer), log[p]) {
      AnswerCauses(s, answer, log[p]);
    }
    CausesJoin(s, WalletAnswer(0, answer), resumed.log, log);
  }

  lemma TimeOutAllCaused(s: State, id: nat)
    requires Formed(s) && Enabled(s, TimerFires(id))
    ensures AllCaused(s, TimerFires(id), TimeOut(s, id).log)
  {
  }

  lemma StepCauses(s: State, e: Event)
    requires Inv(s)
    ensures AllCaused(s, e, Apply(s, e).log)
  {
    hide Drain, Inv, Caused, AfterAnswer, TimeOut, EnqueueSign;
    InvFormed(s);
    if Enabled(s, e) {
      match e
      case Enqueue(xdr) => EnqueueAllCaused(s, xdr);
      case WalletAnswer(k, answer) =>
        OnlyFirst(s, k);
        AnswerResumes(s, k, answer);
        AnswerAllCaused(s, answer);
      case TimerFires(id) => TimeOutAllCaused(s, id);
      case SetKit(_) =>
      case Tick(_) =>
    }
  }

  lemma OnlyFirst(s: State, k: nat)
    requires Inv(s) && k < |s.awaiting|
    ensures k == 0
  {
  }

  lemma AnswerLog(s: State, answer: Answer)
    requires Formed(s) && s.awaiting != []
    ensures AllCaused(s, WalletAnswer(0, answer), AfterAnswer(s, 0, answer).log)
  {
    var e, id, log := WalletAnswer(0, answer), s.awaiting[0], AfterAnswer(s, 0, answer).log;
    var heard := s.log + [Answered(id, answer)];
    assert log == heard || log == heard + [Settled(id, ByWallet(answer), s.now)];
    hide AfterAnswer, Settle;
    assert Caused(s, e, Answered(id, answer)) && Caused(s, e, Settled(id, ByWallet(answer), s.now));
    hide Caused;
  }

  /** Event `n` of a run is where the effect at `p` comes from. */
  ghost predicate CausedAt(events: seq<Event>, n: nat, p: nat, x: Effect) {
    && n < |events|
    && |Run(events[..n]).log| <= p < |Run(events[..n + 1]).log|
    && Caused(Run(events[..n]), events[n], x)
  }

  lemma CausedEarlier(events: seq<Event>, n: nat, p: nat, x: Effect)
    requires events != [] && CausedAt(events[..|events| - 1], n, p, x)
    ensures CausedAt(events, n, p, x)
  {
    hide Run, Caused;
    var init := events[..|events| - 1];
    assert init[..n] == events[..n] && init[..n + 1] == events[..n + 1] && init[n] == events[n];
  }

  lemma RunOfLast(events: seq<Event>)
    requires events != []
    ensures Formed(Run(events[..|events| - 1]))
    ensures Run(events) == Apply(Run(events[..|events| - 1]), events[|events| - 1])
  {
    RunKeeps(events[..|events| - 1]);
  }

  lemma CausedLast(events: seq<Event>, p: nat)
    requires events != [] && |Run(events[..|events| - 1]).log| <= p < |Run(events).log|
    ensures CausedAt(events, |events| - 1, p, Run(events).log[p])
  {
    hide Apply, Caused, Run;
    var init, last := events[..|events| - 1], events[|events| - 1];
    RunKeeps(init);
    RunOfLast(events);
    StepCauses(Run(init), last);
    assert events[..|events| - 1 + 1] == events;
  }

  /**
   * Every effect of a run has its cause among the events. A prompt opens only with a kit set and shows the
   * request's own transaction; an answer or a wallet outcome is the wallet's for that very prompt; a request
   * is refused for want of a kit only while none is set; it times out only once its time is up.
   */
  lemma {:induction false} EffectsHaveCauses(events: seq<Event>, p: nat)
    requires p < |Run(events).log|
    ensures exists n: nat :: CausedAt(events, n, p, Run(events).log[p])
  {
    if events != [] {
      hide Apply, Caused, Run, CausedAt;
      var init, last := events[..|events| - 1], events[|events| - 1];
      RunKeeps(init);
      RunOfLast(events);
      StepCauses(Run(init), last);
      if p < |Run(init).log| {
        assert Run(events).log[..|Run(init).log|][p] == Run(events).log[p];
        EffectsHaveCauses(init, p);
        var n: nat :| CausedAt(init, n, p, Run(init).log[p]);
        CausedEarlier(events, n, p, Run(events).log[p]);
      } else {
        CausedLast(events, p);
      }
    }
  }

  /** What was asked for: each enqueue's transaction, with the time by the clock ticks before it. */
  function Asked(events: seq<Event>): seq<(string, int)> {
    if events == [] then []
    else
      var init, last := events[..|events| - 1], events[|events| - 1];
      if last.Enqueue? then Asked(init) + [(last.xdr, Clock(init))] else Asked(init)
  }

  /** The clock after the ticks; it does not run backwards. */
  function Clock(events: seq<Event>): int {
    if events == [] then 0
    else
      var before, last := Clock(events[..|events| - 1]), events[|events| - 1];
      if last.Tick? && before <= last.to then last.to else before
  }

  function AskedBy(entries: seq<Entry>): seq<(string, int)> {
    seq(|entries|, i requires 0 <= i < |entries| => (entries[i].xdr, entries[i].enqueuedAt))
  }

  lemma SettleAsks(s: State, id: nat, outcome: Outcome)
    requires id < |s.entries|
    ensures var s' := Settle(s, id, outcome); AskedBy(s'.entries) == AskedBy(s.entries) && s'.now == s.now
  {
  }

  lemma {:induction false} DrainAsks(s: State)
    requires Formed(s)
    ensures AskedBy(Drain(s).entries) == AskedBy(s.entries) && Drain(s).now == s.now
    decreases |s.queue|
  {
    hide AskedBy;
    if s.queue != [] && !s.kit {
      SettleAsks(s, s.queue[0], NoKit);
      DrainAsks(Settle(s, s.queue[0], NoKit).(queue := s.queue[1..]));
    }
  }

  lemma EnqueueAsks(s: State, xdr: string)
    requires Formed(s)
    ensures var s' := EnqueueSign(s, xdr);
            AskedBy(s'.entries) == AskedBy(s.entries) + [(xdr, s.now)] && s'.now == s.now
  {
    hide Drain;
    var pushed := s.(entries := s.entries + [Entry(xdr, s.now, false, true)], queue := s.queue + [|s.entries|]);
    assert AskedBy(pushed.entries) == AskedBy(s.entries) + [(xdr, s.now)];
    if !s.isProcessing { DrainAsks(pushed.(isProcessing := true)); }
  }

  lemma AnswerAsks(s: State, answer: Answer)
    requires Formed(s) && s.awaiting != []
    ensures var s' := AfterAnswer(s, 0, answer); AskedBy(s'.entries) == AskedBy(s.entries) && s'.now == s.now
  {
    var heard := s.(awaiting := s.awaiting[..0] + s.awaiting[1..], log := s.log + [Answered(s.awaiting[0], answer)]);
    SettleAsks(heard, s.awaiting[0], ByWallet(answer));
    hide AskedBy, Settle;
  }

  lemma TimeOutAsks(s: State, id: nat)
    requires Formed(s) && id < |s.entries|
    ensures var s' := TimeOut(s, id); AskedBy(s'.entries) == AskedBy(s.entries) && s'.now == s.now
  {
    var fired := s.(entries := s.entries[id := s.entries[id].(timerLive := false)]);
    assert AskedBy(fired.entries) == AskedBy(s.entries);
    SettleAsks(fired, id, TimedOut);
    hide AskedBy, Settle;
  }

  /** The requests are those enqueued, in order, each with its own transaction and time. */
  lemma {:induction false} RequestsAreAsked(events: seq<Event>)
    ensures AskedBy(Run(events).entries) == Asked(events) && Run(events).now == Clock(events)
  {
    hide Drain, AfterAnswer, TimeOut, EnqueueSign, Core, AskedBy, Asked, Clock;
    if events == [] {
      NothingAsked();
    } else {
      var init, last := events[..|events| - 1], events[|events| - 1];
      RequestsAreAsked(init);
      RunKeeps(init);
      RunOfLast(events);
      StepAsks(Run(init), last);
      AskedStep(events);
    }
  }

  lemma NothingAsked()
    ensures AskedBy([]) == Asked([]) == [] && Clock([]) == 0
  {
  }

  lemma AskedStep(events: seq<Event>)
    requires events != []
    ensures var init, last := events[..|events| - 1], events[|events| - 1];
            && Asked(events) == (if last.Enqueue? then Asked(init) + [(last.xdr, Clock(init))] else Asked(init))
            && Clock(events) == if last.Tick? && Clock(init) <= last.to then last.to else Clock(init)
  {
  }

  lemma StepAsks(s: State, e: Event)
    requires Inv(s)
    ensures var s' := Apply(s, e);
            && AskedBy(s'.entries) == (if e.Enqueue? then AskedBy(s.entries) + [(e.xdr, s.now)] else AskedBy(s.entries))
            && s'.now == if e.Tick? && s.now <= e.to then e.to else s.now
  {
    hide Drain, AfterAnswer, TimeOut, EnqueueSign, AskedBy, Inv;
    InvFormed(s);
    if Enabled(s, e) {
      match e
      case Enqueue(xdr) => EnqueueAsks(s, xdr);
      case WalletAnswer(k, answer) =>
        OnlyFirst(s, k);
        AnswerResumes(s, k, answer);
        AnswerAsks(s, answer);
        DrainAsks(AfterAnswer(s, 0, answer));
      case TimerFires(id) => TimeOutAsks(s, id);
      case SetKit(_) =>
      case Tick(_) =>
    }
  }

  // ---- Bounded settlement ----

  /** No unsettled request is past its deadline, and every settlement came by the deadline. */
  ghost predicate Timely(s: State) {
    && (forall id | 0 <= id < |s.entries| && !s.entries[id].settled ::
          s.now <= s.entries[id].enqueuedAt + SIGN_TIMEOUT_MS)
    && (forall p | 0 <= p < |s.log| && s.log[p].Settled? ::
          s.log[p].id < |s.entries| && s.log[p].at <= s.entries[s.log[p].id].enqueuedAt + SIGN_TIMEOUT_MS)
  }

  /** Timers fire on time: the clock does not pass a live timer's deadline. */
  ghost predicate Punctual(s: State, e: Event) {
    e.Tick? ==>
      forall id | 0 <= id < |s.entries| && s.entries[id].timerLive :: e.to <= s.entries[id].enqueuedAt + SIGN_TIMEOUT_MS
  }

  ghost predicate PunctualRun(events: seq<Event>) {
    events == [] ||
    (PunctualRun(events[..|events| - 1]) && Punctual(Run(events[..|events| - 1]), events[|events| - 1]))
  }

  lemma SettleTimely(s: State, id: nat, outcome: Outcome)
    requires Timely(s) && id < |s.entries|
    ensures Timely(Settle(s, id, outcome))
  {
  }

  lemma {:induction false} DrainTimely(s: State)
    requires Timely(s) && Formed(s)
    ensures Timely(Drain(s))
    decreases |s.queue|
  {
    if s.queue != [] && !s.kit {
      SettleTimely(s, s.queue[0], NoKit);
      DrainTimely(Settle(s, s.queue[0], NoKit).(queue := s.queue[1..]));
    }
  }

  lemma EnqueueTimely(s: State, xdr: string)
    requires Formed(s) && Timely(s)
    ensures Timely(EnqueueSign(s, xdr))
  {
    hide Drain;
    var pushed := s.(entries := s.entries + [Entry(xdr, s.now, false, true)], queue := s.queue + [|s.entries|]);
    assert Timely(pushed);
    if !s.isProcessing { DrainTimely(pushed.(isProcessing := true)); }
  }

  lemma AnswerTimely(s: State, answer: Answer)
    requires Inv(s) && Timely(s) && s.awaiting != []
    ensures Timely(AfterAnswer(s, 0, answer))
  {
    var heard := s.(awaiting := s.awaiting[..0] + s.awaiting[1..], log := s.log + [Answered(s.awaiting[0], answer)]);
    assert Timely(heard);
    SettleTimely(heard, s.awaiting[0], ByWallet(answer));
  }

  lemma TimeOutTimely(s: State, id: nat)
    requires Formed(s) && Timely(s) && id < |s.entries|
    ensures Timely(TimeOut(s, id))
  {
    var fired := s.(entries := s.entries[id := s.entries[id].(timerLive := false)]);
    assert Timely(fired);
    SettleTimely(fired, id, TimedOut);
  }

  lemma StepTimely(s: State, e: Event)
    requires Inv(s) && Timely(s) && Punctual(s, e)
    ensures Timely(Apply(s, e))
  {
    hide Drain, AfterAnswer, TimeOut, EnqueueSign, LogSafe, PromptsPrecedeQueue;
    if Enabled(s, e) {
      match e
      case Enqueue(xdr) => EnqueueTimely(s, xdr);
      case WalletAnswer(k, answer) =>
        AnswerResumes(s, k, answer);
        AnswerTimely(s, answer);
        DrainTimely(AfterAnswer(s, 0, answer));
      case TimerFires(id) => TimeOutTimely(s, id);
      case SetKit(_) =>
      case Tick(_) =>
    }
  }

  lemma {:induction false} RunTimely(events: seq<Event>)
    requires PunctualRun(events)
    ensures Timely(Run(events))
  {
    if events != [] {
      RunKeeps(events[..|events| - 1]);
      RunTimely(events[..|events| - 1]);
      StepTimely(Run(events[..|events| - 1]), events[|events| - 1]);
    }
  }

  /**
   * With timers firing on time, a request is settled no later than two minutes after its
   * enqueue, whatever the wallet does with this or any other prompt.
   */
  lemma SettledByDeadline(events: seq<Event>, id: nat)
    requires PunctualRun(events) && id < |Run(events).entries|
    ensures var s := Run(events);
            var deadline := s.entries[id].enqueuedAt + 120_000;
            && (s.now > deadline ==> s.entries[id].settled)
            && (s.entries[id].settled ==>
                  exists p | 0 <= p < |s.log| :: s.log[p].Settled? && s.log[p].id == id && s.log[p].at <= deadline)
  {
    RunTimely(events);
    QueueIsSafe(events);
    var s := Run(events);
    if s.entries[id].settled {
      assert SettledIn(s.log, id);
      var p :| 0 <= p < |s.log| && s.log[p].Settled? && s.log[p].id == id;
      assert s.log[p].at <= s.entries[id].enqueuedAt + SIGN_TIMEOUT_MS;
    }
  }

  // ---- What a timeout does not do ----

  /** From `s` to `s'` no prompt opened or was answered, and requests were settled only by timing out. */
  ghost predicate OnlyTimeouts(s: State, s': State) {
    && s'.awaiting == s.awaiting
    && |s'.log| >= |s.log| && s'.log[..|s.log|] == s.log
    && forall p | |s.log| <= p < |s'.log| :: s'.log[p].Settled? && s'.log[p].outcome == TimedOut
  }

  lemma StuckStep(s: State, e: Event)
    requires Inv(s) && s.awaiting != [] && !e.WalletAnswer?
    ensures Apply(s, e).awaiting == s.awaiting
    ensures e.TimerFires? || Apply(s, e).log == s.log
    ensures e.TimerFires? ==> Apply(s, e).log == s.log || Apply(s, e).log == s.log + [Settled(e.id, TimedOut, s.now)]
  {
  }

  lemma OnlyTimeoutsExtend(s: State, events: seq<Event>, e: Event)
    requires OnlyTimeouts(s, Run(events)) && s.awaiting != [] && !e.WalletAnswer?
    ensures OnlyTimeouts(s, Run(events + [e]))
  {
    RunKeeps(events);
    StuckStep(Run(events), e);
    assert (events + [e])[..|events|] == events;
  }

  /**
   * While a prompt goes unanswered, no later request is prompted for, however many time out: the
   * only effects are timeouts. (The doc comment promises the queue moves on.)
   */
  lemma {:induction false} OnlyTimeoutsWhileStuck(before: seq<Event>, more: seq<Event>)
    requires Run(before).awaiting != []
    requires forall e <- more :: !e.WalletAnswer?
    ensures OnlyTimeouts(Run(before), Run(before + more))
  {
    if more == [] {
      assert before + more == before;
    } else {
      var init := more[..|more| - 1];
      OnlyTimeoutsWhileStuck(before, init);
      OnlyTimeoutsExtend(Run(before), before + init, more[|more| - 1]);
      assert before + init + [more[|more| - 1]] == before + more;
    }
  }

  /**
   * When the next prompt opens: with the wallet's answer, and then exactly if a kit is set and a request is
   * left; it is for the front of the queue. Otherwise the loop ends with the queue empty.
   */
  lemma NextPromptOpensOnAnswer(events: seq<Event>, answer: Answer)
    requires Run(events).awaiting != []
    ensures var s, after := Run(events), Run(events + [WalletAnswer(0, answer)]);
            var left := ShiftIfFront(s.queue, s.awaiting[0]);
            if s.kit && left != [] then
              && left[0] < |s.entries| && after.awaiting == [left[0]] && after.queue == left
              && after.log != [] && after.log[|after.log| - 1] == Opened(left[0], s.entries[left[0]].xdr)
            else after.awaiting == [] && after.queue == [] && !after.isProcessing
  {
    hide Apply, Drain, AfterAnswer, ShiftIfFront, Inv;
    RunKeeps(events);
    var s := Run(events);
    assert (events + [WalletAnswer(0, answer)])[..|events|] == events;
    InvFormed(s);
    AnswerResumes(s, 0, answer);
    AnswerKeeps(s, answer);
    AnswerLeaves(s, answer);
    var resumed := AfterAnswer(s, 0, answer);
    if s.kit && resumed.queue != [] {
      DrainPrompts(resumed);
    } else {
      DrainsAll(resumed);
    }
  }

  lemma AnswerLeaves(s: State, answer: Answer)
    requires Inv(s) && s.awaiting != []
    ensures var resumed := AfterAnswer(s, 0, answer);
            && resumed.queue == ShiftIfFront(s.queue, s.awaiting[0]) && resumed.kit == s.kit
            && |resumed.entries| == |s.entries|
            && forall id | 0 <= id < |s.entries| :: resumed.entries[id].xdr == s.entries[id].xdr
  {
  }

  lemma {:induction false} DrainsAll(s: State)
    requires Formed(s) && s.awaiting == [] && (s.queue == [] || !s.kit)
    ensures Drain(s).awaiting == [] && Drain(s).queue == [] && !Drain(s).isProcessing
    decreases |s.queue|
  {
    if s.queue != [] {
      DrainsAll(Settle(s, s.queue[0], NoKit).(queue := s.queue[1..]));
    }
  }

  /** An idle queue with a kit prompts at once; a busy one only queues. */
  lemma EnqueueIdleOrBusy(s: State, xdr: string)
    requires Inv(s) && s.kit
    ensures !s.isProcessing ==>
              EnqueueSign(s, xdr) == s.(entries := s.entries + [Entry(xdr, s.now, false, true)],
                                        queue := [|s.entries|], awaiting := [|s.entries|], isProcessing := true,
                                        log := s.log + [Opened(|s.entries|, xdr)])
    ensures s.isProcessing ==>
              EnqueueSign(s, xdr) == s.(entries := s.entries + [Entry(xdr, s.now, false, true)],
                                        queue := s.queue + [|s.entries|])
  {
  }

  /** Two requests reach an idle queue and the first times out: the second is still not prompted for. */
  lemma TimeoutDoesNotOpenNextPrompt(s: State, a: string, b: string)
    requires Inv(s) && s.kit && !s.isProcessing
    ensures var n, at := |s.entries|, s.now + SIGN_TIMEOUT_MS;
            Inv(EnqueueSign(s, a)) && Inv(EnqueueSign(EnqueueSign(s, a), b)) &&
            var waiting := EnqueueSign(EnqueueSign(s, a), b).(now := at);
            var late := TimeOut(waiting, n);
            late.queue == [n + 1] && late.awaiting == [n]
            && late.log == s.log + [Opened(n, a), Settled(n, TimedOut, at)]
  {
    var n, at := |s.entries|, s.now + SIGN_TIMEOUT_MS;
    EnqueueKeeps(s, a);
    EnqueueIdleOrBusy(s, a);
    var first := EnqueueSign(s, a);
    EnqueueKeeps(first, b);
    EnqueueIdleOrBusy(first, b);
    var waiting := EnqueueSign(first, b).(now := at);
    assert waiting.queue == [n, n + 1];
    assert Without(waiting.queue, n) == [n + 1];
    assert s.log + [Opened(n, a)] + [Settled(n, TimedOut, at)] == s.log + [Opened(n, a), Settled(n, TimedOut, at)];
  }

  // ---- The module as it runs ----

  class SigningQueue {
    var kitRef: bool
    var queue: seq<nat>
    var isProcessing: bool
    var awaiting: seq<nat>
    var entries: seq<Entry>
    var now: int
    ghost var log: seq<Effect>

    ghost function Current(): State
      reads this
    {
      State(kitRef, queue, isProcessing, awaiting, entries, now, log)
    }

    constructor ()
      ensures Current() == INITIAL
    {
      kitRef, queue, isProcessing, awaiting, entries, now, log := false, [], false, [], [], 0, [];
    }

    method SetSigningKit(present: bool)
      requires Formed(Current())
      modifies this
      ensures Current() == old(Current()).(kit := present) == Apply(old(Current()), SetKit(present))
    {
      kitRef := present;
    }

    /** Settles a request once; a second settlement is dropped. */
    method SettleEntry(id: nat, outcome: Outcome)
      requires id < |entries|
      modifies this
      ensures Current() == Settle(old(Current()), id, outcome)
    {
      if entries[id].settled { return; }
      entries := entries[id := entries[id].(settled := true, timerLive := false)];
      log := log + [Settled(id, outcome, now)];
    }

    /** `processQueue` from the top of its loop until it suspends or returns. */
    method Loop()
      requires Formed(Current())
      modifies this
      ensures Current() == Drain(old(Current()))
    {
      while |queue| > 0
        invariant Formed(Current())
        invariant Drain(Current()) == Drain(old(Current()))
        decreases |queue|
      {
        var entry := queue[0];
        if !kitRef {
          SettleEntry(entry, NoKit);
          queue := queue[1..];
        } else {
          log := log + [Opened(entry, entries[entry].xdr)];
          awaiting := awaiting + [entry];
          return;
        }
      }
      isProcessing := false;
    }

    /** Called at every boundary; keeps the whole invariant. */
    method Enqueue(xdr: string) returns (id: nat)
      requires Inv(Current())
      modifies this
      ensures Inv(Current()) && id == old(|entries|)
      ensures Current() == EnqueueSign(old(Current()), xdr)
    {
      EnqueueKeeps(Current(), xdr);
      PushKeeps(Current(), xdr);
      id := |entries|;
      entries := entries + [Entry(xdr, now, false, true)];
      queue := queue + [id];
      ghost var pushed := Current();
      if !isProcessing {
        isProcessing := true;
        assert Current() == pushed.(isProcessing := true);
        Loop();
      }
    }

    /** What follows the `await`, before the loop is taken up again. */
    method SettleAndShift(entry: nat, answer: Answer)
      requires entry < |entries|
      modifies this
      ensures Current() == Settle(old(Current()), entry, ByWallet(answer)).(queue := ShiftIfFront(old(queue), entry))
    {
      SettleEntry(entry, ByWallet(answer));
      if |queue| > 0 && queue[0] == entry {
        queue := queue[1..];
      }
    }

    /** The wallet resolves or rejects; the suspended loop resumes. */
    method WalletAnswers(activation: nat, answer: Answer)
      requires Inv(Current()) && activation < |awaiting|
      modifies this
      ensures Inv(Current())
      ensures Current() == Apply(old(Current()), WalletAnswer(activation, answer))
    {
      hide Drain, LogSafe, EntriesAgree, PromptsPrecedeQueue, OpenPrompts;
      AnswerResumes(Current(), activation, answer);
      var entry := awaiting[activation];
      awaiting := awaiting[..activation] + awaiting[activation + 1..];
      log := log + [Answered(entry, answer)];
      SettleAndShift(entry, answer);
      Loop();
    }

    method SpliceOut(id: nat)
      modifies this
      ensures Current() == old(Current()).(queue := Without(old(queue), id))
    {
      var i := 0;
      while i < |queue| && queue[i] != id
        invariant 0 <= i <= |queue|
        invariant id !in queue[..i]
      {
        i := i + 1;
      }
      WithoutAt(queue, id, i);
      if i < |queue| {
        queue := queue[..i] + queue[i + 1..];
      }
    }

    /** The timeout callback of one request. */
    method TimeoutFires(id: nat)
      requires Inv(Current()) && Enabled(Current(), TimerFires(id))
      modifies this
      ensures Inv(Current())
      ensures Current() == TimeOut(old(Current()), id)
    {
      TimeOutKeeps(Current(), id);
      entries := entries[id := entries[id].(timerLive := false)];
      if entries[id].settled { return; }
      SettleEntry(id, TimedOut);
      SpliceOut(id);
    }
  }

  /** `indexOf` then `splice` removes the first occurrence. */
  lemma {:induction false} WithoutAt(queue: seq<nat>, id: nat, i: nat)
    requires i <= |queue| && id !in queue[..i]
    requires i < |queue| ==> queue[i] == id
    ensures Without(queue, id) == if i < |queue| then queue[..i] + queue[i + 1..] else queue
  {
    if i > 0 {
      assert queue[..i][0] == queue[0];
      assert queue == [queue[0]] + queue[1..];
      assert queue[..i] == [queue[0]] + queue[1..][..i - 1];
      WithoutAt(queue[1..], id, i - 1);
    }
  }
}
