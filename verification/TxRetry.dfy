/**
 * `submitWithRetry`: a bounded retry loop over an RPC and a wallet that may answer anything. What
 * they answer during attempt `i` is an arbitrary script `env(i)`; what the call does is a trace.
 */
module TxRetry {
  import opened Prelude
  import opened TxTracker

  // ---- Errors ----

  /** A thrown value: the two marked error classes, any other `Error`, or something else. */
  datatype Thrown = RetryableError(message: string) | UserError(message: string)
                  | PlainError(message: string) | NotAnError(text: string)

  /** What classification hands back; only `Retry` is a `TxRetryableError`. */
  datatype Classified = Retry(message: string) | AccountNotFound(message: string) | InsufficientBalance(message: string)
                      | AuthFailure(message: string) | OtherUserError(message: string) | NotClassified(text: string)

  /** The message patterns, left uninterpreted. */
  datatype Patterns = Patterns(
    accountMissing: string -> bool,
    lowBalance: string -> bool,
    auth: string -> bool,
    userError: string -> bool,
    retriable: string -> bool)

  predicate IsRetriableError(error: Thrown, p: Patterns) {
    match error
    case RetryableError(_) => true
    case UserError(_) => false
    case PlainError(message) => !p.userError(message) && p.retriable(message)
    case NotAnError(text) => !p.userError(text) && p.retriable(text)
  }

  function ClassifySubmissionError(error: Thrown, detail: string, p: Patterns): Classified {
    match error
    case RetryableError(message) => Retry(message)
    case NotAnError(text) => NotClassified(text)
    case _ =>
      var haystack := error.message + " " + detail;
      if p.accountMissing(haystack) then AccountNotFound(error.message)
      else if p.lowBalance(haystack) then InsufficientBalance(error.message)
      else if p.auth(haystack) then AuthFailure(error.message)
      else if IsRetriableError(error, p) || IsRetriableError(PlainError(haystack), p) then Retry(error.message)
      else OtherUserError(error.message)
  }

  /**
   * When an error is retried. The three user patterns win over the retriable one. An error already
   * marked as the user's is still retried when its text and detail together read as transient.
   */
  lemma RetriedExactlyWhen(error: Thrown, detail: string, p: Patterns)
    ensures ClassifySubmissionError(error, detail, p).Retry? <==>
            error.RetryableError? ||
            (!error.NotAnError? &&
             var haystack := error.message + " " + detail;
             var userText := p.accountMissing(haystack) || p.lowBalance(haystack) || p.auth(haystack);
             var transient := (text: string) => p.retriable(text) && !p.userError(text);
             !userText && (transient(haystack) || (error.PlainError? && transient(error.message))))
  {
  }

  /** An `Error` not marked retryable, read with the detail beside it. */
  ghost predicate Reads(error: Thrown, detail: string, pattern: string -> bool) {
    (error.UserError? || error.PlainError?) && pattern(error.message + " " + detail)
  }

  /**
   * What each class means. The patterns are tried in the order missing account, low balance, authorization,
   * and the error keeps its own message; what is not an `Error` is no class of its own.
   */
  lemma ClassifiedExactly(error: Thrown, detail: string, p: Patterns)
    ensures var c := ClassifySubmissionError(error, detail, p);
            && (c.AccountNotFound? <==> Reads(error, detail, p.accountMissing))
            && (c.InsufficientBalance? <==>
                  Reads(error, detail, p.lowBalance) && !Reads(error, detail, p.accountMissing))
            && (c.AuthFailure? <==>
                  && Reads(error, detail, p.auth)
                  && !Reads(error, detail, p.accountMissing) && !Reads(error, detail, p.lowBalance))
            && (c.NotClassified? <==> error.NotAnError?)
            && (if error.NotAnError? then c.text == error.text else c.message == error.message)
  {
    RetriedExactlyWhen(error, detail, p);
  }

  /** `schedule[i]` while there is one, its last entry afterwards; nothing for an empty schedule. */
  function BackoffDelayMs(attemptIndex: int, schedule: seq<nat>): Option<nat> {
    if schedule == [] then None
    else if attemptIndex < 0 then Some(schedule[0])
    else if attemptIndex < |schedule| then Some(schedule[attemptIndex])
    else Some(schedule[|schedule| - 1])
  }

  // ---- The outside ----

  datatype Reply<+T> = Got(value: T) | Threw(error: Thrown)

  /** `hash` is empty when the node sent none. */
  datatype SendReply = Accepted(hash: string) | SendError(hash: string, errorResult: string, saysDuplicate: bool)

  datatype PollReply = Success | FailedOnChain | Elsewise

  /**
   * Everything the outside does during one attempt. Other code may use the tracker `before` the
   * duplicate check, `meanwhile` up to the broadcast, and `during` the polling.
   */
  datatype Attempt = Attempt(
    before: seq<TrackerOp>,
    guardNow: int,
    meanwhile: seq<TrackerOp>,
    account: Reply<string>,
    build: Reply<string>,
    prepare: Reply<string>,
    sign: Reply<string>,
    send: Reply<SendReply>,
    recordNow: int,
    polls: nat -> PollReply,
    during: seq<TrackerOp>,
    lastNow: int)

  datatype Key = Key(poolId: string, txType: TxType)

  datatype Options = Options(
    maxRetries: int,
    backoff: seq<nat>,
    pollAttempts: nat,
    dedup: Option<Key>,
    track: Option<Key>,
    poolName: string,
    patterns: Patterns)

  // ---- What is observed ----

  datatype Effect =
    | GetAccount(account: Reply<string>)
    | BuildTx(of: string, tx: Reply<string>)
    | Prepare(from: string, prepared: Reply<string>)
    | SignRequest(asked: string, signed: Reply<string>)
    | Send(sent: string, reply: Reply<SendReply>)
    | Acknowledged(hash: string)
    | Poll(hash: string)
    | Failed(classified: Classified)
    | Backoff(delay: Option<nat>)

  datatype Outcome =
    | Returned(status: TxStatus, hash: string, attempts: int)
    | ThrewExhausted(attempts: int)
    | ThrewError(classified: Classified)

  datatype CallResult = CallResult(outcome: Outcome, trace: seq<Effect>, stored: seq<PendingTransaction>)

  // ---- One attempt up to the broadcast ----

  /** Account, build, simulation, signature and send, in that order; the first failure ends it. */
  datatype Stage =
    | Broken(calls: seq<Effect>, failure: Classified, mayRetry: bool)
    | Broadcast(calls: seq<Effect>, hash: string)

  const NO_DETAIL := "\"\""
  const SEND_FAILED := "Send failed: "

  function Caught(calls: seq<Effect>, error: Thrown, detail: string, p: Patterns): Stage {
    var classified := ClassifySubmissionError(error, detail, p);
    Broken(calls, classified, classified.Retry?)
  }

  function TryOnce(a: Attempt, p: Patterns): Stage {
    var fetched := [GetAccount(a.account)];
    if a.account.Threw? then Caught(fetched, a.account.error, NO_DETAIL, p)
    else
      var built := fetched + [BuildTx(a.account.value, a.build)];
      if a.build.Threw? then
        // Whatever the builder throws leaves the call, classified but not retried.
        Broken(built, ClassifySubmissionError(a.build.error, NO_DETAIL, p), false)
      else
        var prepared := built + [Prepare(a.build.value, a.prepare)];
        if a.prepare.Threw? then Caught(prepared, a.prepare.error, NO_DETAIL, p)
        else
          var signed := prepared + [SignRequest(a.prepare.value, a.sign)];
          if a.sign.Threw? then Caught(signed, a.sign.error, NO_DETAIL, p)
          else
            var sent := signed + [Send(a.sign.value, a.send)];
            if a.send.Threw? then Caught(sent, a.send.error, NO_DETAIL, p)
            else
              match a.send.value
              case Accepted(hash) => Broadcast(sent + [Acknowledged(hash)], hash)
              case SendError(hash, errorResult, saysDuplicate) =>
                if hash != "" && saysDuplicate then Broadcast(sent + [Acknowledged(hash)], hash)
                else Caught(sent, PlainError(SEND_FAILED + errorResult), errorResult, p)
  }

  // ---- Polling ----

  datatype PollResult = PollResult(verdict: PollReply, polls: nat)

  /** The first decisive answer within `n` polls, and how many polls were made. */
  function PollFor(polls: nat -> PollReply, n: nat, from: nat): (r: PollResult)
    requires from <= n
    ensures from <= r.polls <= n
    decreases n - from
  {
    if from == n then PollResult(Elsewise, n)
    else if polls(from) != Elsewise then PollResult(polls(from), from + 1)
    else PollFor(polls, n, from + 1)
  }

  /** Polling stops at the first decisive answer, and is undecided only when all `n` were. */
  lemma {:induction false} PollingStopsAtFirstAnswer(polls: nat -> PollReply, n: nat, from: nat)
    requires from <= n
    ensures var r := PollFor(polls, n, from);
            && (forall k: nat | from <= k < r.polls - 1 :: polls(k) == Elsewise)
            && (r.verdict != Elsewise ==> from < r.polls && polls(r.polls - 1) == r.verdict)
            && (r.verdict == Elsewise ==> r.polls == n && forall k: nat | from <= k < n :: polls(k) == Elsewise)
    decreases n - from
  {
    if from < n && polls(from) == Elsewise {
      PollingStopsAtFirstAnswer(polls, n, from + 1);
    }
  }

  function Polls(hash: string, n: nat): seq<Effect> {
    seq(n, _ => Poll(hash))
  }

  // ---- The call ----

  function RecordOf(o: Options, hash: string, now: int, attempts: int): PendingTransaction
    requires o.track.Some?
  {
    PendingTransaction(hash, o.track.value.txType, o.track.value.poolId,
                       if o.poolName == "" then o.track.value.poolId else o.poolName,
                       now, Pending, attempts, now, None)
  }

  function Register(o: Options, stored: seq<PendingTransaction>, hash: string, now: int, attempts: int)
    : seq<PendingTransaction>
  {
    if o.track.None? then stored else AddPendingTx(stored, RecordOf(o, hash, now, attempts))
  }

  function FailedPatch(now: int, attempts: nat): Patch {
    Patch(Some(TxStatus.Failed), Some(now), Some(FailedOnChainAfter(attempts)))
  }

  function CheckedPatch(now: int): Patch {
    Patch(None, Some(now), None)
  }

  /** The tracker once the polling is over. */
  function Watched(o: Options, a: Attempt, attempts: nat, hash: string, stored: seq<PendingTransaction>)
    : seq<PendingTransaction>
  {
    RunOps(Register(o, stored, hash, a.recordNow, attempts), a.during)
  }

  function Conclude(o: Options, a: Attempt, attempts: nat, calls: seq<Effect>, hash: string,
                    stored: seq<PendingTransaction>): CallResult
  {
    var polled := PollFor(a.polls, o.pollAttempts, 0);
    var watched := Watched(o, a, attempts, hash, stored);
    var trace := calls + Polls(hash, polled.polls);
    match polled.verdict
    case Success => CallResult(Returned(Confirmed, hash, attempts), trace, RemovePendingTx(watched, hash))
    case FailedOnChain =>
      CallResult(Returned(TxStatus.Failed, hash, attempts), trace,
                 UpdatePendingTx(watched, hash, FailedPatch(a.lastNow, attempts)))
    case Elsewise =>
      CallResult(Returned(Pending, hash, attempts), trace, UpdatePendingTx(watched, hash, CheckedPatch(a.lastNow)))
  }

  function Duplicate(o: Options, stored: seq<PendingTransaction>, now: int): Option<PendingTransaction> {
    if o.dedup.None? then None
    else FindRecentPendingTx(stored, o.dedup.value.poolId, o.dedup.value.txType, now)
  }

  function Retried(calls: seq<Effect>, failure: Classified, delay: Option<nat>, rest: CallResult): CallResult {
    rest.(trace := calls + [Effect.Failed(failure), Backoff(delay)] + rest.trace)
  }

  /** What an attempt leads to, `rest` being what a further attempt would. */
  function After(o: Options, a: Attempt, i: nat, stage: Stage, reached: seq<PendingTransaction>, rest: CallResult)
    : CallResult
  {
    match stage
    case Broadcast(calls, hash) => Conclude(o, a, i + 1, calls, hash, reached)
    case Broken(calls, failure, mayRetry) =>
      if !mayRetry then CallResult(ThrewError(failure), calls + [Effect.Failed(failure)], reached)
      else if i + 1 >= o.maxRetries then CallResult(ThrewExhausted(i + 1), calls + [Effect.Failed(failure)], reached)
      else Retried(calls, failure, BackoffDelayMs(i, o.backoff), rest)
  }

  /** The call from the point where `i` attempts have been made. */
  function Submit(o: Options, env: nat -> Attempt, i: nat, stored: seq<PendingTransaction>): CallResult
    decreases o.maxRetries - i
  {
    if i >= o.maxRetries then CallResult(ThrewExhausted(i), [], stored)
    else
      var a := env(i);
      var seen := RunOps(stored, a.before);
      var recent := Duplicate(o, seen, a.guardNow);
      if recent.Some? then CallResult(Returned(Pending, recent.value.hash, recent.value.attempts + i), [], seen)
      else
        var reached := RunOps(seen, a.meanwhile);
        After(o, a, i, TryOnce(a, o.patterns), reached, Submit(o, env, i + 1, reached))
  }

  // ---- Claims about a trace ----

  function IsSign(): Effect -> bool { (e: Effect) => e.SignRequest? }

  function IsAck(): Effect -> bool { (e: Effect) => e.Acknowledged? }

  function IsBackoff(): Effect -> bool { (e: Effect) => e.Backoff? }

  /** After an acknowledged broadcast only polls for its hash follow. */
  ghost predicate OnlyPollsAfterAck(trace: seq<Effect>) {
    forall p, q | 0 <= p < q < |trace| && trace[p].Acknowledged? :: trace[q] == Poll(trace[p].hash)
  }

  /** Nothing follows a failure that was not classified as retryable. */
  ghost predicate UserErrorsEndIt(trace: seq<Effect>) {
    forall p | 0 <= p < |trace| - 1 && trace[p].Failed? :: trace[p].classified.Retry?
  }

  /** The hash a send acknowledges: of an accepted one, or of a duplicate the network already has. */
  function AcknowledgedBy(reply: Reply<SendReply>): Option<string> {
    if reply.Threw? then None
    else
      match reply.value
      case Accepted(hash) => Some(hash)
      case SendError(hash, _, saysDuplicate) => if hash != "" && saysDuplicate then Some(hash) else None
  }

  /** The error a failed call ended with, and the raw result beside it. */
  datatype Told = Told(error: Thrown, detail: string)

  function FailureOf(e: Effect): Option<Told> {
    match e
    case GetAccount(r) => if r.Threw? then Some(Told(r.error, NO_DETAIL)) else None
    case BuildTx(_, r) => if r.Threw? then Some(Told(r.error, NO_DETAIL)) else None
    case Prepare(_, r) => if r.Threw? then Some(Told(r.error, NO_DETAIL)) else None
    case SignRequest(_, r) => if r.Threw? then Some(Told(r.error, NO_DETAIL)) else None
    case Send(_, r) =>
      if r.Threw? then Some(Told(r.error, NO_DETAIL))
      else if r.value.SendError? && AcknowledgedBy(r) == None then
        Some(Told(PlainError(SEND_FAILED + r.value.errorResult), r.value.errorResult))
      else None
    case _ => None
  }

  /** `e` may directly follow `prev`: each call takes what the call before it gave. */
  ghost predicate Follows(prev: Effect, e: Effect, p: Patterns) {
    && (e.BuildTx? ==> prev.GetAccount? && prev.account == Got(e.of))
    && (e.Prepare? ==> prev.BuildTx? && prev.tx == Got(e.from))
    && (e.SignRequest? ==> prev.Prepare? && prev.prepared == Got(e.asked))
    && (e.Send? ==> prev.SignRequest? && prev.signed == Got(e.sent))
    && (e.Acknowledged? ==> prev.Send? && AcknowledgedBy(prev.reply) == Some(e.hash))
    && (e.Poll? ==> prev == Acknowledged(e.hash) || prev == e)
    && (e.Failed? ==>
          && FailureOf(prev).Some?
          && e.classified == ClassifySubmissionError(FailureOf(prev).value.error, FailureOf(prev).value.detail, p))
    && (e.Backoff? ==> prev.Failed?)
    && (e.GetAccount? ==> prev.Backoff?)
  }

  /** Every attempt starts from its own account fetch, and each call directly follows the one it depends on. */
  ghost predicate Pipelined(trace: seq<Effect>, p: Patterns) {
    && (forall k | 0 <= k < |trace| - 1 :: Follows(trace[k], trace[k + 1], p))
    && (trace != [] ==> trace[0].GetAccount?)
  }

  ghost predicate TraceSafe(trace: seq<Effect>, p: Patterns) {
    && OnlyPollsAfterAck(trace)
    && UserErrorsEndIt(trace)
    && Pipelined(trace, p)
  }

  /** The calls of one attempt: the pipeline, up to wherever it broke. */
  ghost predicate Ladder(calls: seq<Effect>) {
    && 1 <= |calls| <= 6
    && calls[0].GetAccount?
    && (|calls| > 1 ==> calls[1].BuildTx?)
    && (|calls| > 2 ==> calls[2].Prepare?)
    && (|calls| > 3 ==> calls[3].SignRequest?)
    && (|calls| > 4 ==> calls[4].Send?)
    && (|calls| > 5 ==> calls[5].Acknowledged?)
  }

  lemma StageShape(a: Attempt, p: Patterns)
    ensures var s := TryOnce(a, p);
            && Ladder(s.calls)
            && (s.Broadcast? <==> |s.calls| == 6)
            && (s.Broadcast? ==> s.calls[5] == Acknowledged(s.hash))
            && (s.Broken? && s.mayRetry ==> s.failure.Retry?)
            && Pipelined(s.calls, p)
            && (s.Broken? ==> Follows(s.calls[|s.calls| - 1], Effect.Failed(s.failure), p))
  {
    hide ClassifySubmissionError;
  }

  lemma LadderCounts(calls: seq<Effect>)
    requires Ladder(calls)
    ensures |Filter(calls, IsSign())| <= 1
    ensures |Filter(calls, IsAck())| == if |calls| == 6 then 1 else 0
    ensures Filter(calls, IsBackoff()) == []
  {
    hide Filter;
    FilterAtMostOne(calls, IsSign(), 3);
    if |calls| == 6 {
      FilterAtMostOne(calls, IsAck(), 5);
    } else {
      FilterNone(calls, IsAck());
    }
    FilterNone(calls, IsBackoff());
  }

  /** An attempt that ends the call: broken, or broadcast and then polled for. */
  lemma LastAttemptSafe(calls: seq<Effect>, after: seq<Effect>, p: Patterns)
    requires Ladder(calls) && Pipelined(calls, p)
    requires |calls| < 6 ==> |after| == 1 && after[0].Failed? && Follows(calls[|calls| - 1], after[0], p)
    requires |calls| == 6 ==> forall e <- after :: e == Poll(calls[5].hash)
    ensures TraceSafe(calls + after, p)
  {
    hide FailureOf, ClassifySubmissionError, Follows;
    var trace := calls + after;
    assert forall q | |calls| <= q < |trace| :: trace[q] == after[q - |calls|] && trace[q] in after;
    assert forall q | 0 <= q < |calls| :: trace[q] == calls[q];
    forall k | 0 <= k < |trace| - 1 ensures Follows(trace[k], trace[k + 1], p) {
      if k + 1 < |calls| {
        assert Follows(calls[k], calls[k + 1], p);
      } else if |calls| == 6 {
        PollFollows(trace[k], calls[5].hash, p);
      }
    }
  }

  lemma PollFollows(prev: Effect, hash: string, p: Patterns)
    requires prev == Acknowledged(hash) || prev == Poll(hash)
    ensures Follows(prev, Poll(hash), p)
  {
  }

  /** Effects that are none of a broadcast, a failure or a pipeline call. */
  lemma PrefixedAckSafe(head: seq<Effect>, rest: seq<Effect>)
    requires forall e <- head :: !e.Acknowledged?
    requires OnlyPollsAfterAck(rest)
    ensures OnlyPollsAfterAck(head + rest)
  {
    var trace := head + rest;
    forall p, q | 0 <= p < q < |trace| && trace[p].Acknowledged?
      ensures trace[q] == Poll(trace[p].hash)
    {
      assert forall k | 0 <= k < |head| :: head[k] in head && trace[k] == head[k];
      assert trace[p] == rest[p - |head|] && trace[q] == rest[q - |head|];
    }
  }

  lemma PrefixedErrorsSafe(head: seq<Effect>, rest: seq<Effect>)
    requires forall e <- head :: e.Failed? ==> e.classified.Retry?
    requires UserErrorsEndIt(rest)
    ensures UserErrorsEndIt(head + rest)
  {
    var trace := head + rest;
    forall p | 0 <= p < |trace| - 1 && trace[p].Failed?
      ensures trace[p].classified.Retry?
    {
      if p < |head| {
        assert trace[p] in head;
      } else {
        assert trace[p] == rest[p - |head|];
      }
    }
  }

  lemma JoinPipelines(head: seq<Effect>, rest: seq<Effect>, p: Patterns)
    requires Pipelined(head, p) && Pipelined(rest, p)
    requires head != [] && (rest != [] ==> Follows(head[|head| - 1], rest[0], p))
    ensures Pipelined(head + rest, p)
  {
    hide Follows;
    var trace := head + rest;
    forall k | 0 <= k < |trace| - 1
      ensures Follows(trace[k], trace[k + 1], p)
    {
      if k + 1 < |head| {
        assert Follows(head[k], head[k + 1], p);
      } else if k >= |head| {
        assert Follows(rest[k - |head|], rest[k - |head| + 1], p);
      }
    }
  }

  /** A broken attempt and the wait for the next. */
  lemma BrokenPipeline(calls: seq<Effect>, failure: Classified, delay: Option<nat>, p: Patterns)
    requires calls != [] && Pipelined(calls, p) && Follows(calls[|calls| - 1], Effect.Failed(failure), p)
    ensures Pipelined(calls + [Effect.Failed(failure), Backoff(delay)], p)
  {
    var head := calls + [Effect.Failed(failure), Backoff(delay)];
    assert Follows(Effect.Failed(failure), Backoff(delay), p);
    hide Follows;
    forall k | 0 <= k < |head| - 1 ensures Follows(head[k], head[k + 1], p) {
      if k + 1 < |calls| {
        assert Follows(calls[k], calls[k + 1], p);
      }
    }
  }

  /** A broken attempt to be retried, the wait, and the rest of the call. */
  lemma RetriedAttemptSafe(calls: seq<Effect>, failure: Classified, delay: Option<nat>, rest: seq<Effect>, p: Patterns)
    requires Ladder(calls) && |calls| < 6 && failure.Retry? && TraceSafe(rest, p)
    requires Pipelined(calls, p) && Follows(calls[|calls| - 1], Effect.Failed(failure), p)
    ensures TraceSafe(calls + [Effect.Failed(failure), Backoff(delay)] + rest, p)
  {
    var head := calls + [Effect.Failed(failure), Backoff(delay)];
    assert forall q | 0 <= q < |calls| :: head[q] == calls[q];
    BrokenPipeline(calls, failure, delay, p);
    PrefixedAckSafe(head, rest);
    PrefixedErrorsSafe(head, rest);
    JoinPipelines(head, rest, p);
  }

  /** An answered call either broadcast under that hash or found it pending in the tracker. */
  ghost predicate AnswerMatches(r: CallResult) {
    && (r.outcome.Returned? ==>
          || Acknowledged(r.outcome.hash) in r.trace
          || (Filter(r.trace, IsAck()) == [] && r.outcome.status == Pending
              && exists e <- r.stored :: e.hash == r.outcome.hash && e.status == Pending))
    && (!r.outcome.Returned? ==> Filter(r.trace, IsAck()) == [])
    && (r.outcome.ThrewError? ==> r.trace != [] && r.trace[|r.trace| - 1] == Effect.Failed(r.outcome.classified))
  }

  lemma CountsAppend(xs: seq<Effect>, ys: seq<Effect>)
    ensures |Filter(xs + ys, IsSign())| == |Filter(xs, IsSign())| + |Filter(ys, IsSign())|
    ensures Filter(xs + ys, IsAck()) == Filter(xs, IsAck()) + Filter(ys, IsAck())
  {
    FilterAppend(xs, ys, IsSign());
    FilterAppend(xs, ys, IsAck());
  }

  lemma QuietCounts(xs: seq<Effect>)
    requires forall e <- xs :: !e.SignRequest? && !e.Acknowledged?
    ensures Filter(xs, IsSign()) == [] && Filter(xs, IsAck()) == []
  {
    FilterNone(xs, IsSign());
    FilterNone(xs, IsAck());
  }

  ghost predicate CallSafe(r: CallResult, signs: nat, p: Patterns) {
    && |Filter(r.trace, IsSign())| <= signs
    && |Filter(r.trace, IsAck())| <= 1
    && TraceSafe(r.trace, p)
    && AnswerMatches(r)
  }

  lemma PolledTraceSafe(calls: seq<Effect>, hash: string, n: nat, p: Patterns)
    requires Ladder(calls) && |calls| == 6 && calls[5] == Acknowledged(hash) && Pipelined(calls, p)
    ensures var trace := calls + Polls(hash, n);
            && TraceSafe(trace, p) && Acknowledged(hash) in trace
            && |Filter(trace, IsSign())| <= 1 && |Filter(trace, IsAck())| <= 1
  {
    LadderCounts(calls);
    QuietCounts(Polls(hash, n));
    CountsAppend(calls, Polls(hash, n));
    LastAttemptSafe(calls, Polls(hash, n), p);
    assert (calls + Polls(hash, n))[5] == Acknowledged(hash);
  }

  lemma ConcludeIsSafe(o: Options, a: Attempt, attempts: nat, calls: seq<Effect>, hash: string,
                       stored: seq<PendingTransaction>)
    requires Ladder(calls) && |calls| == 6 && calls[5] == Acknowledged(hash) && Pipelined(calls, o.patterns)
    ensures CallSafe(Conclude(o, a, attempts, calls, hash, stored), 1, o.patterns)
  {
    hide PollFor, Watched, UpdatePendingTx, RemovePendingTx, TraceSafe, Filter;
    PolledTraceSafe(calls, hash, PollFor(a.polls, o.pollAttempts, 0).polls, o.patterns);
  }

  lemma StoppedIsSafe(calls: seq<Effect>, failure: Classified, outcome: Outcome, stored: seq<PendingTransaction>,
                      p: Patterns)
    requires Ladder(calls) && |calls| < 6
    requires Pipelined(calls, p) && Follows(calls[|calls| - 1], Effect.Failed(failure), p)
    requires outcome.ThrewExhausted? || outcome == ThrewError(failure)
    ensures CallSafe(CallResult(outcome, calls + [Effect.Failed(failure)], stored), 1, p)
  {
    hide Filter, TraceSafe, Pipelined, Follows;
    LadderCounts(calls);
    LastAttemptSafe(calls, [Effect.Failed(failure)], p);
    QuietCounts([Effect.Failed(failure)]);
    CountsAppend(calls, [Effect.Failed(failure)]);
  }

  lemma RetriedIsSafe(calls: seq<Effect>, failure: Classified, delay: Option<nat>, rest: CallResult, signs: nat,
                      p: Patterns)
    requires Ladder(calls) && |calls| < 6 && failure.Retry? && CallSafe(rest, signs, p)
    requires Pipelined(calls, p) && Follows(calls[|calls| - 1], Effect.Failed(failure), p)
    ensures CallSafe(Retried(calls, failure, delay, rest), signs + 1, p)
  {
    hide Filter, TraceSafe, Pipelined, Follows;
    var wait := [Effect.Failed(failure), Backoff(delay)];
    LadderCounts(calls);
    RetriedAttemptSafe(calls, failure, delay, rest.trace, p);
    QuietCounts(wait);
    CountsAppend(calls, wait);
    CountsAppend(calls + wait, rest.trace);
    assert Filter(calls + wait, IsAck()) == [];
    var trace := calls + wait + rest.trace;
    assert rest.trace != [] ==> trace[|trace| - 1] == rest.trace[|rest.trace| - 1];
  }

  lemma StepIsSafe(o: Options, a: Attempt, i: nat, stage: Stage, reached: seq<PendingTransaction>, rest: CallResult)
    requires i < o.maxRetries && stage == TryOnce(a, o.patterns)
    requires CallSafe(rest, o.maxRetries - i - 1, o.patterns)
    ensures CallSafe(After(o, a, i, stage, reached, rest), o.maxRetries - i, o.patterns)
  {
    StageShape(a, o.patterns);
    match stage
    case Broadcast(calls, hash) => ConcludeIsSafe(o, a, i + 1, calls, hash, reached);
    case Broken(calls, failure, mayRetry) =>
      if mayRetry && i + 1 < o.maxRetries {
        RetriedIsSafe(calls, failure, BackoffDelayMs(i, o.backoff), rest, o.maxRetries - i - 1, o.patterns);
      } else {
        StoppedIsSafe(calls, failure, After(o, a, i, stage, reached, rest).outcome, reached, o.patterns);
      }
  }

  lemma FoundIsSafe(o: Options, stored: seq<PendingTransaction>, now: int, attempts: int)
    requires Duplicate(o, stored, now).Some?
    ensures CallSafe(CallResult(Returned(Pending, Duplicate(o, stored, now).value.hash, attempts), [], stored), 0,
            o.patterns)
  {
    FindRecentIsExact(stored, o.dedup.value.poolId, o.dedup.value.txType, now);
  }

  /**
   * Whatever the RPC, the wallet and other users of the tracker do, one call makes at most
   * `maxRetries` sign requests and at most one acknowledged broadcast, after which it only polls;
   * each attempt builds from the account fetched for it, prepares what was built, signs what was
   * prepared and sends what was signed; a failure is what the last call threw, classified; one not classified as
   * retryable is the last thing it does.
   */
  lemma {:induction false} SubmitIsSafe(o: Options, env: nat -> Attempt, i: nat, stored: seq<PendingTransaction>)
    ensures CallSafe(Submit(o, env, i, stored), if i < o.maxRetries then o.maxRetries - i else 0, o.patterns)
    decreases o.maxRetries - i
  {
    if i < o.maxRetries {
      var a := env(i);
      var seen := RunOps(stored, a.before);
      if Duplicate(o, seen, a.guardNow).Some? {
        FoundIsSafe(o, seen, a.guardNow, Duplicate(o, seen, a.guardNow).value.attempts + i);
      } else {
        var reached := RunOps(seen, a.meanwhile);
        SubmitIsSafe(o, env, i + 1, reached);
        StepIsSafe(o, a, i, TryOnce(a, o.patterns), reached, Submit(o, env, i + 1, reached));
      }
    }
  }

  lemma RetriedWaits(calls: seq<Effect>, failure: Classified, delay: Option<nat>, rest: CallResult)
    requires Ladder(calls)
    ensures Filter(Retried(calls, failure, delay, rest).trace, IsBackoff()) ==
            [Backoff(delay)] + Filter(rest.trace, IsBackoff())
  {
    hide Filter;
    LadderCounts(calls);
    var wait := [Effect.Failed(failure), Backoff(delay)];
    FilterAppend(calls, wait, IsBackoff());
    FilterPush([Effect.Failed(failure)], Backoff(delay), IsBackoff());
    FilterNone([Effect.Failed(failure)], IsBackoff());
    assert wait == [Effect.Failed(failure)] + [Backoff(delay)];
    FilterAppend(calls + wait, rest.trace, IsBackoff());
  }

  lemma StepWaits(o: Options, a: Attempt, i: nat, stage: Stage, reached: seq<PendingTransaction>, rest: CallResult)
    requires stage == TryOnce(a, o.patterns)
    ensures Filter(After(o, a, i, stage, reached, rest).trace, IsBackoff()) ==
            if stage.Broken? && stage.mayRetry && i + 1 < o.maxRetries
            then [Backoff(BackoffDelayMs(i, o.backoff))] + Filter(rest.trace, IsBackoff()) else []
  {
    hide TryOnce, PollFor, Watched, UpdatePendingTx, RemovePendingTx, Filter;
    StageShape(a, o.patterns);
    LadderCounts(stage.calls);
    match stage
    case Broadcast(calls, hash) =>
      var polls := Polls(hash, PollFor(a.polls, o.pollAttempts, 0).polls);
      FilterAppend(calls, polls, IsBackoff());
      FilterNone(polls, IsBackoff());
    case Broken(calls, failure, mayRetry) =>
      RetriedWaits(calls, failure, BackoffDelayMs(i, o.backoff), rest);
      FilterPush(calls, Effect.Failed(failure), IsBackoff());
  }

  /** The delay of the schedule's entry `k`, the last one standing for all later ones; none for an empty schedule. */
  ghost predicate WaitsFor(e: Effect, schedule: seq<nat>, k: nat) {
    && e.Backoff?
    && (schedule == [] ==> e.delay == None)
    && (k < |schedule| ==> e.delay == Some(schedule[k]))
    && (0 < |schedule| <= k ==> e.delay == Some(schedule[|schedule| - 1]))
  }

  ghost predicate WaitsInOrder(waits: seq<Effect>, o: Options, i: nat) {
    && (i < o.maxRetries ==> |waits| < o.maxRetries - i)
    && (i >= o.maxRetries ==> waits == [])
    && forall k | 0 <= k < |waits| :: WaitsFor(waits[k], o.backoff, i + k)
  }

  lemma WaitsStep(waits: seq<Effect>, o: Options, i: nat, rest: seq<Effect>)
    requires WaitsInOrder(rest, o, i + 1) && i < o.maxRetries
    requires waits == [] || (i + 1 < o.maxRetries && waits == [Backoff(BackoffDelayMs(i, o.backoff))] + rest)
    ensures WaitsInOrder(waits, o, i)
  {
    assert WaitsFor(Backoff(BackoffDelayMs(i, o.backoff)), o.backoff, i);
    hide WaitsFor, BackoffDelayMs;
    forall k | 0 <= k < |waits| ensures WaitsFor(waits[k], o.backoff, i + k) {
      if k > 0 {
        assert waits[k] == rest[k - 1];
      }
    }
  }

  /** Retries wait for the schedule's entries in order, its last entry repeating; no wait follows the last attempt. */
  lemma {:induction false} BackoffFollowsSchedule(o: Options, env: nat -> Attempt, i: nat,
                                                  stored: seq<PendingTransaction>)
    ensures WaitsInOrder(Filter(Submit(o, env, i, stored).trace, IsBackoff()), o, i)
    decreases o.maxRetries - i
  {
    if i < o.maxRetries {
      var a := env(i);
      var seen := RunOps(stored, a.before);
      if Duplicate(o, seen, a.guardNow).None? {
        var reached := RunOps(seen, a.meanwhile);
        var rest := Submit(o, env, i + 1, reached);
        BackoffFollowsSchedule(o, env, i + 1, reached);
        StepWaits(o, a, i, TryOnce(a, o.patterns), reached, rest);
        WaitsStep(Filter(Submit(o, env, i, stored).trace, IsBackoff()), o, i, Filter(rest.trace, IsBackoff()));
      }
    }
  }

  ghost predicate NonePending(stored: seq<PendingTransaction>, hash: string) {
    forall e <- stored | e.hash == hash :: e.status != Pending
  }

  lemma ConcludeSettles(o: Options, a: Attempt, attempts: nat, calls: seq<Effect>, hash: string,
                        stored: seq<PendingTransaction>)
    ensures var r := Conclude(o, a, attempts, calls, hash, stored);
            r.outcome.status != Pending ==> NonePending(r.stored, hash)
  {
    hide PollFor, Watched, RunOps;
  }

  /** A call that ends confirmed or failed leaves no pending record under its hash to block the next one. */
  lemma {:induction false} SettledCallUnblocks(o: Options, env: nat -> Attempt, i: nat, stored: seq<PendingTransaction>)
    ensures var r := Submit(o, env, i, stored);
            r.outcome.Returned? && r.outcome.status != Pending ==> NonePending(r.stored, r.outcome.hash)
    decreases o.maxRetries - i
  {
    hide TryOnce, Conclude, RunOps, Duplicate, NonePending;
    if i < o.maxRetries {
      var reached := RunOps(RunOps(stored, env(i).before), env(i).meanwhile);
      SettledCallUnblocks(o, env, i + 1, reached);
      var stage := TryOnce(env(i), o.patterns);
      if stage.Broadcast? {
        ConcludeSettles(o, env(i), i + 1, stage.calls, stage.hash, reached);
        ConcludeAnswers(o, env(i), i + 1, stage.calls, stage.hash, reached);
      }
    }
  }

  lemma ConcludeAnswers(o: Options, a: Attempt, attempts: nat, calls: seq<Effect>, hash: string,
                        stored: seq<PendingTransaction>)
    ensures var r := Conclude(o, a, attempts, calls, hash, stored); r.outcome.Returned? && r.outcome.hash == hash
  {
    hide PollFor, Watched, RunOps;
  }

  // ---- How many attempts, and how they end ----

  function IsFetch(): Effect -> bool { (e: Effect) => e.GetAccount? }

  /**
   * Each account fetch is that of the next attempt. The attempts reported are those made, plus those of the
   * record when one was found in flight; a call is exhausted only when none is left.
   */
  ghost predicate CountedBy(fetches: seq<Effect>, acknowledged: bool, outcome: Outcome, stored: seq<PendingTransaction>,
                            o: Options, env: nat -> Attempt, i: nat)
  {
    && (forall k | 0 <= k < |fetches| :: fetches[k] == GetAccount(env(i + k).account))
    && (i < o.maxRetries ==> i + |fetches| <= o.maxRetries)
    && match outcome
       case ThrewExhausted(attempts) =>
         attempts == i + |fetches| && attempts == if i < o.maxRetries then o.maxRetries else i
       case ThrewError(_) => fetches != []
       case Returned(_, hash, attempts) =>
         if acknowledged then attempts == i + |fetches|
         else exists e <- stored :: e.hash == hash && e.status == Pending && attempts == e.attempts + i + |fetches|
  }

  ghost predicate Counted(r: CallResult, o: Options, env: nat -> Attempt, i: nat) {
    CountedBy(Filter(r.trace, IsFetch()), Filter(r.trace, IsAck()) != [], r.outcome, r.stored, o, env, i)
  }

  /** Why a call throws: an error not retried, or thrown by the builder, ends it; exhausted, its last was retryable. */
  ghost predicate EndsRightly(outcome: Outcome, trace: seq<Effect>) {
    var n := |trace|;
    && (outcome.ThrewError? ==>
          && n > 1 && trace[n - 1] == Effect.Failed(outcome.classified)
          && (outcome.classified.Retry? ==> trace[n - 2].BuildTx?))
    && (outcome.ThrewExhausted? && n > 0 ==>
          n > 1 && trace[n - 1].Failed? && trace[n - 1].classified.Retry? && !trace[n - 2].BuildTx?)
    && (outcome.Returned? && n > 0 ==> !trace[n - 1].Failed?)
    && NoBuilderRetried(trace)
  }

  /** No error of the builder is followed by anything. */
  ghost predicate NoBuilderRetried(trace: seq<Effect>) {
    forall p | 0 < p < |trace| - 1 && trace[p].Failed? :: !trace[p - 1].BuildTx?
  }

  lemma StageEnds(a: Attempt, p: Patterns)
    ensures var s := TryOnce(a, p);
            && Filter(s.calls, IsFetch()) == [GetAccount(a.account)]
            && (s.Broken? ==>
                  && 0 < |s.calls| < 6
                  && (s.mayRetry <==> s.failure.Retry? && !s.calls[|s.calls| - 1].BuildTx?))
  {
    StageShape(a, p);
    TryFetches(a, p);
    BuilderEnds(a, p);
    hide TryOnce, Filter;
    var calls := TryOnce(a, p).calls;
    FilterAtMostOne(calls, IsFetch(), 0);
    var fetches := Filter(calls, IsFetch());
    assert fetches == [fetches[0]] && fetches[0] in calls;
  }

  lemma BuilderEnds(a: Attempt, p: Patterns)
    ensures var s := TryOnce(a, p);
            s.Broken? ==> (s.mayRetry <==> s.failure.Retry? && !s.calls[|s.calls| - 1].BuildTx?)
  {
    hide ClassifySubmissionError;
  }

  lemma FetchesAppend(xs: seq<Effect>, ys: seq<Effect>)
    ensures Filter(xs + ys, IsFetch()) == Filter(xs, IsFetch()) + Filter(ys, IsFetch())
    ensures Filter(xs + ys, IsAck()) == Filter(xs, IsAck()) + Filter(ys, IsAck())
  {
    FilterAppend(xs, ys, IsFetch());
    FilterAppend(xs, ys, IsAck());
  }

  lemma NoFetches(xs: seq<Effect>)
    requires forall e <- xs :: !e.GetAccount? && !e.Acknowledged?
    ensures Filter(xs, IsFetch()) == [] && Filter(xs, IsAck()) == []
  {
    FilterNone(xs, IsFetch());
    FilterNone(xs, IsAck());
  }

  /** What follows the calls of an attempt that ends the call adds no fetch and no acknowledgement. */
  lemma LastFetches(calls: seq<Effect>, after: seq<Effect>, account: Reply<string>)
    requires Ladder(calls) && Filter(calls, IsFetch()) == [GetAccount(account)]
    requires forall e <- after :: !e.GetAccount? && !e.Acknowledged?
    ensures Filter(calls + after, IsFetch()) == [GetAccount(account)]
    ensures Filter(calls + after, IsAck()) != [] <==> |calls| == 6
  {
    hide Filter, Ladder;
    LadderCounts(calls);
    NoFetches(after);
    FetchesAppend(calls, after);
    assert Filter(calls, IsAck()) + [] == Filter(calls, IsAck());
  }

  lemma BroadcastCounted(o: Options, env: nat -> Attempt, i: nat, calls: seq<Effect>, hash: string,
                         reached: seq<PendingTransaction>)
    requires i < o.maxRetries && Ladder(calls) && |calls| == 6
    requires Filter(calls, IsFetch()) == [GetAccount(env(i).account)]
    ensures var r := Conclude(o, env(i), i + 1, calls, hash, reached);
            Counted(r, o, env, i) && EndsRightly(r.outcome, r.trace)
  {
    hide PollFor, Watched, UpdatePendingTx, RemovePendingTx, Filter;
    LastFetches(calls, Polls(hash, PollFor(env(i).polls, o.pollAttempts, 0).polls), env(i).account);
  }

  lemma StoppedCounted(o: Options, env: nat -> Attempt, i: nat, calls: seq<Effect>, failure: Classified,
                       outcome: Outcome, reached: seq<PendingTransaction>)
    requires i < o.maxRetries && Ladder(calls) && |calls| < 6
    requires Filter(calls, IsFetch()) == [GetAccount(env(i).account)]
    requires outcome == ThrewError(failure) || (outcome == ThrewExhausted(i + 1) && i + 1 == o.maxRetries)
    ensures Counted(CallResult(outcome, calls + [Effect.Failed(failure)], reached), o, env, i)
  {
    hide Filter, Ladder;
    LastFetches(calls, [Effect.Failed(failure)], env(i).account);
  }

  lemma StoppedEnds(calls: seq<Effect>, failure: Classified, outcome: Outcome)
    requires Ladder(calls) && |calls| < 6
    requires outcome == ThrewError(failure) || outcome.ThrewExhausted?
    requires failure.Retry? && !calls[|calls| - 1].BuildTx? <==> outcome.ThrewExhausted?
    ensures EndsRightly(outcome, calls + [Effect.Failed(failure)])
  {
  }

  lemma RetriedCounted(o: Options, env: nat -> Attempt, i: nat, calls: seq<Effect>, failure: Classified,
                       delay: Option<nat>, rest: CallResult)
    requires i + 1 < o.maxRetries && Ladder(calls) && |calls| < 6
    requires Filter(calls, IsFetch()) == [GetAccount(env(i).account)]
    requires Counted(rest, o, env, i + 1)
    ensures Counted(Retried(calls, failure, delay, rest), o, env, i)
  {
    hide Filter, CountedBy, Ladder;
    var wait := [Effect.Failed(failure), Backoff(delay)];
    LastFetches(calls, wait, env(i).account);
    FetchesAppend(calls + wait, rest.trace);
    var r, later := Retried(calls, failure, delay, rest), Filter(rest.trace, IsFetch());
    assert Filter(r.trace, IsFetch()) == [GetAccount(env(i).account)] + later;
    assert Filter(r.trace, IsAck()) == Filter(rest.trace, IsAck());
    OneMore(o, env, i, later, Filter(rest.trace, IsAck()) != [], rest);
  }

  lemma OneMore(o: Options, env: nat -> Attempt, i: nat, later: seq<Effect>, acknowledged: bool, rest: CallResult)
    requires i + 1 < o.maxRetries && CountedBy(later, acknowledged, rest.outcome, rest.stored, o, env, i + 1)
    ensures CountedBy([GetAccount(env(i).account)] + later, acknowledged, rest.outcome, rest.stored, o, env, i)
  {
    var all := [GetAccount(env(i).account)] + later;
    forall k | 0 <= k < |all| ensures all[k] == GetAccount(env(i + k).account) {
      if k > 0 {
        assert later[k - 1] == GetAccount(env(i + 1 + (k - 1)).account);
      }
    }
  }

  lemma BuilderStillEnds(calls: seq<Effect>, failure: Classified, delay: Option<nat>, rest: seq<Effect>)
    requires Ladder(calls) && |calls| < 6 && !calls[|calls| - 1].BuildTx? && NoBuilderRetried(rest)
    requires rest != [] ==> !rest[0].Failed?
    ensures NoBuilderRetried(calls + [Effect.Failed(failure), Backoff(delay)] + rest)
  {
    var head := calls + [Effect.Failed(failure), Backoff(delay)];
    var trace := head + rest;
    forall p | 0 < p < |trace| - 1 && trace[p].Failed?
      ensures !trace[p - 1].BuildTx?
    {
      if p < |head| {
        assert trace[p] == head[p] && trace[p - 1] == head[p - 1];
        assert p == |calls|;
      } else {
        assert trace[p] == rest[p - |head|] && p > |head|;
        assert trace[p - 1] == rest[p - 1 - |head|];
      }
    }
  }

  lemma RetriedEnds(calls: seq<Effect>, failure: Classified, delay: Option<nat>, rest: CallResult)
    requires Ladder(calls) && |calls| < 6 && !calls[|calls| - 1].BuildTx?
    requires EndsRightly(rest.outcome, rest.trace)
    requires rest.trace != [] ==> !rest.trace[0].Failed?
    requires rest.trace == [] ==> rest.outcome.Returned?
    ensures EndsRightly(rest.outcome, Retried(calls, failure, delay, rest).trace)
  {
    BuilderStillEnds(calls, failure, delay, rest.trace);
    hide NoBuilderRetried, Ladder;
    var trace := calls + [Effect.Failed(failure), Backoff(delay)] + rest.trace;
    var m := |rest.trace|;
    if m > 0 {
      assert trace[|trace| - 1] == rest.trace[m - 1];
    }
    if m > 1 {
      assert trace[|trace| - 2] == rest.trace[m - 2];
    }
  }

  /** Attempts are counted by their account fetches. */
  lemma {:induction false} AttemptsAreCounted(o: Options, env: nat -> Attempt, i: nat, stored: seq<PendingTransaction>)
    ensures Counted(Submit(o, env, i, stored), o, env, i)
    decreases o.maxRetries - i
  {
    hide TryOnce, Conclude, RunOps, Duplicate, Counted, BackoffDelayMs;
    if i < o.maxRetries {
      var a := env(i);
      var seen := RunOps(stored, a.before);
      var reached, stage := RunOps(seen, a.meanwhile), TryOnce(a, o.patterns);
      var rest := Submit(o, env, i + 1, reached);
      AttemptsAreCounted(o, env, i + 1, reached);
      FoundCounted(o, env, i, seen);
      StageShape(a, o.patterns);
      StageEnds(a, o.patterns);
      match stage
      case Broadcast(calls, hash) => BroadcastCounted(o, env, i, calls, hash, reached);
      case Broken(calls, failure, mayRetry) =>
        if mayRetry && i + 1 < o.maxRetries {
          RetriedCounted(o, env, i, calls, failure, BackoffDelayMs(i, o.backoff), rest);
        } else {
          StoppedCounted(o, env, i, calls, failure, After(o, a, i, stage, reached, rest).outcome, reached);
        }
    } else {
      NothingCounted(o, env, i, stored);
    }
  }

  lemma NothingCounted(o: Options, env: nat -> Attempt, i: nat, stored: seq<PendingTransaction>)
    requires i >= o.maxRetries
    ensures Counted(CallResult(ThrewExhausted(i), [], stored), o, env, i)
  {
  }

  lemma FoundCounted(o: Options, env: nat -> Attempt, i: nat, seen: seq<PendingTransaction>)
    requires i < o.maxRetries
    ensures var found := Duplicate(o, seen, env(i).guardNow);
            found.Some? ==>
            Counted(CallResult(Returned(Pending, found.value.hash, found.value.attempts + i), [], seen), o, env, i)
  {
    GuardIsExact(o, seen, env(i).guardNow, i);
    hide Duplicate;
  }

  lemma StepEnds(o: Options, env: nat -> Attempt, i: nat, reached: seq<PendingTransaction>, rest: CallResult)
    requires i < o.maxRetries && EndsRightly(rest.outcome, rest.trace)
    requires i + 1 < o.maxRetries ==> (rest.trace == [] ==> rest.outcome.Returned?)
    requires i + 1 < o.maxRetries ==> (rest.trace != [] ==> rest.trace[0].GetAccount?)
    ensures var r := After(o, env(i), i, TryOnce(env(i), o.patterns), reached, rest); EndsRightly(r.outcome, r.trace)
  {
    hide TryOnce, Conclude, EndsRightly, BackoffDelayMs, Ladder, Filter;
    StageShape(env(i), o.patterns);
    StageEnds(env(i), o.patterns);
    var stage := TryOnce(env(i), o.patterns);
    match stage
    case Broadcast(calls, hash) => BroadcastCounted(o, env, i, calls, hash, reached);
    case Broken(calls, failure, mayRetry) =>
      if mayRetry && i + 1 < o.maxRetries {
        RetriedEnds(calls, failure, BackoffDelayMs(i, o.backoff), rest);
      } else {
        StoppedEnds(calls, failure, After(o, env(i), i, stage, reached, rest).outcome);
      }
  }

  /** A call that throws does so for the right reason, and no error of the builder is retried. */
  lemma {:induction false} ThrowsForReason(o: Options, env: nat -> Attempt, i: nat, stored: seq<PendingTransaction>)
    ensures var r := Submit(o, env, i, stored); EndsRightly(r.outcome, r.trace)
    decreases o.maxRetries - i
  {
    NothingEnds();
    hide TryOnce, RunOps, Duplicate, EndsRightly, After, Blocked, AnsweredByFirst;
    if i < o.maxRetries {
      var reached := RunOps(RunOps(stored, env(i).before), env(i).meanwhile);
      ThrowsForReason(o, env, i + 1, reached);
      StartsOrReturns(o, env, i + 1, reached);
      StepEnds(o, env, i, reached, Submit(o, env, i + 1, reached));
    }
  }

  lemma StartsOrReturns(o: Options, env: nat -> Attempt, i: nat, stored: seq<PendingTransaction>)
    ensures var r := Submit(o, env, i, stored);
            i < o.maxRetries ==> if r.trace == [] then r.outcome.Returned? else r.trace[0].GetAccount?
  {
    hide RunOps, Blocked, Submit;
    if i < o.maxRetries {
      GuardStopsCall(o, env, i, stored);
    }
  }

  lemma NothingEnds()
    ensures forall outcome: Outcome | !outcome.ThrewError? :: EndsRightly(outcome, [])
  {
  }

  // ---- What the answer says ----

  /** `verdict` is the first decisive answer of the first `n` polls. */
  ghost predicate FirstSaid(polls: nat -> PollReply, n: nat, verdict: PollReply) {
    exists k: nat | k < n :: polls(k) == verdict && forall j: nat | j < k :: polls(j) == Elsewise
  }

  /** Confirmed and failed are what the polls said first; pending is when they said neither. */
  ghost predicate PollsTold(status: TxStatus, polls: nat -> PollReply, n: nat) {
    && (status == Confirmed <==> FirstSaid(polls, n, Success))
    && (status == TxStatus.Failed <==> FirstSaid(polls, n, FailedOnChain))
    && (status == Pending <==> forall k: nat | k < n :: polls(k) == Elsewise)
  }

  lemma PollForTold(polls: nat -> PollReply, n: nat)
    ensures var v := PollFor(polls, n, 0).verdict;
            PollsTold(match v case Success => Confirmed case FailedOnChain => TxStatus.Failed case Elsewise => Pending,
                      polls, n)
  {
    PollingStopsAtFirstAnswer(polls, n, 0);
    var r := PollFor(polls, n, 0);
    hide PollFor;
    if r.verdict != Elsewise {
      var last: nat := r.polls - 1;
      assert polls(last) == r.verdict;
    }
  }

  function Readable(): PendingTransaction -> bool { (e: PendingTransaction) => e.txType != SetSupportedTokens }

  function ReadableBeside(hash: string): PendingTransaction -> bool {
    (e: PendingTransaction) => e.txType != SetSupportedTokens && e.hash != hash
  }

  /** A settled record is `e` but for the fields that tell it. */
  ghost predicate RecordTold(e: PendingTransaction, now: PendingTransaction, status: TxStatus, attempts: nat, at: int) {
    && now.hash == e.hash && now.txType == e.txType && now.poolId == e.poolId && now.poolName == e.poolName
    && now.submittedAt == e.submittedAt && now.attempts == e.attempts && now.lastChecked == at
    && (if status == TxStatus.Failed then now.status == status && now.error == Some(FailedOnChainAfter(attempts))
        else now.status == e.status && now.error == e.error)
  }

  /**
   * What the tracker `watched` becomes: a confirmed hash is gone; a failed one's record says so, with the
   * attempts; a pending one's says when it was looked at. Everything else readable stays as it was, in order.
   */
  ghost predicate TrackerTold(status: TxStatus, watched: seq<PendingTransaction>, now: seq<PendingTransaction>,
                              hash: string, attempts: nat, at: int)
  {
    if status == Confirmed then now == Filter(watched, ReadableBeside(hash))
    else
      var read := Filter(watched, Readable());
      && |now| == |read|
      && forall k | 0 <= k < |read| ::
           if read[k].hash == hash then RecordTold(read[k], now[k], status, attempts, at) else now[k] == read[k]
  }

  /** The tracker at the last poll: the record of the broadcast, if one is asked for, and the traffic since. */
  ghost function WatchedSince(o: Options, a: Attempt, attempts: nat, hash: string, stored: seq<PendingTransaction>)
    : seq<PendingTransaction>
  {
    RunOps(match o.track
           case None => stored
           case Some(key) =>
             AddPendingTx(stored, PendingTransaction(
                            hash := hash, txType := key.txType, poolId := key.poolId,
                            poolName := if o.poolName != "" then o.poolName else key.poolId,
                            submittedAt := a.recordNow, status := Pending, attempts := attempts,
                            lastChecked := a.recordNow, error := None)),
           a.during)
  }

  lemma RemoveTold(watched: seq<PendingTransaction>, hash: string)
    ensures RemovePendingTx(watched, hash) == Filter(watched, ReadableBeside(hash))
  {
    FilterTwice(watched, TxTracker.Accepted(), HashIsNot(hash), ReadableBeside(hash));
  }

  lemma ReadIsReadable(watched: seq<PendingTransaction>)
    ensures ReadPendingTxs(watched) == Filter(watched, Readable())
  {
    FilterAll(ReadPendingTxs(watched), Readable());
    FilterTwice(watched, TxTracker.Accepted(), Readable(), Readable());
  }

  lemma UpdateTold(watched: seq<PendingTransaction>, hash: string, attempts: nat, at: int)
    ensures TrackerTold(TxStatus.Failed, watched, UpdatePendingTx(watched, hash, FailedPatch(at, attempts)), hash,
            attempts, at)
    ensures TrackerTold(Pending, watched, UpdatePendingTx(watched, hash, CheckedPatch(at)), hash, attempts, at)
  {
    ReadIsReadable(watched);
    hide Filter, ReadPendingTxs;
  }

  lemma ConcludeTold(o: Options, a: Attempt, attempts: nat, calls: seq<Effect>, hash: string,
                     stored: seq<PendingTransaction>)
    ensures var r := Conclude(o, a, attempts, calls, hash, stored);
            && r.outcome.Returned? && r.outcome.hash == hash && r.outcome.attempts == attempts
            && PollsTold(r.outcome.status, a.polls, o.pollAttempts)
            && TrackerTold(r.outcome.status, WatchedSince(o, a, attempts, hash, stored), r.stored, hash, attempts,
                           a.lastNow)
  {
    PollForTold(a.polls, o.pollAttempts);
    var watched := Watched(o, a, attempts, hash, stored);
    assert watched == WatchedSince(o, a, attempts, hash, stored);
    RemoveTold(watched, hash);
    UpdateTold(watched, hash, attempts, a.lastNow);
    hide PollFor, PollsTold, Watched, WatchedSince, RemovePendingTx, UpdatePendingTx, Filter, FailedPatch, CheckedPatch;
  }

  // ---- The duplicate guard ----

  /** A transaction of the pool and type is in flight. */
  ghost predicate Blocked(o: Options, seen: seq<PendingTransaction>, now: int) {
    o.dedup.Some? && exists e <- seen :: InFlight(e, o.dedup.value.poolId, o.dedup.value.txType, now)
  }

  /** Pending, with the hash of the first such record and its attempts beside those made. */
  ghost predicate AnsweredByFirst(o: Options, seen: seq<PendingTransaction>, now: int, outcome: Outcome, made: nat) {
    o.dedup.Some? && exists k :: FirstInFlight(seen, k, o.dedup.value.poolId, o.dedup.value.txType, now)
                       && outcome == Returned(Pending, seen[k].hash, seen[k].attempts + made)
  }

  /**
   * An attempt ends the call, touching nothing outside, exactly when a transaction of the pool and type is in
   * flight; the answer is then that of the first such record. Otherwise the attempt fetches the account.
   */
  lemma GuardStopsCall(o: Options, env: nat -> Attempt, i: nat, stored: seq<PendingTransaction>)
    requires i < o.maxRetries
    ensures var now, seen, r := env(i).guardNow, RunOps(stored, env(i).before), Submit(o, env, i, stored);
            if Blocked(o, seen, now)
            then r.trace == [] && r.stored == seen && AnsweredByFirst(o, seen, now, r.outcome, i)
            else r.trace != [] && r.trace[0] == GetAccount(env(i).account)
  {
    hide RunOps, Duplicate, TryOnce, After, Blocked, AnsweredByFirst, Submit;
    var a := env(i);
    var seen := RunOps(stored, a.before);
    var reached := RunOps(seen, a.meanwhile);
    SubmitUnfolds(o, env, i, stored);
    GuardIsExact(o, seen, a.guardNow, i);
    AttemptFetches(o, a, i, reached, Submit(o, env, i + 1, reached));
  }

  lemma SubmitUnfolds(o: Options, env: nat -> Attempt, i: nat, stored: seq<PendingTransaction>)
    requires i < o.maxRetries
    ensures var a, seen := env(i), RunOps(stored, env(i).before);
            var found, reached := Duplicate(o, seen, a.guardNow), RunOps(seen, a.meanwhile);
            Submit(o, env, i, stored) ==
            if found.Some? then CallResult(Returned(Pending, found.value.hash, found.value.attempts + i), [], seen)
            else After(o, a, i, TryOnce(a, o.patterns), reached, Submit(o, env, i + 1, reached))
  {
    hide RunOps, Duplicate, TryOnce, After;
  }

  lemma GuardIsExact(o: Options, seen: seq<PendingTransaction>, now: int, made: nat)
    ensures var found := Duplicate(o, seen, now);
            if Blocked(o, seen, now) then
              && found.Some?
              && AnsweredByFirst(o, seen, now, Returned(Pending, found.value.hash, found.value.attempts + made), made)
            else found.None?
  {
    hide FindRecentPendingTx, InFlight, FirstInFlight;
    if o.dedup.Some? {
      FindRecentIsExact(seen, o.dedup.value.poolId, o.dedup.value.txType, now);
    }
  }

  /** Whatever becomes of an attempt, its first call is the account fetch. */
  lemma AttemptFetches(o: Options, a: Attempt, i: nat, reached: seq<PendingTransaction>, rest: CallResult)
    ensures var r := After(o, a, i, TryOnce(a, o.patterns), reached, rest);
            r.trace != [] && r.trace[0] == GetAccount(a.account)
  {
    TryFetches(a, o.patterns);
    hide TryOnce, PollFor, Watched, RemovePendingTx, UpdatePendingTx, BackoffDelayMs;
  }

  lemma TryFetches(a: Attempt, p: Patterns)
    ensures var calls := TryOnce(a, p).calls; calls != [] && calls[0] == GetAccount(a.account)
  {
    hide ClassifySubmissionError;
  }

  /** Which attempt's broadcast is acknowledged, and the tracker it is recorded in. */
  datatype Moment = Moment(attempt: nat, stored: seq<PendingTransaction>)

  function BroadcastMoment(o: Options, env: nat -> Attempt, i: nat, stored: seq<PendingTransaction>): Option<Moment>
    decreases o.maxRetries - i
  {
    if i >= o.maxRetries then None
    else
      var a := env(i);
      var seen := RunOps(stored, a.before);
      var reached := RunOps(seen, a.meanwhile);
      var stage := TryOnce(a, o.patterns);
      if Duplicate(o, seen, a.guardNow).Some? then None
      else if stage.Broadcast? then Some(Moment(i, reached))
      else if stage.mayRetry then BroadcastMoment(o, env, i + 1, reached)
      else None
  }

  lemma {:induction false} MomentIsWellKept(o: Options, env: nat -> Attempt, i: nat, stored: seq<PendingTransaction>)
    requires WellKept(stored)
    ensures BroadcastMoment(o, env, i, stored).Some? ==> WellKept(BroadcastMoment(o, env, i, stored).value.stored)
    decreases o.maxRetries - i
  {
    if i < o.maxRetries {
      TrackerStaysWellKept(stored, env(i).before);
      TrackerStaysWellKept(RunOps(stored, env(i).before), env(i).meanwhile);
      MomentIsWellKept(o, env, i + 1, RunOps(RunOps(stored, env(i).before), env(i).meanwhile));
    }
  }

  /** The tracker a call leaves pending: that of its broadcast, with the record, traffic and final check added. */
  function PendingStored(o: Options, a: Attempt, m: Moment, hash: string): seq<PendingTransaction> {
    UpdatePendingTx(Watched(o, a, m.attempt + 1, hash, m.stored), hash, CheckedPatch(a.lastNow))
  }

  ghost predicate RecordedBy(o: Options, env: nat -> Attempt, m: Moment, r: CallResult) {
    r.outcome.Returned? && r.outcome.status == Pending ==>
      r.stored == PendingStored(o, env(m.attempt), m, r.outcome.hash)
  }

  lemma ConcludeRecords(o: Options, a: Attempt, m: Moment, calls: seq<Effect>, hash: string)
    ensures var r := Conclude(o, a, m.attempt + 1, calls, hash, m.stored);
            && r.outcome.Returned? && r.outcome.hash == hash
            && (r.outcome.status == Pending ==> r.stored == PendingStored(o, a, m, hash))
  {
    hide PollFor, Watched, UpdatePendingTx, RemovePendingTx;
  }

  lemma RetriedRecords(o: Options, env: nat -> Attempt, i: nat, stage: Stage, reached: seq<PendingTransaction>,
                       rest: CallResult, m: Moment)
    requires i < o.maxRetries && stage.Broken? && stage.mayRetry && RecordedBy(o, env, m, rest)
    ensures RecordedBy(o, env, m, After(o, env(i), i, stage, reached, rest))
  {
    var r := After(o, env(i), i, stage, reached, rest);
    assert r.outcome.ThrewExhausted? || (r.outcome == rest.outcome && r.stored == rest.stored);
  }

  lemma {:induction false} PendingCallRecords(o: Options, env: nat -> Attempt, i: nat, stored: seq<PendingTransaction>)
    requires BroadcastMoment(o, env, i, stored).Some?
    ensures RecordedBy(o, env, BroadcastMoment(o, env, i, stored).value, Submit(o, env, i, stored))
    decreases o.maxRetries - i
  {
    hide TryOnce, Conclude, PollFor, Watched, UpdatePendingTx, RunOps, Duplicate, PendingStored;
    var reached := RunOps(RunOps(stored, env(i).before), env(i).meanwhile);
    var stage := TryOnce(env(i), o.patterns);
    if stage.Broken? {
      PendingCallRecords(o, env, i + 1, reached);
      RetriedRecords(o, env, i, stage, reached, Submit(o, env, i + 1, reached),
                     BroadcastMoment(o, env, i, stored).value);
    } else {
      ConcludeRecords(o, env(i), Moment(i, reached), stage.calls, stage.hash);
    }
  }

  lemma {:induction false} RunOpsAppend(stored: seq<PendingTransaction>, ops: seq<TrackerOp>, more: seq<TrackerOp>)
    ensures RunOps(RunOps(stored, ops), more) == RunOps(stored, ops + more)
  {
    hide ApplyOp;
    if more == [] {
      assert ops + more == ops;
    } else {
      RunOpsAppend(stored, ops, more[..|more| - 1]);
      assert (ops + more)[..|ops + more| - 1] == ops + more[..|more| - 1];
    }
  }

  lemma RunOpsPush(stored: seq<PendingTransaction>, ops: seq<TrackerOp>, op: TrackerOp)
    ensures RunOps(stored, ops + [op]) == ApplyOp(RunOps(stored, ops), op)
  {
    assert (ops + [op])[..|ops|] == ops;
  }

  /** Everything that happened to the tracker between the first call's record and the second call's lookup. */
  function Traffic(env: nat -> Attempt, m: Moment, hash: string, between: seq<TrackerOp>, before: seq<TrackerOp>)
    : seq<TrackerOp>
  {
    env(m.attempt).during + [Update(hash, CheckedPatch(env(m.attempt).lastNow))] + between + before
  }

  lemma TrafficRuns(o: Options, env: nat -> Attempt, m: Moment, r: CallResult, between: seq<TrackerOp>,
                    before: seq<TrackerOp>)
    requires o.track.Some? && RecordedBy(o, env, m, r) && r.outcome.Returned? && r.outcome.status == Pending
    ensures RunOps(RunOps(r.stored, between), before) ==
            RunOps(AddPendingTx(m.stored, RecordOf(o, r.outcome.hash, env(m.attempt).recordNow, m.attempt + 1)),
                   Traffic(env, m, r.outcome.hash, between, before))
  {
    hide AddPendingTx, UpdatePendingTx;
    var during := env(m.attempt).during;
    var check := Update(r.outcome.hash, CheckedPatch(env(m.attempt).lastNow));
    var recorded := AddPendingTx(m.stored, RecordOf(o, r.outcome.hash, env(m.attempt).recordNow, m.attempt + 1));
    RunOpsPush(recorded, during, check);
    assert r.stored == UpdatePendingTx(RunOps(recorded, during), r.outcome.hash, CheckedPatch(env(m.attempt).lastNow));
    hide RunOps, AddPendingTx, UpdatePendingTx, RecordedBy;
    RunOpsAppend(recorded, during + [check], between);
    RunOpsAppend(recorded, during + [check] + between, before);
  }

  /**
   * Two calls in sequence. The first broadcast and was left pending; the second, for the same pool
   * and type, comes within two minutes of the record, which nothing has settled or removed and which
   * never had ten live newer records. It broadcasts nothing and answers with a pending hash.
   */
  lemma SecondCallStops(o1: Options, env1: nat -> Attempt, stored: seq<PendingTransaction>, m: Moment, r: CallResult,
                        between: seq<TrackerOp>, o2: Options, env2: nat -> Attempt, record: PendingTransaction)
    requires WellKept(stored) && o1.track.Some? && IsPendingTransactionType(o1.track.value.txType)
    requires r == Submit(o1, env1, 0, stored) && r.outcome.Returned? && r.outcome.status == Pending
    requires BroadcastMoment(o1, env1, 0, stored) == Some(m)
    requires record == RecordOf(o1, r.outcome.hash, env1(m.attempt).recordNow, m.attempt + 1)
    requires o2.maxRetries > 0 && o2.dedup.Some? && o2.dedup.value.txType == record.txType
    requires SamePool(record.poolId, o2.dedup.value.poolId)
    requires forall op <- Traffic(env1, m, r.outcome.hash, between, env2(0).before) :: Harmless(op, record)
    requires NeverCrowded(m.stored, record, Traffic(env1, m, r.outcome.hash, between, env2(0).before))
    requires env2(0).guardNow - record.submittedAt <= 120_000
    ensures var again := Submit(o2, env2, 0, RunOps(r.stored, between));
            && again.trace == [] && again.outcome.Returned? && again.outcome.status == Pending
            && exists e <- again.stored :: e.hash == again.outcome.hash
                 && InFlight(e, o2.dedup.value.poolId, record.txType, env2(0).guardNow)
  {
    MomentIsWellKept(o1, env1, 0, stored);
    PendingCallRecords(o1, env1, 0, stored);
    TrafficRuns(o1, env1, m, r, between, env2(0).before);
    RecordedStaysFindable(m.stored, record, Traffic(env1, m, r.outcome.hash, between, env2(0).before),
                          o2.dedup.value.poolId, env2(0).guardNow);
    FindRecentIsExact(RunOps(RunOps(r.stored, between), env2(0).before), o2.dedup.value.poolId, record.txType,
                      env2(0).guardNow);
    GuardStopsCall(o2, env2, 0, RunOps(r.stored, between));
  }

  /**
   * A call that broadcasts answers with the hash the send acknowledged, the number of attempts made, and what
   * the polls said: confirmed or failed as they said first, pending when they said neither. The tracker is
   * what the record and the traffic made of it, with the hash gone, failed or looked at accordingly.
   */
  lemma {:induction false} AnswerSaysWhatPollsSaid(o: Options, env: nat -> Attempt, i: nat,
                                                   stored: seq<PendingTransaction>)
    requires BroadcastMoment(o, env, i, stored).Some?
    ensures var m, r := BroadcastMoment(o, env, i, stored).value, Submit(o, env, i, stored);
            var a := env(m.attempt);
            && r.outcome.Returned? && AcknowledgedBy(a.send) == Some(r.outcome.hash)
            && r.outcome.attempts == m.attempt + 1
            && PollsTold(r.outcome.status, a.polls, o.pollAttempts)
            && TrackerTold(r.outcome.status, WatchedSince(o, a, m.attempt + 1, r.outcome.hash, m.stored), r.stored,
                           r.outcome.hash, m.attempt + 1, a.lastNow)
    decreases o.maxRetries - i
  {
    hide TryOnce, Conclude, RunOps, Duplicate, PollsTold, TrackerTold, WatchedSince, AcknowledgedBy, BackoffDelayMs;
    var a := env(i);
    var reached := RunOps(RunOps(stored, a.before), a.meanwhile);
    var stage := TryOnce(a, o.patterns);
    if stage.Broken? {
      AnswerSaysWhatPollsSaid(o, env, i + 1, reached);
    } else {
      BroadcastIsAcknowledged(a, o.patterns);
      ConcludeTold(o, a, i + 1, stage.calls, stage.hash, reached);
    }
  }

  lemma StepAcknowledges(o: Options, a: Attempt, i: nat, reached: seq<PendingTransaction>, rest: CallResult)
    ensures var stage := TryOnce(a, o.patterns);
            Filter(After(o, a, i, stage, reached, rest).trace, IsAck()) != [] <==>
            if stage.Broadcast? then true
            else stage.mayRetry && i + 1 < o.maxRetries && Filter(rest.trace, IsAck()) != []
  {
    var stage := TryOnce(a, o.patterns);
    StageShape(a, o.patterns);
    StageEnds(a, o.patterns);
    hide TryOnce, PollFor, Watched, UpdatePendingTx, RemovePendingTx, BackoffDelayMs, Filter, Ladder;
    match stage
    case Broadcast(calls, hash) =>
      LastFetches(calls, Polls(hash, PollFor(a.polls, o.pollAttempts, 0).polls), a.account);
    case Broken(calls, failure, mayRetry) =>
      var wait := [Effect.Failed(failure), Backoff(BackoffDelayMs(i, o.backoff))];
      LastFetches(calls, [Effect.Failed(failure)], a.account);
      LastFetches(calls, wait, a.account);
      FetchesAppend(calls + wait, rest.trace);
  }

  /** A call has such a moment exactly when a broadcast of its is acknowledged. */
  lemma {:induction false} MomentIsAcknowledgement(o: Options, env: nat -> Attempt, i: nat,
                                                   stored: seq<PendingTransaction>)
    ensures BroadcastMoment(o, env, i, stored).Some? <==> Filter(Submit(o, env, i, stored).trace, IsAck()) != []
    decreases o.maxRetries - i
  {
    hide TryOnce, After, RunOps, Duplicate;
    if i < o.maxRetries {
      var reached := RunOps(RunOps(stored, env(i).before), env(i).meanwhile);
      MomentIsAcknowledgement(o, env, i + 1, reached);
      StepAcknowledges(o, env(i), i, reached, Submit(o, env, i + 1, reached));
      StageEnds(env(i), o.patterns);
      if i + 1 >= o.maxRetries {
        assert BroadcastMoment(o, env, i + 1, reached).None?;
      }
    }
  }

  lemma BroadcastIsAcknowledged(a: Attempt, p: Patterns)
    ensures TryOnce(a, p).Broadcast? ==> AcknowledgedBy(a.send) == Some(TryOnce(a, p).hash)
  {
    hide ClassifySubmissionError;
  }

  // ---- The call as it runs ----

  class Submitter {
    var stored: seq<PendingTransaction>
    ghost var trace: seq<Effect>

    constructor ()
      ensures stored == [] && trace == []
    {
      stored, trace := [], [];
    }

    /** Other code using the same storage. */
    method Interfere(ops: seq<TrackerOp>)
      modifies this`stored
      ensures stored == RunOps(old(stored), ops)
    {
      for k := 0 to |ops|
        invariant stored == RunOps(old(stored), ops[..k])
      {
        assert ops[..k + 1][..k] == ops[..k];
        stored := ApplyOp(stored, ops[k]);
      }
      assert ops[..|ops|] == ops;
    }

    /**
     * Records a broadcast. On a well-kept list: the record and every readable one of another hash are kept,
     * but for one that is evicted because the list is full and nothing kept is older.
     */
    method Add(record: PendingTransaction)
      modifies this`stored
      ensures stored == AddPendingTx(old(stored), record)
      ensures WellKept(old(stored)) ==>
                && WellKept(stored)
                && (forall e <- stored :: ToKeep(e, old(stored), record))
                && (forall e | ToKeep(e, old(stored), record) && e !in stored ::
                      |stored| == 10 && forall k <- stored :: e.submittedAt <= k.submittedAt)
    {
      if WellKept(stored) {
        AddMeans(stored, record);
      }
      var records := Filter(ReadPendingTxs(stored), HashIsNot(record.hash));
      records := records + [record];
      stored := SortAndCap(records);
    }

    method PollForConfirmation(hash: string, polls: nat -> PollReply, pollAttempts: nat) returns (verdict: PollReply)
      modifies this`trace
      ensures verdict == PollFor(polls, pollAttempts, 0).verdict
      ensures trace == old(trace) + Polls(hash, PollFor(polls, pollAttempts, 0).polls)
    {
      for pollCount := 0 to pollAttempts
        invariant PollFor(polls, pollAttempts, 0) == PollFor(polls, pollAttempts, pollCount)
        invariant trace == old(trace) + Polls(hash, pollCount)
      {
        trace := trace + [Poll(hash)];
        assert Polls(hash, pollCount + 1) == Polls(hash, pollCount) + [Poll(hash)];
        if polls(pollCount) != Elsewise {
          return polls(pollCount);
        }
      }
      return Elsewise;
    }

    /** Registers an acknowledged broadcast, polls for it and updates the tracker. */
    method FollowUp(o: Options, a: Attempt, attempts: nat, calls: seq<Effect>, hash: string) returns (outcome: Outcome)
      modifies this
      ensures var r := Conclude(o, a, attempts, calls, hash, old(stored));
              outcome == r.outcome && stored == r.stored && trace == old(trace) + r.trace
      ensures outcome.Returned? && outcome.hash == hash && outcome.attempts == attempts
      ensures PollsTold(outcome.status, a.polls, o.pollAttempts)
      ensures TrackerTold(outcome.status, WatchedSince(o, a, attempts, hash, old(stored)), stored, hash, attempts,
                          a.lastNow)
    {
      hide PollsTold, TrackerTold, WatchedSince;
      ConcludeTold(o, a, attempts, calls, hash, stored);
      hide PollFor, RunOps, RemovePendingTx, UpdatePendingTx, AddPendingTx, WellKept, ToKeep, Polls;
      trace := trace + calls;
      if o.track.Some? {
        Add(RecordOf(o, hash, a.recordNow, attempts));
      }
      var verdict := PollForConfirmation(hash, a.polls, o.pollAttempts);
      Interfere(a.during);
      assert stored == Watched(o, a, attempts, hash, old(stored));
      if verdict == Success {
        stored := RemovePendingTx(stored, hash);
        outcome := Returned(Confirmed, hash, attempts);
      } else if verdict == FailedOnChain {
        stored := UpdatePendingTx(stored, hash, FailedPatch(a.lastNow, attempts));
        outcome := Returned(TxStatus.Failed, hash, attempts);
      } else {
        stored := UpdatePendingTx(stored, hash, CheckedPatch(a.lastNow));
        outcome := Returned(Pending, hash, attempts);
      }
    }

    method SubmitWithRetry(o: Options, env: nat -> Attempt) returns (outcome: Outcome)
      modifies this
      ensures CallResult(outcome, trace, stored) == Prepended(old(trace), Submit(o, env, 0, old(stored)))
    {
      hide TryOnce, Conclude, RunOps, Duplicate, BackoffDelayMs, PollsTold, TrackerTold, WatchedSince;
      var attempts: nat := 0;
      while attempts < o.maxRetries
        invariant attempts == 0 || attempts < o.maxRetries
        invariant Prepended(trace, Submit(o, env, attempts, stored)) ==
                  Prepended(old(trace), Submit(o, env, 0, old(stored)))
        decreases o.maxRetries - attempts
      {
        var a := env(attempts);
        ghost var before := stored;
        ghost var done := trace;
        Interfere(a.before);
        var recent := Duplicate(o, stored, a.guardNow);
        if recent.Some? {
          return Returned(Pending, recent.value.hash, recent.value.attempts + attempts);
        }
        Interfere(a.meanwhile);
        var stage := TryOnce(a, o.patterns);
        assert Submit(o, env, attempts, before) ==
               After(o, a, attempts, stage, stored, Submit(o, env, attempts + 1, stored));
        if stage.Broadcast? {
          outcome := FollowUp(o, a, attempts + 1, stage.calls, stage.hash);
          return;
        }
        trace := trace + (stage.calls + [Effect.Failed(stage.failure)]);
        if !stage.mayRetry {
          return ThrewError(stage.failure);
        }
        if attempts + 1 >= o.maxRetries {
          return ThrewExhausted(attempts + 1);
        }
        var delay := BackoffDelayMs(attempts, o.backoff);
        trace := trace + [Backoff(delay)];
        attempts := attempts + 1;
        PrependedRetry(done, stage.calls, stage.failure, delay, Submit(o, env, attempts, stored));
      }
      return ThrewExhausted(attempts);
    }
  }

  /** A call's result when `done` was already in the trace. */
  function Prepended(done: seq<Effect>, r: CallResult): CallResult {
    r.(trace := done + r.trace)
  }

  lemma PrependedRetry(done: seq<Effect>, calls: seq<Effect>, failure: Classified, delay: Option<nat>, rest: CallResult)
    ensures Prepended(done, Retried(calls, failure, delay, rest)) ==
            Prepended(done + (calls + [Effect.Failed(failure)]) + [Backoff(delay)], rest)
  {
    assert calls + [Effect.Failed(failure), Backoff(delay)] == calls + [Effect.Failed(failure)] + [Backoff(delay)];
  }
}
