/**
 * The two sliding-window limiters: the keyed one in front of the API routes, which filters its list
 * of timestamps, and the error reporter's, which shifts stale ones off the front. Both are proved to
 * follow one log that is never pruned, and the guarantees are proved of that log.
 */
module RateLimit {
  import opened Prelude

  // ---- The log: what a limiter of `max` per `windowMs` admits ----

  function After(cutoff: int): int -> bool { (t: int) => t > cutoff }

  function Within(from: int, to: int): int -> bool { (t: int) => from < t <= to }

  ghost predicate Ascending(times: seq<int>) {
    forall i, j | 0 <= i <= j < |times| :: times[i] <= times[j]
  }

  /** The admissions of the window that ends with a request at `now`. */
  function Recent(log: seq<int>, windowMs: int, now: int): seq<int> {
    Filter(log, After(now - windowMs))
  }

  /** Every admission ever made, for requests at `times`: one is admitted while its window has room. */
  function Log(times: seq<int>, max: nat, windowMs: int): seq<int> {
    if times == [] then []
    else
      var before, now := Log(times[..|times| - 1], max, windowMs), times[|times| - 1];
      if |Recent(before, windowMs, now)| < max then before + [now] else before
  }

  lemma LogPush(times: seq<int>, now: int, max: nat, windowMs: int)
    ensures Log(times + [now], max, windowMs) ==
            Log(times, max, windowMs) + if |Recent(Log(times, max, windowMs), windowMs, now)| < max then [now] else []
  {
    assert (times + [now])[..|times|] == times;
  }

  lemma AscendingPush(times: seq<int>, now: int)
    requires Ascending(times + [now])
    ensures Ascending(times) && forall t <- times :: t <= now
  {
    var all := times + [now];
    forall i, j | 0 <= i <= j < |times| ensures times[i] <= times[j] {
      assert all[i] <= all[j];
    }
    forall i | 0 <= i < |times| ensures times[i] <= now {
      assert all[i] <= all[|times|];
    }
  }

  lemma AscendingExtend(times: seq<int>, now: int)
    requires Ascending(times) && forall t <- times :: t <= now
    ensures Ascending(times + [now])
  {
    var all := times + [now];
    forall i, j | 0 <= i <= j < |all| ensures all[i] <= all[j] {
      assert i < |times| ==> times[i] in times;
    }
  }

  lemma {:induction false} LogIsAscending(times: seq<int>, max: nat, windowMs: int)
    requires Ascending(times)
    ensures Ascending(Log(times, max, windowMs))
    ensures forall t <- Log(times, max, windowMs) :: t in times
  {
    if times != [] {
      var init, now := times[..|times| - 1], times[|times| - 1];
      assert times == init + [now];
      AscendingPush(init, now);
      LogIsAscending(init, max, windowMs);
      forall t | t in Log(init, max, windowMs) ensures t <= now && t in times {
        assert t in init;
      }
      AscendingExtend(Log(init, max, windowMs), now);
      hide Ascending, Recent;
    }
  }

  lemma {:induction false} WindowInsideRecent(log: seq<int>, windowMs: int, now: int, t: int)
    requires now <= t
    ensures |Filter(log, Within(t - windowMs, t))| <= |Recent(log, windowMs, now)|
  {
    if log != [] {
      WindowInsideRecent(log[..|log| - 1], windowMs, now, t);
    }
  }

  /** Whatever the requests, no window `(t - windowMs, t]` of the whole run holds more than `max` admissions. */
  lemma {:induction false} EveryWindowIsCapped(times: seq<int>, max: nat, windowMs: int, t: int)
    requires Ascending(times)
    ensures |Filter(Log(times, max, windowMs), Within(t - windowMs, t))| <= max
  {
    hide Filter, Ascending, Log;
    if times == [] {
      LogOfNothing(max, windowMs);
      FilterNone([], Within(t - windowMs, t));
    } else {
      var init, now := times[..|times| - 1], times[|times| - 1];
      assert times == init + [now];
      AscendingPush(init, now);
      LogPush(init, now, max, windowMs);
      EveryWindowIsCapped(init, max, windowMs, t);
      var before := Log(init, max, windowMs);
      FilterPush(before, now, Within(t - windowMs, t));
      assert before + [] == before;
      if now <= t {
        WindowInsideRecent(before, windowMs, now, t);
      }
    }
  }

  lemma {:induction false} RecentIsWindow(log: seq<int>, windowMs: int, now: int)
    requires forall t <- log :: t <= now
    ensures Recent(log, windowMs, now) == Filter(log, Within(now - windowMs, now))
  {
    if log != [] {
      var init, last := log[..|log| - 1], log[|log| - 1];
      assert log == init + [last];
      forall t | t in init ensures t <= now {
        assert t in log;
      }
      RecentIsWindow(init, windowMs, now);
    }
  }

  /** A request that is turned away finds exactly `max` admissions in its own window. */
  lemma RefusedMeansExactlyFull(times: seq<int>, now: int, max: nat, windowMs: int)
    requires Ascending(times + [now])
    ensures |Recent(Log(times, max, windowMs), windowMs, now)| <= max
  {
    AscendingPush(times, now);
    LogIsAscending(times, max, windowMs);
    RecentIsWindow(Log(times, max, windowMs), windowMs, now);
    EveryWindowIsCapped(times, max, windowMs, now);
  }

  lemma {:induction false} RecentIsAscending(log: seq<int>, windowMs: int, now: int)
    requires Ascending(log)
    ensures Ascending(Recent(log, windowMs, now))
  {
    if log != [] {
      var init, last := log[..|log| - 1], log[|log| - 1];
      assert log == init + [last];
      AscendingPush(init, last);
      RecentIsAscending(init, windowMs, now);
      forall t | t in Recent(init, windowMs, now) ensures t <= last {
        assert t in init;
      }
      AscendingExtend(Recent(init, windowMs, now), last);
      hide Ascending;
    }
  }

  lemma FilterDropsHead(xs: seq<int>, keep: int -> bool)
    requires xs != [] && !keep(xs[0])
    ensures |Filter(xs, keep)| < |xs|
  {
    hide Filter;
    assert xs == [xs[0]] + xs[1..];
    FilterAppend([xs[0]], xs[1..], keep);
    FilterNone([xs[0]], keep);
  }

  /** As the clock goes on, a window keeps all it holds until its oldest entry is as old as the window is long. */
  lemma RecentLater(log: seq<int>, windowMs: int, now: int, later: int)
    requires Ascending(log) && now <= later && Recent(log, windowMs, now) != []
    ensures var recent := Recent(log, windowMs, now);
            && (later < recent[0] + windowMs ==> Recent(log, windowMs, later) == recent)
            && (later >= recent[0] + windowMs ==> |Recent(log, windowMs, later)| < |recent|)
  {
    hide Filter;
    var recent := Recent(log, windowMs, now);
    RecentIsAscending(log, windowMs, now);
    FilterTwice(log, After(now - windowMs), After(later - windowMs), After(later - windowMs));
    if later < recent[0] + windowMs {
      FilterAll(recent, After(later - windowMs));
    } else {
      FilterDropsHead(recent, After(later - windowMs));
    }
  }

  /** While nothing is admitted, the log stands still. */
  lemma {:induction false} RefusedUntil(times: seq<int>, between: seq<int>, max: nat, windowMs: int, now: int)
    requires Ascending(times + [now] + between) && max >= 1
    requires |Recent(Log(times, max, windowMs), windowMs, now)| == max
    requires forall t <- between :: t < Recent(Log(times, max, windowMs), windowMs, now)[0] + windowMs
    ensures Log(times + [now] + between, max, windowMs) == Log(times, max, windowMs)
  {
    hide Log, Recent, Ascending;
    var log := Log(times, max, windowMs);
    if between == [] {
      LogPush(times, now, max, windowMs);
      assert times + [now] + between == times + [now];
      assert log + [] == log;
    } else {
      var init, last := between[..|between| - 1], between[|between| - 1];
      var before := times + [now] + init;
      assert times + [now] + between == before + [last];
      AscendingPush(before, last);
      forall t | t in init ensures t in between {}
      RefusedUntil(times, init, max, windowMs, now);
      LogPush(before, last, max, windowMs);
      assert now in before && now <= last;
      assert before == times + ([now] + init);
      LogOfPrefixAscending(times, [now] + init, max, windowMs);
      assert last in between;
      RecentLater(log, windowMs, now, last);
      assert log + [] == log;
    }
  }

  lemma LogOfPrefixAscending(times: seq<int>, more: seq<int>, max: nat, windowMs: int)
    requires Ascending(times + more)
    ensures Ascending(times) && Ascending(Log(times, max, windowMs))
  {
    var all := times + more;
    forall i, j | 0 <= i <= j < |times| ensures times[i] <= times[j] {
      assert all[i] <= all[j];
    }
    LogIsAscending(times, max, windowMs);
  }

  /**
   * After a refusal at `now`, with the oldest admission of its window at `oldest`: every request
   * before `oldest + windowMs` is refused too, and the first one from then on is admitted.
   */
  lemma RetryAfterIsExact(times: seq<int>, now: int, between: seq<int>, next: int, max: nat, windowMs: int)
    requires Ascending(times + [now] + between + [next]) && max >= 1
    requires |Recent(Log(times, max, windowMs), windowMs, now)| == max
    requires forall t <- between :: t < Recent(Log(times, max, windowMs), windowMs, now)[0] + windowMs
    ensures var log := Log(times + [now] + between, max, windowMs);
            var oldest := Recent(Log(times, max, windowMs), windowMs, now)[0];
            && log == Log(times, max, windowMs)
            && (|Recent(log, windowMs, next)| < max <==> next >= oldest + windowMs)
  {
    hide Log, Recent, Ascending;
    var before := times + [now] + between;
    AscendingPush(before, next);
    RefusedUntil(times, between, max, windowMs, now);
    assert now in before && now <= next;
    assert before == times + ([now] + between);
    LogOfPrefixAscending(times, [now] + between, max, windowMs);
    RecentLater(Log(times, max, windowMs), windowMs, now, next);
  }

  // ---- The keyed limiter ----

  datatype Kind = Read | Write | Export

  function PrefixOf(kind: Kind): string {
    match kind case Read => "read" case Write => "write" case Export => "export"
  }

  function MaxOf(kind: Kind): nat {
    match kind case Read => 30 case Write => 10 case Export => 5
  }

  function WindowOf(kind: Kind): nat {
    match kind case Read => 60_000 case Write => 60_000 case Export => 3_600_000
  }

  /** What a request says about its sender; `None` where the parameter or header is absent. */
  datatype Sender = Sender(walletParam: Option<string>, walletHeader: Option<string>, forwardedFor: Option<string>)

  predicate Truthy(s: Option<string>) { s.Some? && s.value != "" }

  /** `s.split(",")[0]` */
  function FirstField(s: string): string {
    if s == "" || s[0] == ',' then "" else [s[0]] + FirstField(s[1..])
  }

  /** Who a request counts against: the wallet it names, else the address it was forwarded for. */
  datatype Identity = Wallet(lowered: string) | Ip(address: string)

  function IdentityOf(sender: Sender): Identity {
    if Truthy(sender.walletParam) then Wallet(ToLower(sender.walletParam.value))
    else if Truthy(sender.walletHeader) then Wallet(ToLower(sender.walletHeader.value))
    else if Truthy(sender.forwardedFor) then Ip(Trim(FirstField(sender.forwardedFor.value)))
    else Ip("unknown")
  }

  function ResolveKey(sender: Sender, kind: Kind): string {
    var prefix := PrefixOf(kind);
    match IdentityOf(sender)
    case Wallet(w) => prefix + ":wallet:" + w
    case Ip(a) => prefix + ":ip:" + a
  }

  /** Two requests share a key exactly when they share a limiter and an identity. */
  lemma SameKeyMeans(s1: Sender, k1: Kind, s2: Sender, k2: Kind)
    ensures ResolveKey(s1, k1) == ResolveKey(s2, k2) <==> k1 == k2 && IdentityOf(s1) == IdentityOf(s2)
  {
    hide IdentityOf;
    var a, b := ResolveKey(s1, k1), ResolveKey(s2, k2);
    if a == b {
      assert a[0] == PrefixOf(k1)[0] && b[0] == PrefixOf(k2)[0];
      var n := |PrefixOf(k1)|;
      assert a[n + 1] == b[n + 1];
      match (IdentityOf(s1), IdentityOf(s2))
      case (Wallet(w1), Wallet(w2)) => assert w1 == a[n + 8..] && w2 == b[n + 8..];
      case (Ip(i1), Ip(i2)) => assert i1 == a[n + 4..] && i2 == b[n + 4..];
      case _ =>
    }
  }

  /** The wallet the request names: in the parameter, or in the header when the parameter is absent or empty. */
  ghost predicate NamesWallet(s: Sender, wallet: string) {
    && wallet != ""
    && (s.walletParam == Some(wallet)
        || ((s.walletParam == None || s.walletParam == Some("")) && s.walletHeader == Some(wallet)))
  }

  /** `field` is what stands before the first comma of `s`. */
  ghost predicate BeforeComma(s: string, field: string) {
    ',' !in field && (s == field || field + "," <= s)
  }

  lemma {:induction false} FirstFieldMeans(s: string)
    ensures BeforeComma(s, FirstField(s))
  {
    if s != "" && s[0] != ',' {
      FirstFieldMeans(s[1..]);
      assert s == [s[0]] + s[1..];
    }
  }

  /**
   * Who a request counts against: the wallet it names, whatever its case; naming none, the address before the
   * first comma of what it was forwarded for, spaces taken off; without that either, one shared stranger.
   */
  lemma IdentityMeans(s: Sender)
    ensures (exists w :: NamesWallet(s, w)) <==> IdentityOf(s).Wallet?
    ensures forall w | NamesWallet(s, w) :: SameIgnoringCase(w, IdentityOf(s).lowered)
    ensures IdentityOf(s).Ip? ==>
              if s.forwardedFor == None || s.forwardedFor == Some("") then IdentityOf(s).address == "unknown"
              else exists field :: BeforeComma(s.forwardedFor.value, field) && Trimmed(field, IdentityOf(s).address)
  {
    hide Trim, FirstField, ToLower, BeforeComma, Trimmed, SameIgnoringCase;
    if Truthy(s.walletParam) {
      assert NamesWallet(s, s.walletParam.value);
      LowerTwin(s.walletParam.value);
    } else if Truthy(s.walletHeader) {
      assert NamesWallet(s, s.walletHeader.value);
      LowerTwin(s.walletHeader.value);
    } else if Truthy(s.forwardedFor) {
      FirstFieldMeans(s.forwardedFor.value);
      TrimMeans(FirstField(s.forwardedFor.value));
    }
  }

  lemma LowerTwin(s: string)
    ensures SameIgnoringCase(s, ToLower(s))
  {
  }

  /** Requests that name wallets share a key exactly when limiter and wallet are the same, case aside. */
  lemma SameWalletMeans(s1: Sender, k1: Kind, w1: string, s2: Sender, k2: Kind, w2: string)
    requires NamesWallet(s1, w1) && NamesWallet(s2, w2)
    ensures ResolveKey(s1, k1) == ResolveKey(s2, k2) <==> k1 == k2 && SameIgnoringCase(w1, w2)
  {
    hide ResolveKey, SameIgnoringCase, ToLower;
    SameKeyMeans(s1, k1, s2, k2);
    LowerMeans(w1, w2);
  }

  datatype Refusal = Refusal(retryAfterMs: int, retryAfterSec: int, resetSec: int)

  /** `Math.ceil(ms / 1000)` */
  function CeilSeconds(ms: int): (sec: int)
    ensures 1000 * (sec - 1) < ms <= 1000 * sec
  {
    -((-ms) / 1000)
  }

  type Store = map<string, seq<int>>

  datatype Call = Call(sender: Sender, kind: Kind, now: int)

  function KeyOf(c: Call): string { ResolveKey(c.sender, c.kind) }

  function Stored(store: Store, key: string): seq<int> {
    if key in store then store[key] else []
  }

  predicate Admits(store: Store, c: Call) {
    |Recent(Stored(store, KeyOf(c)), WindowOf(c.kind), c.now)| < MaxOf(c.kind)
  }

  /** The stored timestamps after one request. */
  function Applied(store: Store, c: Call): Store {
    var recent := Recent(Stored(store, KeyOf(c)), WindowOf(c.kind), c.now);
    store[KeyOf(c) := if Admits(store, c) then recent + [c.now] else recent]
  }

  /** How long a refused request is told to wait: until the oldest admission of its window leaves it. */
  function RetryAfterMs(store: Store, c: Call): int
    requires !Admits(store, c)
  {
    Recent(Stored(store, KeyOf(c)), WindowOf(c.kind), c.now)[0] + WindowOf(c.kind) - c.now
  }

  class RateLimiter {
    var store: Store

    constructor ()
      ensures store == map[]
    {
      store := map[];
    }

    method ApplyLimit(sender: Sender, kind: Kind, now: int) returns (refusal: Option<Refusal>)
      modifies this
      ensures store == Applied(old(store), Call(sender, kind, now))
      ensures refusal == None <==> Admits(old(store), Call(sender, kind, now))
      ensures refusal.Some? ==>
                var wait := RetryAfterMs(old(store), Call(sender, kind, now));
                && refusal.value.retryAfterMs == wait
                && 1000 * (refusal.value.retryAfterSec - 1) < wait <= 1000 * refusal.value.retryAfterSec
                && 1000 * (refusal.value.resetSec - 1) < now + wait <= 1000 * refusal.value.resetSec
    {
      assert MaxOf(kind) >= 1;
      hide Filter, ResolveKey, MaxOf, WindowOf;
      var key, max, windowMs := ResolveKey(sender, kind), MaxOf(kind), WindowOf(kind);
      if key !in store {
        store := store[key := []];
      }
      assert store[key] == Stored(old(store), key);
      store := store[key := Filter(store[key], After(now - windowMs))];
      var timestamps := store[key];
      assert timestamps == Recent(Stored(old(store), key), windowMs, now);
      assert store == old(store)[key := timestamps];
      hide Stored, Recent;
      if |timestamps| >= max {
        var oldest := timestamps[0];
        var retryAfterMs := windowMs - (now - oldest);
        return Some(Refusal(retryAfterMs, CeilSeconds(retryAfterMs), CeilSeconds(oldest + windowMs)));
      }
      store := store[key := timestamps + [now]];
      return None;
    }
  }

  /** The store after a run of requests, oldest first, from an empty store. */
  function Run(calls: seq<Call>): Store {
    if calls == [] then map[] else Applied(Run(calls[..|calls| - 1]), calls[|calls| - 1])
  }

  /** The times of the requests under one key. */
  function TimesOf(calls: seq<Call>, key: string): seq<int> {
    if calls == [] then []
    else
      var init, last := TimesOf(calls[..|calls| - 1], key), calls[|calls| - 1];
      if KeyOf(last) == key then init + [last.now] else init
  }

  /** The times of the requests under one key that were let through. */
  function Admitted(calls: seq<Call>, key: string): seq<int> {
    if calls == [] then []
    else
      var init, last := calls[..|calls| - 1], calls[|calls| - 1];
      Admitted(init, key) + if KeyOf(last) == key && Admits(Run(init), last) then [last.now] else []
  }

  /** From `clock` on, a pruned list answers as the whole log would. */
  ghost predicate Agrees(stored: seq<int>, log: seq<int>, windowMs: int, clock: int) {
    forall now: int | now >= clock :: Recent(stored, windowMs, now) == Recent(log, windowMs, now)
  }

  lemma PruneAgrees(stored: seq<int>, log: seq<int>, windowMs: int, clock: int, now: int)
    requires Agrees(stored, log, windowMs, clock) && now >= clock
    ensures Agrees(Recent(stored, windowMs, now), log, windowMs, now)
  {
    hide Filter;
    forall later: int | later >= now
      ensures Recent(Recent(stored, windowMs, now), windowMs, later) == Recent(log, windowMs, later)
    {
      FilterTwice(stored, After(now - windowMs), After(later - windowMs), After(later - windowMs));
    }
  }

  lemma PushAgrees(stored: seq<int>, log: seq<int>, windowMs: int, clock: int, t: int)
    requires Agrees(stored, log, windowMs, clock)
    ensures Agrees(stored + [t], log + [t], windowMs, clock)
  {
    hide Filter;
    forall now: int | now >= clock
      ensures Recent(stored + [t], windowMs, now) == Recent(log + [t], windowMs, now)
    {
      AgreesAt(stored, log, windowMs, clock, now);
      FilterPush(stored, t, After(now - windowMs));
      FilterPush(log, t, After(now - windowMs));
    }
  }

  /**
   * Whatever the other keys do, the requests under `c`'s key are let through exactly as the log of
   * their own times says; the pruned list behind them holds at most the cap.
   */
  lemma {:induction false} KeyedLimiterFollowsLog(calls: seq<Call>, c: Call, clock: int)
    requires Ascending(TimesOf(calls, KeyOf(c)) + [clock])
    ensures Admitted(calls, KeyOf(c)) == Log(TimesOf(calls, KeyOf(c)), MaxOf(c.kind), WindowOf(c.kind))
    ensures Agrees(Stored(Run(calls), KeyOf(c)), Admitted(calls, KeyOf(c)), WindowOf(c.kind), clock)
    ensures |Stored(Run(calls), KeyOf(c))| <= MaxOf(c.kind)
  {
    hide Filter, Recent, ResolveKey, Log, Ascending, Agrees;
    var key, max, windowMs := KeyOf(c), MaxOf(c.kind), WindowOf(c.kind);
    if calls == [] {
      NothingAgrees(windowMs, clock);
      LogOfNothing(max, windowMs);
    } else {
      var init, last := calls[..|calls| - 1], calls[|calls| - 1];
      if KeyOf(last) != key {
        KeyedLimiterFollowsLog(init, c, clock);
      } else {
        SameKeyMeans(last.sender, last.kind, c.sender, c.kind);
        var times, now := TimesOf(init, key), last.now;
        AscendingPush(times + [now], clock);
        KeyedLimiterFollowsLog(init, c, now);
        assert now <= clock by { assert now in times + [now]; }
        var stored, log := Stored(Run(init), key), Admitted(init, key);
        LogPush(times, now, max, windowMs);
        AgreesAt(stored, log, windowMs, now, now);
        RecentIsShorter(stored, windowMs, now);
        PruneAgrees(stored, log, windowMs, now, now);
        PushAgrees(Recent(stored, windowMs, now), log, windowMs, now, now);
        var after := Stored(Run(calls), key);
        var admits := Admits(Run(init), last);
        assert log + [] == log;
        assert Admitted(calls, key) == if admits then log + [now] else log;
        assert after == if admits then Recent(stored, windowMs, now) + [now] else Recent(stored, windowMs, now);
        assert Agrees(after, Admitted(calls, key), windowMs, now);
        AgreesLater(after, Admitted(calls, key), windowMs, now, clock);
      }
    }
  }

  lemma NothingAgrees(windowMs: int, clock: int)
    ensures Agrees([], [], windowMs, clock)
  {
  }

  lemma LogOfNothing(max: nat, windowMs: int)
    ensures Log([], max, windowMs) == []
  {
  }

  lemma AgreesAt(stored: seq<int>, log: seq<int>, windowMs: int, clock: int, now: int)
    requires Agrees(stored, log, windowMs, clock) && now >= clock
    ensures Recent(stored, windowMs, now) == Recent(log, windowMs, now)
  {
  }

  lemma RecentIsShorter(stored: seq<int>, windowMs: int, now: int)
    ensures |Recent(stored, windowMs, now)| <= |stored|
  {
  }

  lemma AgreesLater(stored: seq<int>, log: seq<int>, windowMs: int, clock: int, later: int)
    requires Agrees(stored, log, windowMs, clock) && clock <= later
    ensures Agrees(stored, log, windowMs, later)
  {
  }

  /**
   * The whole-run guarantee of the keyed limiter, for a clock that never runs backwards under the
   * key: no window of any run holds more than the cap of let-through requests, and a request is
   * refused exactly when its own window already holds that many.
   */
  lemma LimiterGuarantee(calls: seq<Call>, c: Call, t: int)
    requires Ascending(TimesOf(calls, KeyOf(c)) + [c.now])
    ensures var max, windowMs := MaxOf(c.kind), WindowOf(c.kind);
            && (c.kind == Read ==> max == 30 && windowMs == 60_000)
            && (c.kind == Write ==> max == 10 && windowMs == 60_000)
            && (c.kind == Export ==> max == 5 && windowMs == 3_600_000)
            && |Filter(Admitted(calls, KeyOf(c)), Within(t - windowMs, t))| <= max
            && (!Admits(Run(calls), c) <==> |Filter(Admitted(calls, KeyOf(c)), Within(c.now - windowMs, c.now))| == max)
  {
    hide Filter, ResolveKey, Log, Ascending;
    var key, max, windowMs := KeyOf(c), MaxOf(c.kind), WindowOf(c.kind);
    var times := TimesOf(calls, key);
    KeyedLimiterFollowsLog(calls, c, c.now);
    AscendingPush(times, c.now);
    EveryWindowIsCapped(times, max, windowMs, t);
    EveryWindowIsCapped(times, max, windowMs, c.now);
    LogIsAscending(times, max, windowMs);
    RecentIsWindow(Admitted(calls, key), windowMs, c.now);
  }

  lemma {:induction false} TimesOfAppend(xs: seq<Call>, ys: seq<Call>, key: string)
    ensures TimesOf(xs + ys, key) == TimesOf(xs, key) + TimesOf(ys, key)
  {
    hide ResolveKey;
    if ys == [] {
      assert xs + ys == xs;
    } else {
      assert (xs + ys)[..|xs + ys| - 1] == xs + ys[..|ys| - 1];
      TimesOfAppend(xs, ys[..|ys| - 1], key);
    }
  }

  lemma TimesOfOne(c: Call)
    ensures TimesOf([c], KeyOf(c)) == [c.now]
  {
    assert [c][..0] == [];
  }

  lemma {:induction false} TimesOfBefore(calls: seq<Call>, key: string, bound: int)
    requires forall e <- calls | KeyOf(e) == key :: e.now < bound
    ensures forall t <- TimesOf(calls, key) :: t < bound
  {
    hide ResolveKey;
    if calls != [] {
      TimesOfBefore(calls[..|calls| - 1], key, bound);
    }
  }

  /**
   * A refusal's `retryAfterMs` is exact: it is more than 0 and at most the window, and when every request
   * under the key in between came before it ran out, the next one is let through if and only if it has.
   */
  lemma RetryAfterKept(calls: seq<Call>, c: Call, between: seq<Call>, d: Call)
    requires KeyOf(d) == KeyOf(c)
    requires Ascending(TimesOf(calls, KeyOf(c)) + [c.now] + TimesOf(between, KeyOf(c)) + [d.now])
    ensures !Admits(Run(calls), c) ==> 0 < RetryAfterMs(Run(calls), c) <= WindowOf(c.kind)
    ensures !Admits(Run(calls), c)
            && (forall e <- between | KeyOf(e) == KeyOf(c) :: e.now < c.now + RetryAfterMs(Run(calls), c)) ==>
              (Admits(Run(calls + [c] + between), d) <==> d.now >= c.now + RetryAfterMs(Run(calls), c))
  {
    if !Admits(Run(calls), c) {
      WaitIsInWindow(calls, c, between, d);
      if forall e <- between | KeyOf(e) == KeyOf(c) :: e.now < c.now + RetryAfterMs(Run(calls), c) {
        NextIsAdmitted(calls, c, between, d);
      }
    }
  }

  lemma WaitIsInWindow(calls: seq<Call>, c: Call, between: seq<Call>, d: Call)
    requires Ascending(TimesOf(calls, KeyOf(c)) + [c.now] + TimesOf(between, KeyOf(c)) + [d.now])
    requires !Admits(Run(calls), c)
    ensures Ascending(TimesOf(calls, KeyOf(c)) + [c.now])
    ensures 0 < RetryAfterMs(Run(calls), c) <= WindowOf(c.kind)
  {
    hide Filter, ResolveKey, Log, Ascending, TimesOf, Admitted, Run, Agrees, Recent;
    var key, max, windowMs := KeyOf(c), MaxOf(c.kind), WindowOf(c.kind);
    var times := TimesOf(calls, key);
    AscendingPush(times + [c.now] + TimesOf(between, key), d.now);
    AscendingPrefix(times + [c.now], TimesOf(between, key));
    KeyedLimiterFollowsLog(calls, c, c.now);
    AgreesAt(Stored(Run(calls), key), Log(times, max, windowMs), windowMs, c.now, c.now);
    HeadIsInWindow(times, c.now, max, windowMs);
  }

  lemma NextIsAdmitted(calls: seq<Call>, c: Call, between: seq<Call>, d: Call)
    requires KeyOf(d) == KeyOf(c) && !Admits(Run(calls), c)
    requires Ascending(TimesOf(calls, KeyOf(c)) + [c.now])
    requires Ascending(TimesOf(calls, KeyOf(c)) + [c.now] + TimesOf(between, KeyOf(c)) + [d.now])
    requires forall e <- between | KeyOf(e) == KeyOf(c) :: e.now < c.now + RetryAfterMs(Run(calls), c)
    ensures Admits(Run(calls + [c] + between), d) <==> d.now >= c.now + RetryAfterMs(Run(calls), c)
  {
    hide Filter, ResolveKey, Log, Ascending, TimesOf, Admitted, Run, Agrees, Recent;
    var key, max, windowMs := KeyOf(c), MaxOf(c.kind), WindowOf(c.kind);
    SameKeyMeans(c.sender, c.kind, d.sender, d.kind);
    var times, mid := TimesOf(calls, key), TimesOf(between, key);
    AscendingPush(times + [c.now] + mid, d.now);
    KeyedLimiterFollowsLog(calls, c, c.now);
    var stored, log := Stored(Run(calls), key), Log(times, max, windowMs);
    AgreesAt(stored, log, windowMs, c.now, c.now);
    RefusedMeansExactlyFull(times, c.now, max, windowMs);
    TimesOfBefore(between, key, c.now + RetryAfterMs(Run(calls), c));
    TimesOfAppend(calls, [c], key);
    TimesOfOne(c);
    TimesOfAppend(calls + [c], between, key);
    RetryAfterIsExact(times, c.now, mid, d.now, max, windowMs);
    KeyedLimiterFollowsLog(calls + [c] + between, d, d.now);
    AgreesAt(Stored(Run(calls + [c] + between), key), Log(times + [c.now] + mid, max, windowMs), windowMs, d.now,
             d.now);
  }

  lemma AscendingPrefix(times: seq<int>, more: seq<int>)
    requires Ascending(times + more)
    ensures Ascending(times)
  {
    var all := times + more;
    forall i, j | 0 <= i <= j < |times| ensures times[i] <= times[j] {
      assert all[i] <= all[j];
    }
  }

  lemma HeadIsInWindow(times: seq<int>, now: int, max: nat, windowMs: int)
    requires Ascending(times + [now]) && Recent(Log(times, max, windowMs), windowMs, now) != []
    ensures now - windowMs < Recent(Log(times, max, windowMs), windowMs, now)[0] <= now
  {
    AscendingPush(times, now);
    LogIsAscending(times, max, windowMs);
    var recent := Recent(Log(times, max, windowMs), windowMs, now);
    assert recent[0] in recent;
  }

  // ---- The error reporter's limiter ----

  const MAX_REPORTS := 5
  const REPORT_WINDOW_MS := 60_000

  function DropStale(times: seq<int>, cutoff: int): seq<int> {
    if times != [] && times[0] <= cutoff then DropStale(times[1..], cutoff) else times
  }

  class ErrorReporter {
    var reportTimestamps: seq<int>

    constructor ()
      ensures reportTimestamps == []
    {
      reportTimestamps := [];
    }

    /** True when the report is to be dropped. */
    method IsRateLimited(now: int) returns (limited: bool)
      modifies this
      ensures limited == Drops(old(reportTimestamps), now)
      ensures reportTimestamps == AfterReport(old(reportTimestamps), now)
    {
      while reportTimestamps != [] && reportTimestamps[0] <= now - REPORT_WINDOW_MS
        invariant DropStale(reportTimestamps, now - REPORT_WINDOW_MS) ==
                  DropStale(old(reportTimestamps), now - REPORT_WINDOW_MS)
        decreases |reportTimestamps|
      {
        reportTimestamps := reportTimestamps[1..];
      }
      if |reportTimestamps| >= MAX_REPORTS {
        return true;
      }
      reportTimestamps := reportTimestamps + [now];
      return false;
    }
  }

  predicate Drops(times: seq<int>, now: int) {
    |DropStale(times, now - REPORT_WINDOW_MS)| >= MAX_REPORTS
  }

  function AfterReport(times: seq<int>, now: int): seq<int> {
    var live := DropStale(times, now - REPORT_WINDOW_MS);
    if |live| >= MAX_REPORTS then live else live + [now]
  }

  function Reported(times: seq<int>): seq<int> {
    if times == [] then [] else AfterReport(Reported(times[..|times| - 1]), times[|times| - 1])
  }

  /** The times of the reports that went through. */
  function Sent(times: seq<int>): seq<int> {
    if times == [] then []
    else
      var init, now := times[..|times| - 1], times[|times| - 1];
      Sent(init) + if Drops(Reported(init), now) then [] else [now]
  }

  /** On an ascending list, shifting from the front keeps what filtering keeps. */
  lemma {:induction false} ShiftIsFilter(times: seq<int>, cutoff: int)
    requires Ascending(times)
    ensures DropStale(times, cutoff) == Filter(times, After(cutoff))
  {
    if times != [] {
      var rest := times[1..];
      assert times == [times[0]] + rest;
      FilterAppend([times[0]], rest, After(cutoff));
      assert [times[0]][..0] == [];
      if times[0] <= cutoff {
        ShiftIsFilter(rest, cutoff);
      } else {
        FilterAll(times, After(cutoff));
      }
    }
  }

  lemma DropStaleKeepsAscending(times: seq<int>, cutoff: int)
    requires Ascending(times)
    ensures Ascending(DropStale(times, cutoff))
    ensures forall t <- DropStale(times, cutoff) :: t in times
  {
  }

  /** The shifting limiter lets through what the log of the same times admits. */
  lemma {:induction false} ReporterFollowsLog(times: seq<int>, clock: int)
    requires Ascending(times + [clock])
    ensures Sent(times) == Log(times, MAX_REPORTS, REPORT_WINDOW_MS)
    ensures Ascending(Reported(times) + [clock])
    ensures Agrees(Reported(times), Sent(times), REPORT_WINDOW_MS, clock)
    ensures |Reported(times)| <= MAX_REPORTS
  {
    hide Filter, Log, Agrees, Ascending, DropStale;
    if times == [] {
      NothingAgrees(REPORT_WINDOW_MS, clock);
      LogOfNothing(MAX_REPORTS, REPORT_WINDOW_MS);
      assert Reported(times) + [clock] == times + [clock];
    } else {
      var init, now := times[..|times| - 1], times[|times| - 1];
      assert times == init + [now];
      AscendingPush(times, clock);
      assert now in times && now <= clock;
      ReporterFollowsLog(init, now);
      var stored, log := Reported(init), Sent(init);
      AscendingPush(stored, now);
      LogPush(init, now, MAX_REPORTS, REPORT_WINDOW_MS);
      AgreesAt(stored, log, REPORT_WINDOW_MS, now, now);
      ShiftIsFilter(stored, now - REPORT_WINDOW_MS);
      DropStaleKeepsAscending(stored, now - REPORT_WINDOW_MS);
      RecentIsShorter(stored, REPORT_WINDOW_MS, now);
      PruneAgrees(stored, log, REPORT_WINDOW_MS, now, now);
      PushAgrees(Recent(stored, REPORT_WINDOW_MS, now), log, REPORT_WINDOW_MS, now, now);
      assert log + [] == log;
      AgreesLater(Reported(times), Sent(times), REPORT_WINDOW_MS, now, clock);
      ReportedStaysAscending(stored, now, clock);
    }
  }

  lemma ReportedStaysAscending(stored: seq<int>, now: int, clock: int)
    requires Ascending(stored) && (forall t <- stored :: t <= now) && now <= clock
    ensures Ascending(AfterReport(stored, now) + [clock])
  {
    DropStaleKeepsAscending(stored, now - REPORT_WINDOW_MS);
    var live, all := DropStale(stored, now - REPORT_WINDOW_MS), AfterReport(stored, now) + [clock];
    forall i, j | 0 <= i <= j < |all| ensures all[i] <= all[j] {
      if j < |live| {
        assert all[i] == live[i] && all[j] == live[j];
      } else if i < |live| {
        assert all[i] == live[i] && live[i] in live;
      }
    }
  }

  /** Hence the two limiters agree: five reports a minute, in every window of every session. */
  lemma ReporterGuarantee(times: seq<int>, now: int, t: int)
    requires Ascending(times + [now])
    ensures |Filter(Sent(times), Within(t - 60_000, t))| <= 5
    ensures Drops(Reported(times), now) <==> |Filter(Sent(times), Within(now - 60_000, now))| == 5
  {
    hide Filter, Log, Ascending, DropStale;
    ReporterFollowsLog(times, now);
    AscendingPush(times, now);
    EveryWindowIsCapped(times, MAX_REPORTS, REPORT_WINDOW_MS, t);
    EveryWindowIsCapped(times, MAX_REPORTS, REPORT_WINDOW_MS, now);
    LogIsAscending(times, MAX_REPORTS, REPORT_WINDOW_MS);
    RecentIsWindow(Sent(times), REPORT_WINDOW_MS, now);
    AscendingPush(Reported(times), now);
    ShiftIsFilter(Reported(times), now - REPORT_WINDOW_MS);
    AgreesAt(Reported(times), Sent(times), REPORT_WINDOW_MS, now, now);
  }
}
