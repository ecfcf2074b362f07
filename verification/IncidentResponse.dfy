/**
 * The circuit breaker: critical alerts grouped by the pools they name, a gated decision per pool,
 * and what the cooldown gate guarantees over any run of scans.
 */
module IncidentResponse {
  import opened Prelude
  import opened Sorting

  datatype Severity = Info | Warning | Critical

  datatype SecurityAlert = SecurityAlert(ruleId: string, severity: Severity, description: string,
                                         affectedPools: seq<string>)

  datatype PoolAlertGroup = PoolAlertGroup(
    poolId: string,
    ruleIds: seq<string>,
    descriptions: seq<string>,
    alertCount: nat)

  // ---- Grouping ----

  /** One naming of a pool by one critical alert. */
  datatype Mention = Mention(poolId: string, ruleId: string, description: string)

  function MentionsIn(alert: SecurityAlert, pools: seq<string>): seq<Mention> {
    if pools == [] then []
    else
      var init, last := MentionsIn(alert, pools[..|pools| - 1]), pools[|pools| - 1];
      if last == "" then init else init + [Mention(last, alert.ruleId, alert.description)]
  }

  /** The non-empty namings of the critical alerts, in order, repeats included. */
  function Mentions(alerts: seq<SecurityAlert>): seq<Mention> {
    if alerts == [] then []
    else
      var init, last := Mentions(alerts[..|alerts| - 1]), alerts[|alerts| - 1];
      if last.severity.Critical? then init + MentionsIn(last, last.affectedPools) else init
  }

  function NewGroup(m: Mention): PoolAlertGroup {
    PoolAlertGroup(m.poolId, [m.ruleId], [m.description], 1)
  }

  function Extended(g: PoolAlertGroup, m: Mention): PoolAlertGroup {
    PoolAlertGroup(g.poolId,
                   if m.ruleId in g.ruleIds then g.ruleIds else g.ruleIds + [m.ruleId],
                   g.descriptions + [m.description],
                   g.alertCount + 1)
  }

  /** `byPool` as a list in insertion order: extend the pool's group, or start one. */
  function Upsert(groups: seq<PoolAlertGroup>, m: Mention): seq<PoolAlertGroup> {
    if groups == [] then [NewGroup(m)]
    else if groups[0].poolId == m.poolId then [Extended(groups[0], m)] + groups[1..]
    else [groups[0]] + Upsert(groups[1..], m)
  }

  function Collect(mentions: seq<Mention>): seq<PoolAlertGroup> {
    if mentions == [] then [] else Upsert(Collect(mentions[..|mentions| - 1]), mentions[|mentions| - 1])
  }

  function ByPoolId(): (PoolAlertGroup, PoolAlertGroup) -> bool {
    (a: PoolAlertGroup, b: PoolAlertGroup) => !StringLess(b.poolId, a.poolId)
  }

  function GroupCritical(alerts: seq<SecurityAlert>): seq<PoolAlertGroup> {
    Sort(Collect(Mentions(alerts)), ByPoolId())
  }

  lemma CollectPush(mentions: seq<Mention>, m: Mention)
    ensures Collect(mentions + [m]) == Upsert(Collect(mentions), m)
  {
    assert (mentions + [m])[..|mentions|] == mentions;
  }

  method GroupCriticalAlertsByPool(alerts: seq<SecurityAlert>) returns (groups: seq<PoolAlertGroup>)
    ensures groups == GroupCritical(alerts)
  {
    hide Sort, Upsert, Collect;
    var byPool: seq<PoolAlertGroup> := [];
    assert Collect([]) == [] by { CollectNothing(); }
    for i := 0 to |alerts|
      invariant byPool == Collect(Mentions(alerts[..i]))
    {
      var alert := alerts[i];
      assert alerts[..i + 1][..i] == alerts[..i];
      if alert.severity.Critical? {
        ghost var before := Mentions(alerts[..i]);
        var pools := alert.affectedPools;
        assert before + [] == before;
        for j := 0 to |pools|
          invariant byPool == Collect(before + MentionsIn(alert, pools[..j]))
        {
          assert pools[..j + 1][..j] == pools[..j];
          if pools[j] != "" {
            var m := Mention(pools[j], alert.ruleId, alert.description);
            byPool := Upsert(byPool, m);
            CollectPush(before + MentionsIn(alert, pools[..j]), m);
            assert before + MentionsIn(alert, pools[..j]) + [m] == before + (MentionsIn(alert, pools[..j]) + [m]);
          }
        }
        assert pools[..|pools|] == pools;
      }
    }
    assert alerts[..|alerts|] == alerts;
    groups := Sort(byPool, ByPoolId());
  }

  lemma CollectNothing()
    ensures Collect([]) == []
  {
  }

  // ---- What a group holds ----

  function OfPool(poolId: string): Mention -> bool { (m: Mention) => m.poolId == poolId }

  function IdOf(): PoolAlertGroup -> string { (g: PoolAlertGroup) => g.poolId }

  function Descriptions(mentions: seq<Mention>): seq<string> {
    seq(|mentions|, i requires 0 <= i < |mentions| => mentions[i].description)
  }

  /** The rules of `mentions`, each where it first occurs. */
  function FirstSeen(mentions: seq<Mention>): seq<string> {
    if mentions == [] then []
    else
      var before, last := FirstSeen(mentions[..|mentions| - 1]), mentions[|mentions| - 1];
      if last.ruleId in before then before else before + [last.ruleId]
  }

  lemma FirstSeenPush(mentions: seq<Mention>, m: Mention)
    ensures var before := FirstSeen(mentions);
            FirstSeen(mentions + [m]) == if m.ruleId in before then before else before + [m.ruleId]
  {
    assert (mentions + [m])[..|mentions|] == mentions;
  }

  ghost predicate NoRepeats(xs: seq<string>) {
    forall i, j | 0 <= i < j < |xs| :: xs[i] != xs[j]
  }

  /** `g` says exactly what `mentions` say about its pool. */
  ghost predicate Describes(g: PoolAlertGroup, mentions: seq<Mention>) {
    var mine := Filter(mentions, OfPool(g.poolId));
    && mine != []
    && g.alertCount == |mine|
    && g.descriptions == Descriptions(mine)
    && g.ruleIds == FirstSeen(mine)
    && NoRepeats(g.ruleIds)
    && (forall m <- mine :: m.ruleId in g.ruleIds)
    && (forall r <- g.ruleIds :: exists m <- mine :: m.ruleId == r)
  }

  ghost predicate Exact(groups: seq<PoolAlertGroup>, mentions: seq<Mention>) {
    && UniqueBy(groups, IdOf())
    && (forall g <- groups :: Describes(g, mentions))
    && (forall m <- mentions :: exists g <- groups :: g.poolId == m.poolId)
  }

  lemma OneSeen(m: Mention)
    ensures FirstSeen([m]) == [m.ruleId] && Descriptions([m]) == [m.description]
  {
    FirstSeenPush([], m);
    assert [] + [m] == [m];
  }

  lemma NewGroupDescribes(mentions: seq<Mention>, m: Mention)
    requires Filter(mentions, OfPool(m.poolId)) == []
    ensures Describes(NewGroup(m), mentions + [m])
  {
    hide Filter, FirstSeen, Descriptions;
    FilterPush(mentions, m, OfPool(m.poolId));
    assert Filter(mentions + [m], OfPool(m.poolId)) == [m];
    OneSeen(m);
    assert m.ruleId in NewGroup(m).ruleIds && m in [m];
  }

  lemma ExtendedDescribes(g: PoolAlertGroup, mentions: seq<Mention>, m: Mention)
    requires Describes(g, mentions) && g.poolId == m.poolId
    ensures Describes(Extended(g, m), mentions + [m])
  {
    hide Filter, FirstSeen;
    FilterPush(mentions, m, OfPool(m.poolId));
    var mine := Filter(mentions, OfPool(g.poolId));
    FirstSeenPush(mine, m);
    assert Descriptions(mine + [m]) == Descriptions(mine) + [m.description];
    forall r | r in Extended(g, m).ruleIds
      ensures exists x <- mine + [m] :: x.ruleId == r
    {
      if r in g.ruleIds {
        var x :| x in mine && x.ruleId == r;
        assert x in mine + [m];
      } else {
        assert m in mine + [m];
      }
    }
  }

  lemma OthersStillDescribe(g: PoolAlertGroup, mentions: seq<Mention>, m: Mention)
    requires Describes(g, mentions) && g.poolId != m.poolId
    ensures Describes(g, mentions + [m])
  {
    hide Filter, FirstSeen, NoRepeats;
    FilterPush(mentions, m, OfPool(g.poolId));
    assert Filter(mentions, OfPool(g.poolId)) + [] == Filter(mentions, OfPool(g.poolId));
  }

  /** Where the pool's group is, if it has one. */
  lemma {:induction false} UpsertAt(groups: seq<PoolAlertGroup>, m: Mention) returns (k: nat)
    ensures k <= |groups|
    ensures k < |groups| ==> groups[k].poolId == m.poolId && Upsert(groups, m) == groups[k := Extended(groups[k], m)]
    ensures k == |groups| ==>
            (forall g <- groups :: g.poolId != m.poolId) && Upsert(groups, m) == groups + [NewGroup(m)]
  {
    if groups == [] || groups[0].poolId == m.poolId {
      k := 0;
    } else {
      var k' := UpsertAt(groups[1..], m);
      k := k' + 1;
      assert groups == [groups[0]] + groups[1..];
    }
  }

  lemma UpsertKeepsExact(groups: seq<PoolAlertGroup>, mentions: seq<Mention>, m: Mention)
    requires Exact(groups, mentions)
    ensures Exact(Upsert(groups, m), mentions + [m])
  {
    hide Describes;
    var k := UpsertAt(groups, m);
    var groups' := Upsert(groups, m);
    if k == |groups| {
      FreshPool(groups, mentions, m);
      NewGroupDescribes(mentions, m);
      UniquePush(groups, NewGroup(m), IdOf());
    } else {
      ExtendedDescribes(groups[k], mentions, m);
      forall i, j | 0 <= i < j < |groups'| ensures IdOf()(groups'[i]) != IdOf()(groups'[j]) {
        assert IdOf()(groups[i]) != IdOf()(groups[j]);
      }
    }
    forall i | 0 <= i < |groups'|
      ensures Describes(groups'[i], mentions + [m])
    {
      if i != k {
        assert groups'[i] == groups[i] && groups[i] in groups;
        if k < |groups| {
          assert i < k ==> IdOf()(groups[i]) != IdOf()(groups[k]);
          assert k < i ==> IdOf()(groups[k]) != IdOf()(groups[i]);
        }
        OthersStillDescribe(groups[i], mentions, m);
      }
    }
    forall x | x in mentions + [m]
      ensures exists g <- groups' :: g.poolId == x.poolId
    {
      if x in mentions {
        var i :| 0 <= i < |groups| && groups[i].poolId == x.poolId;
        assert groups'[i].poolId == x.poolId;
      } else {
        assert groups'[k].poolId == m.poolId;
      }
    }
  }

  lemma FreshPool(groups: seq<PoolAlertGroup>, mentions: seq<Mention>, m: Mention)
    requires Exact(groups, mentions) && forall g <- groups :: g.poolId != m.poolId
    ensures Filter(mentions, OfPool(m.poolId)) == []
  {
    FilterNone(mentions, OfPool(m.poolId));
  }

  lemma {:induction false} CollectIsExact(mentions: seq<Mention>)
    ensures Exact(Collect(mentions), mentions)
  {
    hide Describes, Upsert, Filter;
    if mentions != [] {
      hide Exact;
      var init, last := mentions[..|mentions| - 1], mentions[|mentions| - 1];
      CollectIsExact(init);
      UpsertKeepsExact(Collect(init), init, last);
      assert init + [last] == mentions;
    }
  }

  function TotalCount(groups: seq<PoolAlertGroup>): nat {
    if groups == [] then 0 else TotalCount(groups[..|groups| - 1]) + groups[|groups| - 1].alertCount
  }

  lemma {:induction false} TotalOfAppend(xs: seq<PoolAlertGroup>, ys: seq<PoolAlertGroup>)
    ensures TotalCount(xs + ys) == TotalCount(xs) + TotalCount(ys)
  {
    if ys == [] {
      assert xs + ys == xs;
    } else {
      assert (xs + ys)[..|xs + ys| - 1] == xs + ys[..|ys| - 1];
      TotalOfAppend(xs, ys[..|ys| - 1]);
    }
  }

  lemma {:induction false} TotalOfSort(groups: seq<PoolAlertGroup>, le: (PoolAlertGroup, PoolAlertGroup) -> bool)
    ensures TotalCount(Sort(groups, le)) == TotalCount(groups)
  {
    if groups != [] {
      var init, last := groups[..|groups| - 1], groups[|groups| - 1];
      TotalOfSort(init, le);
      var sorted := Sort(init, le);
      var k := InsertAfterAt(sorted, last, le);
      assert sorted == sorted[..k] + sorted[k..];
      TotalOfAppend(sorted[..k], sorted[k..]);
      TotalOfAppend(sorted[..k], [last]);
      TotalOfAppend(sorted[..k] + [last], sorted[k..]);
      TotalOfOne(last);
    }
  }

  lemma TotalOfOne(g: PoolAlertGroup)
    ensures TotalCount([g]) == g.alertCount
  {
    assert [g][..0] == [];
  }

  lemma TotalOfReplaced(groups: seq<PoolAlertGroup>, k: nat, g: PoolAlertGroup)
    requires k < |groups|
    ensures TotalCount(groups[k := g]) == TotalCount(groups) - groups[k].alertCount + g.alertCount
  {
    hide TotalCount;
    var head, tail := groups[..k], groups[k + 1..];
    assert groups == head + [groups[k]] + tail;
    assert groups[k := g] == head + [g] + tail;
    TotalOfAppend(head + [groups[k]], tail);
    TotalOfAppend(head + [g], tail);
    TotalOfAppend(head, [groups[k]]);
    TotalOfAppend(head, [g]);
    TotalOfOne(groups[k]);
    TotalOfOne(g);
  }

  lemma TotalOfUpsert(groups: seq<PoolAlertGroup>, m: Mention)
    ensures TotalCount(Upsert(groups, m)) == TotalCount(groups) + 1
  {
    hide TotalCount, Upsert;
    var k := UpsertAt(groups, m);
    if k < |groups| {
      TotalOfReplaced(groups, k, Extended(groups[k], m));
    } else {
      TotalOfAppend(groups, [NewGroup(m)]);
      TotalOfOne(NewGroup(m));
    }
  }

  lemma {:induction false} CollectTotal(mentions: seq<Mention>)
    ensures TotalCount(Collect(mentions)) == |mentions|
  {
    hide Upsert;
    if mentions != [] {
      var init, last := mentions[..|mentions| - 1], mentions[|mentions| - 1];
      CollectTotal(init);
      TotalOfUpsert(Collect(init), last);
    }
  }

  lemma ByPoolIdIsTotal()
    ensures TotalPreorder(ByPoolId())
  {
    forall a: PoolAlertGroup, b: PoolAlertGroup ensures ByPoolId()(a, b) || ByPoolId()(b, a) {
      StringLessTrichotomy(a.poolId, b.poolId);
    }
    forall a: PoolAlertGroup, b: PoolAlertGroup, c: PoolAlertGroup | ByPoolId()(a, b) && ByPoolId()(b, c)
      ensures ByPoolId()(a, c)
    {
      StringLessTrichotomy(a.poolId, b.poolId);
      StringLessTrichotomy(b.poolId, c.poolId);
      StringLessTrichotomy(a.poolId, c.poolId);
      if StringLess(c.poolId, a.poolId) && StringLess(a.poolId, b.poolId) {
        StringLessTransitive(c.poolId, a.poolId, b.poolId);
      }
    }
  }

  /**
   * Each naming's pool has exactly one group, in strictly ascending id order, which says exactly what the
   * pool's namings say; no other pool has one, and the counts add up to all the namings.
   */
  lemma GroupsOfMentions(alerts: seq<SecurityAlert>)
    ensures var groups, mentions := GroupCritical(alerts), Mentions(alerts);
            && (forall i, j | 0 <= i < j < |groups| :: StringLess(groups[i].poolId, groups[j].poolId))
            && (forall g <- groups :: Describes(g, mentions))
            && (forall m <- mentions :: exists g <- groups :: g.poolId == m.poolId)
            && TotalCount(groups) == |mentions|
  {
    hide Describes, Sort, Collect, Mentions;
    var mentions := Mentions(alerts);
    var collected, groups := Collect(mentions), GroupCritical(alerts);
    CollectIsExact(mentions);
    CollectTotal(mentions);
    TotalOfSort(collected, ByPoolId());
    ByPoolIdIsTotal();
    SortSorts(collected, ByPoolId());
    SortMembers(collected, ByPoolId());
    SortKeepsUniqueBy(collected, ByPoolId(), IdOf());
    forall i, j | 0 <= i < j < |groups|
      ensures StringLess(groups[i].poolId, groups[j].poolId)
    {
      StringLessTrichotomy(groups[i].poolId, groups[j].poolId);
      assert ByPoolId()(groups[i], groups[j]);
      assert IdOf()(groups[i]) != IdOf()(groups[j]);
    }
  }

  // ---- What the alerts say ----

  ghost predicate Names(alert: SecurityAlert, poolId: string) {
    alert.severity == Critical && poolId in alert.affectedPools
  }

  /** Some critical alert names the pool. */
  ghost predicate IsNamed(alerts: seq<SecurityAlert>, poolId: string) {
    poolId != "" && exists a <- alerts :: Names(a, poolId)
  }

  ghost predicate HasGroup(groups: seq<PoolAlertGroup>, poolId: string) {
    exists g <- groups :: g.poolId == poolId
  }

  /** How often the critical alerts name the pool, repeats within an alert included. */
  ghost function TimesNamed(alerts: seq<SecurityAlert>, poolId: string): nat {
    if alerts == [] then 0
    else
      var init, last := alerts[..|alerts| - 1], alerts[|alerts| - 1];
      TimesNamed(init, poolId) + if last.severity == Critical then multiset(last.affectedPools)[poolId] else 0
  }

  /** Their descriptions, each as often as its alert names the pool. */
  ghost function DescriptionsNaming(alerts: seq<SecurityAlert>, poolId: string): seq<string> {
    if alerts == [] then []
    else
      var init, last := alerts[..|alerts| - 1], alerts[|alerts| - 1];
      DescriptionsNaming(init, poolId)
      + if last.severity == Critical then seq(multiset(last.affectedPools)[poolId], _ => last.description) else []
  }

  /** Their rules, each once, in the order they first name it. */
  ghost function RulesNaming(alerts: seq<SecurityAlert>, poolId: string): seq<string> {
    if alerts == [] then []
    else
      var before, last := RulesNaming(alerts[..|alerts| - 1], poolId), alerts[|alerts| - 1];
      if Names(last, poolId) && last.ruleId !in before then before + [last.ruleId] else before
  }

  function NotEmpty(): string -> bool { (id: string) => id != "" }

  /** All the pools the critical alerts name, repeats included. */
  ghost function AllNamed(alerts: seq<SecurityAlert>): nat {
    if alerts == [] then 0
    else
      var init, last := alerts[..|alerts| - 1], alerts[|alerts| - 1];
      AllNamed(init) + if last.severity == Critical then |Filter(last.affectedPools, NotEmpty())| else 0
  }

  /** The group says what the critical alerts say about its pool. */
  ghost predicate TellsAlerts(g: PoolAlertGroup, alerts: seq<SecurityAlert>) {
    && g.alertCount == TimesNamed(alerts, g.poolId)
    && g.descriptions == DescriptionsNaming(alerts, g.poolId)
    && g.ruleIds == RulesNaming(alerts, g.poolId)
  }

  function Repeated(m: Mention, n: nat): seq<Mention> { seq(n, _ => m) }

  lemma MentionsPush(alert: SecurityAlert, pools: seq<string>, last: string)
    ensures MentionsIn(alert, pools + [last]) ==
            MentionsIn(alert, pools) + if last == "" then [] else [Mention(last, alert.ruleId, alert.description)]
  {
    assert (pools + [last])[..|pools|] == pools;
  }

  lemma OccursPush(pools: seq<string>, last: string, poolId: string)
    ensures multiset(pools + [last])[poolId] == multiset(pools)[poolId] + if last == poolId then 1 else 0
  {
  }

  lemma RepeatedPush(m: Mention, n: nat)
    ensures Repeated(m, n + 1) == Repeated(m, n) + [m]
  {
  }

  /** An alert's namings of one pool are as many as the pool's occurrences. */
  lemma {:induction false} OneAlertsMentions(alert: SecurityAlert, pools: seq<string>, poolId: string)
    requires poolId != ""
    ensures Filter(MentionsIn(alert, pools), OfPool(poolId)) ==
            Repeated(Mention(poolId, alert.ruleId, alert.description), multiset(pools)[poolId])
  {
    if pools != [] {
      hide Filter, MentionsIn, Repeated;
      var init, last := pools[..|pools| - 1], pools[|pools| - 1];
      var m, n := Mention(last, alert.ruleId, alert.description), multiset(init)[poolId];
      assert pools == init + [last];
      OneAlertsMentions(alert, init, poolId);
      MentionsPush(alert, init, last);
      OccursPush(init, last, poolId);
      RepeatedPush(m, n);
      FilterPush(MentionsIn(alert, init), m, OfPool(poolId));
      assert forall xs: seq<Mention> :: xs + [] == xs;
    }
  }

  lemma {:induction false} AllMentions(alert: SecurityAlert, pools: seq<string>)
    ensures |MentionsIn(alert, pools)| == |Filter(pools, NotEmpty())|
  {
    if pools != [] {
      AllMentions(alert, pools[..|pools| - 1]);
    }
  }

  lemma {:induction false} AllMentionsCount(alerts: seq<SecurityAlert>)
    ensures |Mentions(alerts)| == AllNamed(alerts)
  {
    if alerts != [] {
      AllMentionsCount(alerts[..|alerts| - 1]);
      AllMentions(alerts[|alerts| - 1], alerts[|alerts| - 1].affectedPools);
    }
  }

  lemma {:induction false} FirstSeenRepeated(mentions: seq<Mention>, m: Mention, n: nat)
    ensures FirstSeen(mentions + Repeated(m, n)) ==
            if n == 0 || m.ruleId in FirstSeen(mentions) then FirstSeen(mentions) else FirstSeen(mentions) + [m.ruleId]
  {
    if n == 0 {
      assert mentions + Repeated(m, 0) == mentions;
    } else {
      FirstSeenRepeated(mentions, m, n - 1);
      FirstSeenPush(mentions + Repeated(m, n - 1), m);
      assert mentions + Repeated(m, n) == mentions + Repeated(m, n - 1) + [m];
    }
  }

  /** A pool's namings, read off the alerts. */
  lemma {:induction false} MentionsTellAlerts(alerts: seq<SecurityAlert>, poolId: string)
    requires poolId != ""
    ensures var mine := Filter(Mentions(alerts), OfPool(poolId));
            && |mine| == TimesNamed(alerts, poolId)
            && Descriptions(mine) == DescriptionsNaming(alerts, poolId)
            && FirstSeen(mine) == RulesNaming(alerts, poolId)
  {
    hide Filter, FirstSeen, MentionsIn;
    if alerts == [] {
      NothingNamed(poolId);
    } else {
      var init, last := alerts[..|alerts| - 1], alerts[|alerts| - 1];
      MentionsTellAlerts(init, poolId);
      if last.severity.Critical? {
        var before, n := Filter(Mentions(init), OfPool(poolId)), multiset(last.affectedPools)[poolId];
        var m := Mention(poolId, last.ruleId, last.description);
        FilterAppend(Mentions(init), MentionsIn(last, last.affectedPools), OfPool(poolId));
        OneAlertsMentions(last, last.affectedPools, poolId);
        FirstSeenRepeated(before, m, n);
        assert Descriptions(before + Repeated(m, n)) == Descriptions(before) + seq(n, _ => last.description);
        assert n > 0 <==> poolId in last.affectedPools;
      }
    }
  }

  lemma NothingNamed(poolId: string)
    ensures Filter(Mentions([]), OfPool(poolId)) == [] && FirstSeen([]) == []
  {
  }

  lemma {:induction false} MentionedExactly(alerts: seq<SecurityAlert>, poolId: string)
    ensures (exists m <- Mentions(alerts) :: m.poolId == poolId) <==> IsNamed(alerts, poolId)
  {
    if alerts != [] {
      var init, last := alerts[..|alerts| - 1], alerts[|alerts| - 1];
      assert alerts == init + [last];
      MentionedExactly(init, poolId);
      AlertMentions(last, last.affectedPools, poolId);
      assert Names(last, poolId) ==> last in alerts;
    }
  }

  lemma {:induction false} AlertMentions(alert: SecurityAlert, pools: seq<string>, poolId: string)
    ensures (exists m <- MentionsIn(alert, pools) :: m.poolId == poolId) <==> poolId != "" && poolId in pools
  {
    if pools != [] {
      var init, last := pools[..|pools| - 1], pools[|pools| - 1];
      assert pools == init + [last];
      AlertMentions(alert, init, poolId);
      if last != "" {
        var m := Mention(last, alert.ruleId, alert.description);
        assert MentionsIn(alert, pools) == MentionsIn(alert, init) + [m];
        assert m in MentionsIn(alert, pools);
      }
    }
  }

  /**
   * A pool has a group exactly when it has a name and a critical alert names it, and then one, in strictly
   * ascending order. Its count, descriptions and rules are what the critical alerts say about it, alerts of
   * any other severity counting for nothing, and the counts add up to all their namings.
   */
  lemma GroupingIsExact(alerts: seq<SecurityAlert>)
    ensures var groups := GroupCritical(alerts);
            && (forall i, j | 0 <= i < j < |groups| :: StringLess(groups[i].poolId, groups[j].poolId))
            && (forall p: string :: HasGroup(groups, p) <==> IsNamed(alerts, p))
            && (forall g <- groups :: TellsAlerts(g, alerts))
            && TotalCount(groups) == AllNamed(alerts)
  {
    hide GroupCritical, Mentions, TotalCount, Filter, TellsAlerts, HasGroup, IsNamed;
    GroupsOfMentions(alerts);
    AllMentionsCount(alerts);
    var groups := GroupCritical(alerts);
    forall p: string ensures HasGroup(groups, p) <==> IsNamed(alerts, p) {
      GroupedExactly(alerts, p);
    }
    forall g | g in groups ensures TellsAlerts(g, alerts) {
      GroupTellsAlerts(g, alerts);
    }
  }

  lemma GroupTellsAlerts(g: PoolAlertGroup, alerts: seq<SecurityAlert>)
    requires Describes(g, Mentions(alerts))
    ensures TellsAlerts(g, alerts)
  {
    hide Mentions, FirstSeen, Descriptions;
    var mine := Filter(Mentions(alerts), OfPool(g.poolId));
    assert mine[0] in Mentions(alerts) && OfPool(g.poolId)(mine[0]);
    MentionedExactly(alerts, g.poolId);
    MentionsTellAlerts(alerts, g.poolId);
  }

  lemma GroupedExactly(alerts: seq<SecurityAlert>, poolId: string)
    ensures HasGroup(GroupCritical(alerts), poolId) <==> IsNamed(alerts, poolId)
  {
    hide GroupCritical, Mentions, TotalCount;
    GroupsOfMentions(alerts);
    MentionedExactly(alerts, poolId);
    var groups := GroupCritical(alerts);
    if g :| g in groups && g.poolId == poolId {
      var mine := Filter(Mentions(alerts), OfPool(poolId));
      assert mine[0] in Mentions(alerts) && OfPool(poolId)(mine[0]);
    }
  }

  // ---- The decision ----

  datatype IncidentConfig = IncidentConfig(
    criticalThreshold: nat,
    cooldownWindowMs: nat,
    maxPausesPerWindow: nat,
    dryRun: bool)

  datatype PoolStatus = Active | Completed | Paused

  datatype IncidentAction = Pause | NoAction

  datatype SkipReason = BelowThreshold | AlreadyPaused | PoolNotActive | Cooldown | UnknownPool

  datatype IncidentDecision = IncidentDecision(
    poolId: string,
    action: IncidentAction,
    wouldFire: bool,
    executed: bool,
    skipReason: Option<SkipReason>,
    ruleIds: seq<string>,
    alertCount: nat,
    recentPauses: nat)

  function Skip(g: PoolAlertGroup, recentPauses: nat, why: SkipReason): IncidentDecision {
    IncidentDecision(g.poolId, NoAction, why != BelowThreshold, false, Some(why), g.ruleIds, g.alertCount, recentPauses)
  }

  function DecideAutoPause(g: PoolAlertGroup, pool: Option<PoolStatus>, recentPauses: nat, config: IncidentConfig)
    : (d: IncidentDecision)
    ensures d.poolId == g.poolId && d.ruleIds == g.ruleIds && d.alertCount == g.alertCount
            && d.recentPauses == recentPauses
    ensures d.executed <==>
            && g.alertCount >= config.criticalThreshold && pool == Some(Active)
            && recentPauses < config.maxPausesPerWindow && !config.dryRun
    ensures d.wouldFire <==> g.alertCount >= config.criticalThreshold
    ensures d.executed ==> d.action == Pause
    ensures d.action == Pause <==> d.skipReason == None
    ensures d.skipReason == Some(BelowThreshold) <==> !d.wouldFire
    ensures d.skipReason == Some(UnknownPool) <==> d.wouldFire && pool == None
    ensures d.skipReason == Some(AlreadyPaused) <==> d.wouldFire && pool == Some(Paused)
    ensures d.skipReason == Some(Cooldown) <==>
            d.wouldFire && pool == Some(Active) && recentPauses >= config.maxPausesPerWindow
  {
    if g.alertCount < config.criticalThreshold then Skip(g, recentPauses, BelowThreshold)
    else if pool.None? then Skip(g, recentPauses, UnknownPool)
    else if pool.value == Paused then Skip(g, recentPauses, AlreadyPaused)
    else if pool.value != Active then Skip(g, recentPauses, PoolNotActive)
    else if recentPauses >= config.maxPausesPerWindow then Skip(g, recentPauses, Cooldown)
    else IncidentDecision(g.poolId, Pause, true, !config.dryRun, None, g.ruleIds, g.alertCount, recentPauses)
  }

  /** Dry-run changes nothing but `executed`. */
  lemma DryRunOnlyMasksExecution(g: PoolAlertGroup, pool: Option<PoolStatus>, recentPauses: nat, config: IncidentConfig)
    ensures var dry := DecideAutoPause(g, pool, recentPauses, config.(dryRun := true));
            var armed := DecideAutoPause(g, pool, recentPauses, config.(dryRun := false));
            dry == armed.(executed := false) && (armed.executed <==> armed.action == Pause)
  {
  }

  function DecideIncidentResponse(groups: seq<PoolAlertGroup>, pools: map<string, PoolStatus>,
                                  recentPausesByPool: string -> nat,
                                    config: IncidentConfig): (ds: seq<IncidentDecision>)
    ensures |ds| == |groups|
    ensures forall i | 0 <= i < |ds| :: Answers(ds[i], groups[i], pools, recentPausesByPool, config)
  {
    seq(|groups|, i requires 0 <= i < |groups| =>
      var g := groups[i];
      DecideAutoPause(g, if g.poolId in pools then Some(pools[g.poolId])
                      else None, recentPausesByPool(g.poolId), config))
  }

  /** The pool is one the breaker may pause. */
  ghost predicate Pausable(pools: map<string, PoolStatus>, poolId: string) {
    poolId in pools && pools[poolId] == Active
  }

  /** `d` answers the group of its pool, by that pool's own status and recent pauses. */
  ghost predicate Answers(d: IncidentDecision, g: PoolAlertGroup, pools: map<string, PoolStatus>,
                          recentPausesByPool: string -> nat, config: IncidentConfig)
  {
    var reached, recent := g.alertCount >= config.criticalThreshold, recentPausesByPool(g.poolId);
    && d.poolId == g.poolId && d.ruleIds == g.ruleIds && d.alertCount == g.alertCount && d.recentPauses == recent
    && (d.wouldFire <==> reached)
    && (d.action == Pause <==> reached && Pausable(pools, g.poolId) && recent < config.maxPausesPerWindow)
    && (d.executed <==> d.action == Pause && !config.dryRun)
    && (d.skipReason == None <==> d.action == Pause)
    && (d.skipReason == Some(BelowThreshold) <==> !reached)
    && (d.skipReason == Some(UnknownPool) <==> reached && g.poolId !in pools)
    && (d.skipReason == Some(AlreadyPaused) <==> reached && g.poolId in pools && pools[g.poolId] == Paused)
    && (d.skipReason == Some(PoolNotActive) <==> reached && g.poolId in pools && pools[g.poolId] == Completed)
    && (d.skipReason == Some(Cooldown) <==>
          reached && Pausable(pools, g.poolId) && recent >= config.maxPausesPerWindow)
  }

  /**
   * From the alerts to the pauses: a scan pauses a pool exactly when the critical alerts name it at least
   * as often as the threshold, it is active, its recent pauses are below the cap and dry-run is off.
   */
  lemma ScanPausesExactly(alerts: seq<SecurityAlert>, pools: map<string, PoolStatus>, recent: string -> nat,
                          config: IncidentConfig, poolId: string)
    ensures var ds := DecideIncidentResponse(GroupCritical(alerts), pools, recent, config);
            (exists d <- ds :: d.poolId == poolId && d.executed) <==>
            && IsNamed(alerts, poolId) && TimesNamed(alerts, poolId) >= config.criticalThreshold
            && Pausable(pools, poolId) && recent(poolId) < config.maxPausesPerWindow && !config.dryRun
  {
    hide GroupCritical, TimesNamed, DescriptionsNaming, RulesNaming, TotalCount, DecideIncidentResponse;
    hide Pausable, IsNamed;
    GroupedExactly(alerts, poolId);
    GroupingIsExact(alerts);
    var groups := GroupCritical(alerts);
    var ds := DecideIncidentResponse(groups, pools, recent, config);
    if d :| d in ds && d.poolId == poolId && d.executed {
      var i :| 0 <= i < |ds| && ds[i] == d;
      assert groups[i] in groups && Answers(ds[i], groups[i], pools, recent, config);
    }
    if g :| g in groups && g.poolId == poolId {
      var i :| 0 <= i < |groups| && groups[i] == g;
      assert ds[i] in ds && Answers(ds[i], groups[i], pools, recent, config);
    }
  }

  // ---- Runs of scans ----

  /** A pause carried out, with its incident's creation time. */
  datatype ExecutedPause = ExecutedPause(poolId: string, at: int)

  function PausedSince(poolId: string, since: int): ExecutedPause -> bool {
    (p: ExecutedPause) => p.poolId == poolId && p.at >= since
  }

  function PausedWithin(poolId: string, from: int, to: int): ExecutedPause -> bool {
    (p: ExecutedPause) => p.poolId == poolId && from <= p.at <= to
  }

  /**
   * One scan. Each executed decision is carried out at the time `carriedOut` gives, if at all: the
   * write may find the pool no longer active, or fail.
   */
  datatype Scan = Scan(
    alerts: seq<SecurityAlert>,
    pools: map<string, PoolStatus>,
    start: int,
    dryRun: bool,
    carriedOut: string -> Option<int>)

  /** Incidents are created after the scan has read the clock. */
  ghost predicate Timed(s: Scan) {
    forall id: string :: s.carriedOut(id).Some? ==> s.carriedOut(id).value >= s.start
  }

  function CountRecent(history: seq<ExecutedPause>, since: int): string -> nat {
    (id: string) => |Filter(history, PausedSince(id, since))|
  }

  function Carried(decisions: seq<IncidentDecision>, carriedOut: string -> Option<int>): seq<ExecutedPause> {
    if decisions == [] then []
    else
      var init, last := Carried(decisions[..|decisions| - 1], carriedOut), decisions[|decisions| - 1];
      if last.executed && carriedOut(last.poolId).Some?
      then init + [ExecutedPause(last.poolId, carriedOut(last.poolId).value)] else init
  }

  function DecisionsOf(history: seq<ExecutedPause>, s: Scan, config: IncidentConfig): seq<IncidentDecision> {
    DecideIncidentResponse(GroupCritical(s.alerts), s.pools, CountRecent(history, s.start - config.cooldownWindowMs),
                           config.(dryRun := s.dryRun))
  }

  /** The executed pauses after a run of scans, oldest scan first. */
  function Pauses(scans: seq<Scan>, config: IncidentConfig): seq<ExecutedPause> {
    if scans == [] then []
    else
      var before, s := Pauses(scans[..|scans| - 1], config), scans[|scans| - 1];
      before + Carried(DecisionsOf(before, s, config), s.carriedOut)
  }

  /** One scan pauses a pool at most once, only below the cap, and not before it started. */
  lemma {:induction false} CarriedOnce(decisions: seq<IncidentDecision>, carriedOut: string -> Option<int>,
                                       poolId: string, from: int, to: int)
    requires forall i, j | 0 <= i < j < |decisions| :: decisions[i].poolId != decisions[j].poolId
    ensures |Filter(Carried(decisions, carriedOut), PausedWithin(poolId, from, to))| <= 1
    ensures Filter(Carried(decisions, carriedOut), PausedWithin(poolId, from, to)) != [] ==>
            && (exists d <- decisions :: d.poolId == poolId && d.executed)
            && carriedOut(poolId).Some? && from <= carriedOut(poolId).value <= to
  {
    if decisions != [] {
      var init, last := decisions[..|decisions| - 1], decisions[|decisions| - 1];
      CarriedOnce(init, carriedOut, poolId, from, to);
      if last.executed && carriedOut(last.poolId).Some? {
        FilterPush(Carried(init, carriedOut), ExecutedPause(last.poolId, carriedOut(last.poolId).value),
                   PausedWithin(poolId, from, to));
      }
      if last.poolId == poolId {
        forall d | d in init ensures d.poolId != poolId {
          var i :| 0 <= i < |init| && init[i] == d;
          assert decisions[i].poolId != decisions[|decisions| - 1].poolId;
        }
      }
    }
  }

  lemma {:induction false} WindowWithinRecent(history: seq<ExecutedPause>, poolId: string, since: int, from: int,
                                              to: int)
    requires since <= from
    ensures |Filter(history, PausedWithin(poolId, from, to))| <= |Filter(history, PausedSince(poolId, since))|
  {
    if history != [] {
      WindowWithinRecent(history[..|history| - 1], poolId, since, from, to);
    }
  }

  lemma AnswersItsPool(d: IncidentDecision, g: PoolAlertGroup, pools: map<string, PoolStatus>, recent: string -> nat,
                       config: IncidentConfig)
    requires Answers(d, g, pools, recent, config)
    ensures d.poolId == g.poolId
  {
  }

  lemma ExecutedBelowCap(d: IncidentDecision, g: PoolAlertGroup, pools: map<string, PoolStatus>, recent: string -> nat,
                         config: IncidentConfig)
    requires Answers(d, g, pools, recent, config) && d.executed
    ensures recent(d.poolId) < config.maxPausesPerWindow
  {
  }

  lemma DecisionPools(history: seq<ExecutedPause>, s: Scan, config: IncidentConfig)
    ensures var ds := DecisionsOf(history, s, config);
            && (forall i, j | 0 <= i < j < |ds| :: ds[i].poolId != ds[j].poolId)
            && (forall d <- ds | d.executed ::
                  |Filter(history,
                          PausedSince(d.poolId, s.start - config.cooldownWindowMs))| < config.maxPausesPerWindow)
  {
    hide GroupCritical, Filter, DecideIncidentResponse, TotalCount, TellsAlerts, HasGroup, IsNamed, Pausable, Answers;
    var groups, ds := GroupCritical(s.alerts), DecisionsOf(history, s, config);
    GroupingIsExact(s.alerts);
    forall i, j | 0 <= i < j < |ds| ensures ds[i].poolId != ds[j].poolId {
      assert StringLess(groups[i].poolId, groups[j].poolId);
      StringLessTrichotomy(groups[i].poolId, groups[j].poolId);
      var recent, armed := CountRecent(history, s.start - config.cooldownWindowMs), config.(dryRun := s.dryRun);
      assert Answers(ds[i], groups[i], s.pools, recent, armed) && Answers(ds[j], groups[j], s.pools, recent, armed);
      AnswersItsPool(ds[i], groups[i], s.pools, recent, armed);
      AnswersItsPool(ds[j], groups[j], s.pools, recent, armed);
    }
    forall d | d in ds && d.executed
      ensures |Filter(history, PausedSince(d.poolId, s.start - config.cooldownWindowMs))| < config.maxPausesPerWindow
    {
      var i :| 0 <= i < |ds| && ds[i] == d;
      ExecutedBelowCap(d, groups[i], s.pools, CountRecent(history, s.start - config.cooldownWindowMs),
                       config.(dryRun := s.dryRun));
    }
  }

  /**
   * However the alerts fall and whichever pauses go through, no pool is paused more than
   * `maxPausesPerWindow` times in any window as long as the cooldown, both ends included.
   */
  lemma {:induction false} CooldownCapsEveryWindow(scans: seq<Scan>, config: IncidentConfig, poolId: string, from: int)
    requires forall s <- scans :: Timed(s)
    ensures |Filter(Pauses(scans, config), PausedWithin(poolId, from, from + config.cooldownWindowMs))|
            <= config.maxPausesPerWindow
  {
    hide DecisionsOf, Carried, Filter;
    if scans == [] {
      FilterNone<ExecutedPause>([], PausedWithin(poolId, from, from + config.cooldownWindowMs));
    } else {
      var init, s, to := scans[..|scans| - 1], scans[|scans| - 1], from + config.cooldownWindowMs;
      CooldownCapsEveryWindow(init, config, poolId, from);
      var before := Pauses(init, config);
      var ds := DecisionsOf(before, s, config);
      DecisionPools(before, s, config);
      CarriedOnce(ds, s.carriedOut, poolId, from, to);
      FilterAppend(before, Carried(ds, s.carriedOut), PausedWithin(poolId, from, to));
      if Filter(Carried(ds, s.carriedOut), PausedWithin(poolId, from, to)) != [] {
        assert Timed(s);
        WindowWithinRecent(before, poolId, s.start - config.cooldownWindowMs, from, to);
      }
    }
  }
}
