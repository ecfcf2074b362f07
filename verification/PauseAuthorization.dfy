/**
 * Choosing which pre-signed pause authorization to spend. Each is single-use and expires at a
 * ledger; the one expiring soonest goes first.
 */
module PauseAuthorization {
  import opened Prelude
  import opened Sorting

  datatype StoredPauseAuthorization = StoredPauseAuthorization(
    id: string,
    contractAddress: string,
    adminAddress: string,
    expirationLedger: int,
    usedAt: Option<string>,
    revokedAt: Option<string>)

  datatype AuthorizationRejection = Used | Revoked | Expired | ExpiringTooSoon | WrongContract | WrongAdmin

  datatype Rejected = Rejected(id: string, reason: AuthorizationRejection)

  datatype Expected = Expected(contractAddress: string, adminAddress: string)

  type Auth = StoredPauseAuthorization

  function RejectionFor(c: Auth, ledger: int, e: Expected, margin: int): Option<AuthorizationRejection> {
    if c.usedAt.Some? then Some(Used)
    else if c.revokedAt.Some? then Some(Revoked)
    else if c.contractAddress != e.contractAddress then Some(WrongContract)
    else if ToLower(c.adminAddress) != ToLower(e.adminAddress) then Some(WrongAdmin)
    else if c.expirationLedger <= ledger then Some(Expired)
    else if c.expirationLedger - ledger < margin then Some(ExpiringTooSoon)
    else None
  }

  function Usable(ledger: int, e: Expected, margin: int): Auth -> bool {
    (c: Auth) => RejectionFor(c, ledger, e, margin).None?
  }

  /** Sooner expiry first, then the smaller id. */
  function SoonestFirst(): (Auth, Auth) -> bool {
    (a: Auth, b: Auth) =>
      a.expirationLedger < b.expirationLedger
      || (a.expirationLedger == b.expirationLedger && !StringLess(b.id, a.id))
  }

  function Select(candidates: seq<Auth>, ledger: int, e: Expected, margin: int): Option<Auth> {
    var usable := Sort(Filter(candidates, Usable(ledger, e, margin)), SoonestFirst());
    if usable == [] then None else Some(usable[0])
  }

  /** Every candidate passed over, with its reason, in order. */
  function Rejections(candidates: seq<Auth>, ledger: int, e: Expected, margin: int): seq<Rejected> {
    if candidates == [] then []
    else
      var init, last := candidates[..|candidates| - 1], candidates[|candidates| - 1];
      var reason := RejectionFor(last, ledger, e, margin);
      Rejections(init, ledger, e, margin) + if reason.Some? then [Rejected(last.id, reason.value)] else []
  }

  method SelectPauseAuthorization(candidates: seq<Auth>, currentLedger: int, expected: Expected, safetyMargin: int)
      returns (authorization: Option<Auth>, rejected: seq<Rejected>)
    ensures authorization == Select(candidates, currentLedger, expected, safetyMargin)
    ensures rejected == Rejections(candidates, currentLedger, expected, safetyMargin)
  {
    hide RejectionFor, Filter, Sort;
    rejected := [];
    var usable: seq<Auth> := [];
    FilterNone<Auth>([], Usable(currentLedger, expected, safetyMargin));
    for i := 0 to |candidates|
      invariant usable == Filter(candidates[..i], Usable(currentLedger, expected, safetyMargin))
      invariant rejected == Rejections(candidates[..i], currentLedger, expected, safetyMargin)
    {
      var candidate := candidates[i];
      assert candidates[..i + 1] == candidates[..i] + [candidate];
      assert candidates[..i + 1][..i] == candidates[..i];
      FilterPush(candidates[..i], candidate, Usable(currentLedger, expected, safetyMargin));
      var reason := RejectionFor(candidate, currentLedger, expected, safetyMargin);
      if reason.Some? {
        rejected := rejected + [Rejected(candidate.id, reason.value)];
      } else {
        usable := usable + [candidate];
      }
    }
    assert candidates[..|candidates|] == candidates;
    usable := Sort(usable, SoonestFirst());
    authorization := if |usable| > 0 then Some(usable[0]) else None;
  }

  /** Every candidate is either usable or reported, each report is of one of them, with the reason that holds for it. */
  lemma {:induction false} NothingSilentlyDropped(candidates: seq<Auth>, ledger: int, e: Expected, margin: int)
    ensures |Rejections(candidates, ledger, e, margin)| + |Filter(candidates, Usable(ledger, e, margin))| ==
            |candidates|
    ensures forall r <- Rejections(candidates, ledger, e, margin) ::
              exists c <- candidates :: c.id == r.id && RejectionFor(c, ledger, e, margin) == Some(r.reason)
    ensures forall c <- candidates | RejectionFor(c, ledger, e, margin).Some? ::
              Rejected(c.id, RejectionFor(c, ledger, e, margin).value) in Rejections(candidates, ledger, e, margin)
  {
    hide RejectionFor, Filter;
    if candidates == [] {
      FilterNone(candidates, Usable(ledger, e, margin));
    } else {
      var init, last := candidates[..|candidates| - 1], candidates[|candidates| - 1];
      assert candidates == init + [last] && last in candidates;
      NothingSilentlyDropped(init, ledger, e, margin);
      FilterPush(init, last, Usable(ledger, e, margin));
      assert forall c <- init :: c in candidates;
    }
  }

  /** Neither spent nor revoked, signed for this contract by this admin, and long enough from expiring. */
  ghost predicate Fit(c: Auth, ledger: int, e: Expected, margin: int) {
    && c.usedAt == None && c.revokedAt == None && SignedFor(c, e)
    && c.expirationLedger > ledger && c.expirationLedger - ledger >= margin
  }

  /** The addresses match, the admin's whatever its case. */
  ghost predicate SignedFor(c: Auth, e: Expected) {
    c.contractAddress == e.contractAddress && SameIgnoringCase(c.adminAddress, e.adminAddress)
  }

  /**
   * The one reason given: spent before revoked before another contract before another admin, and only what is
   * none of these is called expired or about to be. No reason is given exactly for what is fit for use.
   */
  lemma RejectionMeans(c: Auth, ledger: int, e: Expected, margin: int)
    ensures var why, live := RejectionFor(c, ledger, e, margin), c.usedAt == None && c.revokedAt == None;
            && (why == None <==> Fit(c, ledger, e, margin))
            && (why == Some(Used) <==> c.usedAt != None)
            && (why == Some(Revoked) <==> c.usedAt == None && c.revokedAt != None)
            && (why == Some(WrongContract) <==> live && c.contractAddress != e.contractAddress)
            && (why == Some(WrongAdmin) <==>
                  live && c.contractAddress == e.contractAddress && !SameIgnoringCase(c.adminAddress, e.adminAddress))
            && (why == Some(Expired) <==> live && SignedFor(c, e) && c.expirationLedger <= ledger)
            && (why == Some(ExpiringTooSoon) <==>
                  live && SignedFor(c, e) && ledger < c.expirationLedger < ledger + margin)
  {
    LowerMeans(c.adminAddress, e.adminAddress);
    hide SameIgnoringCase, ToLower;
  }

  lemma SoonestFirstIsTotal()
    ensures TotalPreorder(SoonestFirst())
  {
    forall a: Auth, b: Auth ensures SoonestFirst()(a, b) || SoonestFirst()(b, a) {
      StringLessTrichotomy(a.id, b.id);
    }
    forall a: Auth, b: Auth, c: Auth | SoonestFirst()(a, b) && SoonestFirst()(b, c) ensures SoonestFirst()(a, c) {
      StringLessTrichotomy(a.id, b.id);
      StringLessTrichotomy(b.id, c.id);
      StringLessTrichotomy(a.id, c.id);
      if StringLess(c.id, a.id) && StringLess(a.id, b.id) { StringLessTransitive(c.id, a.id, b.id); }
    }
  }

  /** `a` is spent before `b`: it expires sooner, or as soon with an id not after. */
  ghost predicate SpentBefore(a: Auth, b: Auth) {
    a.expirationLedger < b.expirationLedger || (a.expirationLedger == b.expirationLedger && !StringLess(b.id, a.id))
  }

  lemma ChosenFirst(candidates: seq<Auth>, ledger: int, e: Expected, margin: int)
    ensures var choice := Select(candidates, ledger, e, margin);
            && (choice.Some? <==> exists c <- candidates :: Usable(ledger, e, margin)(c))
            && (choice.Some? ==>
                  && choice.value in candidates && Usable(ledger, e, margin)(choice.value)
                  && forall c <- candidates | Usable(ledger, e, margin)(c) :: SoonestFirst()(choice.value, c))
  {
    var usable := Filter(candidates, Usable(ledger, e, margin));
    var sorted := Sort(usable, SoonestFirst());
    SoonestFirstIsTotal();
    SortSorts(usable, SoonestFirst());
    SortMembers(usable, SoonestFirst());
    if sorted != [] {
      assert sorted[0] in usable;
      forall c | c in candidates && Usable(ledger, e, margin)(c)
        ensures SoonestFirst()(sorted[0], c)
      {
        assert c in sorted;
        var i :| 0 <= i < |sorted| && sorted[i] == c;
        if i == 0 { StringLessTrichotomy(c.id, c.id); }
      }
    }
  }

  /** The choice is fit and spent before every fit candidate; there is one whenever a candidate is fit. */
  lemma ChoiceIsSoonest(candidates: seq<Auth>, ledger: int, e: Expected, margin: int)
    ensures var choice := Select(candidates, ledger, e, margin);
            && (choice.Some? <==> exists c <- candidates :: Fit(c, ledger, e, margin))
            && (choice.Some? ==>
                  && choice.value in candidates && Fit(choice.value, ledger, e, margin)
                  && forall c <- candidates | Fit(c, ledger, e, margin) :: SpentBefore(choice.value, c))
  {
    hide Select, RejectionFor, Fit;
    ChosenFirst(candidates, ledger, e, margin);
    forall c | c in candidates ensures Usable(ledger, e, margin)(c) <==> Fit(c, ledger, e, margin) {
      RejectionMeans(c, ledger, e, margin);
    }
  }

  // ---- Spending them over a run of pauses ----

  function IdOf(): Auth -> string { (c: Auth) => c.id }

  /** `used_at` set on the claimed row. */
  function MarkUsed(candidates: seq<Auth>, id: string): seq<Auth> {
    seq(|candidates|, i requires 0 <= i < |candidates| =>
      if candidates[i].id == id then candidates[i].(usedAt := Some("now")) else candidates[i])
  }

  /** For each pause, the id spent on it if any, taking the code's choice and marking it used each time. */
  function SoonestPlan(candidates: seq<Auth>, ledgers: seq<int>, e: Expected, margin: int): seq<Option<string>>
    decreases ledgers
  {
    if ledgers == [] then []
    else
      var choice := Select(candidates, ledgers[0], e, margin);
      if choice.None? then [None] + SoonestPlan(candidates, ledgers[1..], e, margin)
      else [Some(choice.value.id)] + SoonestPlan(MarkUsed(candidates, choice.value.id), ledgers[1..], e, margin)
  }

  function Served(plan: seq<Option<string>>): nat {
    if plan == [] then 0 else (if plan[0].Some? then 1 else 0) + Served(plan[1..])
  }

  ghost predicate UsableId(candidates: seq<Auth>, id: string, ledger: int, e: Expected, margin: int) {
    exists c <- candidates :: c.id == id && Usable(ledger, e, margin)(c)
  }

  /** Distinct authorizations, each usable at the pause it is spent on. */
  ghost predicate ValidPlan(candidates: seq<Auth>, ledgers: seq<int>, e: Expected, margin: int,
                            plan: seq<Option<string>>) {
    && |plan| == |ledgers|
    && (forall i | 0 <= i < |plan| && plan[i].Some? :: UsableId(candidates, plan[i].value, ledgers[i], e, margin))
    && (forall i, j | 0 <= i < j < |plan| && plan[i].Some? :: plan[i] != plan[j])
  }

  lemma MarkUsedIds(candidates: seq<Auth>, id: string)
    requires UniqueBy(candidates, IdOf())
    ensures UniqueBy(MarkUsed(candidates, id), IdOf())
  {
    var marked := MarkUsed(candidates, id);
    forall i, j | 0 <= i < j < |marked| ensures IdOf()(marked[i]) != IdOf()(marked[j]) {
      assert IdOf()(candidates[i]) != IdOf()(candidates[j]);
    }
  }

  lemma MarkUsedKeepsOthers(candidates: seq<Auth>, used: string, id: string, ledger: int, e: Expected, margin: int)
    ensures UsableId(MarkUsed(candidates, used), id, ledger, e, margin) <==>
            id != used && UsableId(candidates, id, ledger, e, margin)
  {
    var marked := MarkUsed(candidates, used);
    if UsableId(marked, id, ledger, e, margin) {
      var i :| 0 <= i < |marked| && marked[i].id == id && Usable(ledger, e, margin)(marked[i]);
      assert marked[i].usedAt.None?;
      assert candidates[i] in candidates;
    }
    if id != used && UsableId(candidates, id, ledger, e, margin) {
      var i :| 0 <= i < |candidates| && candidates[i].id == id && Usable(ledger, e, margin)(candidates[i]);
      assert marked[i] == candidates[i] && marked[i] in marked;
    }
  }

  /** `plan` with one id exchanged for what stood first. */
  function Exchange(plan: seq<Option<string>>, id: string, other: Option<string>): seq<Option<string>> {
    seq(|plan|, i requires 0 <= i < |plan| => if plan[i] == Some(id) then other else plan[i])
  }

  lemma {:induction false} ExchangeCount(plan: seq<Option<string>>, id: string, other: Option<string>)
    requires forall i, j | 0 <= i < j < |plan| && plan[i].Some? :: plan[i] != plan[j]
    ensures other.Some? ==> Served(Exchange(plan, id, other)) == Served(plan)
    ensures Served(plan) <= Served(Exchange(plan, id, other)) + 1
  {
    if plan != [] {
      assert Exchange(plan, id, other)[1..] == Exchange(plan[1..], id, other);
      ExchangeCount(plan[1..], id, other);
      if plan[0] == Some(id) {
        assert forall j | 0 <= j < |plan[1..]| :: plan[1..][j] != Some(id);
        assert Exchange(plan[1..], id, other) == plan[1..];
      }
    }
  }

  /** If the soonest is usable at a later pause, so is anything that was usable alongside it. */
  lemma LaterExpiryStillUsable(candidates: seq<Auth>, soonest: Auth, id: string, ledger: int, later: int, e: Expected,
                               margin: int)
    requires UniqueBy(candidates, IdOf()) && soonest in candidates
    requires Usable(ledger, e, margin)(soonest) && UsableId(candidates, id, ledger, e, margin)
    requires forall c <- candidates | Usable(ledger, e, margin)(c) :: SoonestFirst()(soonest, c)
    requires UsableId(candidates, soonest.id, later, e, margin)
    ensures UsableId(candidates, id, later, e, margin)
  {
    var c :| c in candidates && c.id == id && Usable(ledger, e, margin)(c);
    var g :| g in candidates && g.id == soonest.id && Usable(later, e, margin)(g);
    UniqueMeansSame(candidates, IdOf(), g, soonest);
    assert soonest.expirationLedger <= c.expirationLedger;
    assert Usable(later, e, margin)(c);
  }

  /** Any plan can take the soonest first and lose nothing: the exchange. */
  lemma ExchangedPlanIsValid(candidates: seq<Auth>, ledgers: seq<int>, e: Expected, margin: int,
                             plan: seq<Option<string>>, soonest: Auth)
    requires UniqueBy(candidates, IdOf()) && ledgers != []
    requires ValidPlan(candidates, ledgers, e, margin, plan)
    requires Select(candidates, ledgers[0], e, margin) == Some(soonest)
    ensures ValidPlan(MarkUsed(candidates, soonest.id), ledgers[1..], e, margin,
            Exchange(plan[1..], soonest.id, plan[0]))
  {
    ChosenFirst(candidates, ledgers[0], e, margin);
    var marked, rest := MarkUsed(candidates, soonest.id), plan[1..];
    var plan' := Exchange(rest, soonest.id, plan[0]);
    assert forall i | 0 <= i < |rest| :: rest[i] == plan[i + 1];
    forall i | 0 <= i < |plan'| && plan'[i].Some?
      ensures UsableId(marked, plan'[i].value, ledgers[1..][i], e, margin)
    {
      assert plan[i + 1].Some? && UsableId(candidates, plan[i + 1].value, ledgers[i + 1], e, margin);
      if plan[i + 1] == Some(soonest.id) {
        assert plan[0] != plan[i + 1];
        LaterExpiryStillUsable(candidates, soonest, plan[0].value, ledgers[0], ledgers[i + 1], e, margin);
      }
      MarkUsedKeepsOthers(candidates, soonest.id, plan'[i].value, ledgers[i + 1], e, margin);
    }
    forall i, j | 0 <= i < j < |plan'| && plan'[i].Some?
      ensures plan'[i] != plan'[j]
    {
      var first, a, b := plan[0], plan[i + 1], plan[j + 1];
      assert a.Some? ==> a != b;
      assert first.Some? ==> first != a && first != b;
    }
  }

  /**
   * Spending the soonest-expiring authorization each time serves at least as many pauses as any
   * assignment of distinct usable authorizations, whatever the ledgers of the pauses.
   */
  lemma {:induction false} SoonestFirstIsOptimal(candidates: seq<Auth>, ledgers: seq<int>, e: Expected, margin: int,
                                                 plan: seq<Option<string>>)
    requires UniqueBy(candidates, IdOf())
    requires ValidPlan(candidates, ledgers, e, margin, plan)
    ensures Served(plan) <= Served(SoonestPlan(candidates, ledgers, e, margin))
    decreases ledgers
  {
    if ledgers != [] {
      var choice := Select(candidates, ledgers[0], e, margin);
      ChosenFirst(candidates, ledgers[0], e, margin);
      if choice.None? {
        assert plan[0].None?;
        assert ValidPlan(candidates, ledgers[1..], e, margin, plan[1..]);
        SoonestFirstIsOptimal(candidates, ledgers[1..], e, margin, plan[1..]);
      } else {
        var g := choice.value;
        var plan' := Exchange(plan[1..], g.id, plan[0]);
        ExchangedPlanIsValid(candidates, ledgers, e, margin, plan, g);
        MarkUsedIds(candidates, g.id);
        ExchangeCount(plan[1..], g.id, plan[0]);
        SoonestFirstIsOptimal(MarkUsed(candidates, g.id), ledgers[1..], e, margin, plan');
      }
    }
  }

  lemma PrependValid(candidates: seq<Auth>, left: seq<Auth>, ledgers: seq<int>, e: Expected, margin: int,
                     head: Option<string>, rest: seq<Option<string>>)
    requires ledgers != [] && ValidPlan(left, ledgers[1..], e, margin, rest)
    requires head.None? ==> left == candidates
    requires head.Some? ==>
             left == MarkUsed(candidates, head.value) && UsableId(candidates, head.value, ledgers[0], e, margin)
    ensures ValidPlan(candidates, ledgers, e, margin, [head] + rest)
  {
    hide UsableId, MarkUsed, Usable;
    var plan := [head] + rest;
    forall i | 0 <= i < |rest| && rest[i].Some?
      ensures UsableId(candidates, rest[i].value, ledgers[i + 1], e, margin) && rest[i] != head
    {
      assert UsableId(left, rest[i].value, ledgers[1..][i], e, margin);
      if head.Some? {
        MarkUsedKeepsOthers(candidates, head.value, rest[i].value, ledgers[i + 1], e, margin);
      }
    }
    forall i | 0 <= i < |plan| && plan[i].Some?
      ensures UsableId(candidates, plan[i].value, ledgers[i], e, margin)
    {
      assert i > 0 ==> plan[i] == rest[i - 1];
    }
    forall i, j | 0 <= i < j < |plan| && plan[i].Some?
      ensures plan[i] != plan[j]
    {
      assert plan[j] == rest[j - 1];
      assert i > 0 ==> plan[i] == rest[i - 1];
    }
  }

  /** The code's own spending is such an assignment, so it is a best one. */
  lemma {:induction false} SoonestPlanIsValid(candidates: seq<Auth>, ledgers: seq<int>, e: Expected, margin: int)
    requires UniqueBy(candidates, IdOf())
    ensures ValidPlan(candidates, ledgers, e, margin, SoonestPlan(candidates, ledgers, e, margin))
    decreases ledgers
  {
    if ledgers != [] {
      hide ValidPlan, MarkUsed, Select, UniqueBy;
      var choice := Select(candidates, ledgers[0], e, margin);
      ChosenFirst(candidates, ledgers[0], e, margin);
      if choice.None? {
        SoonestPlanIsValid(candidates, ledgers[1..], e, margin);
        PrependValid(candidates, candidates, ledgers, e, margin, None,
                     SoonestPlan(candidates, ledgers[1..], e, margin));
      } else {
        var id := choice.value.id;
        var left := MarkUsed(candidates, id);
        MarkUsedIds(candidates, id);
        SoonestPlanIsValid(left, ledgers[1..], e, margin);
        PrependValid(candidates, left, ledgers, e, margin, Some(id), SoonestPlan(left, ledgers[1..], e, margin));
      }
    } else {
      assert SoonestPlan(candidates, ledgers, e, margin) == [];
    }
  }
}
