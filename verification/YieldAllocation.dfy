/** How much idle capital may go into the vault, and what the liquidity buffer is worth over a run. */
module YieldAllocation {
  import opened Arithmetic

  /** A JavaScript number, so far as the clamp looks at it. */
  datatype Number = NonFinite | Finite(value: real)

  const BPS_DENOMINATOR := 10_000
  const DEFAULT_BUFFER_BPS := 2000

  function LiquidBalance(totalBalance: int, allocatedBasis: int): (liquid: nat) {
    if totalBalance - allocatedBasis > 0 then totalBalance - allocatedBasis else 0
  }

  /** `Math.trunc` */
  function Truncated(x: real): int {
    if x >= 0.0 then x.Floor else -((-x).Floor)
  }

  function ClampBufferBps(bps: Number): (r: nat)
    ensures r <= 10_000
  {
    if bps.NonFinite? then DEFAULT_BUFFER_BPS
    else if Truncated(bps.value) < 0 then 0
    else if Truncated(bps.value) > BPS_DENOMINATOR then BPS_DENOMINATOR
    else Truncated(bps.value)
  }

  function Bps(n: int): Number { Finite(n as real) }

  /** No number is the default of a fifth; a number is cut to its whole part, and that to nothing or to all. */
  lemma ClampMeans(x: real)
    ensures ClampBufferBps(NonFinite) == 2000
    ensures var r := ClampBufferBps(Finite(x));
            if x < 1.0 then r == 0
            else if x >= 10_000.0 then r == 10_000
            else r as real <= x < r as real + 1.0
  {
  }

  /** A whole number of basis points in range is kept, and a larger setting never means a smaller buffer. */
  lemma ClampKeepsOrder(n: int, x: real, y: real)
    ensures 0 <= n <= 10_000 <==> ClampBufferBps(Bps(n)) == n
    ensures x <= y ==> ClampBufferBps(Finite(x)) <= ClampBufferBps(Finite(y))
  {
    assert (n as real).Floor == n && (-(n as real)).Floor == -n;
  }

  /** `totalBalance * bps / 10000`, for a balance that is not negative. */
  function Buffered(totalBalance: nat, bps: Number): (b: nat)
    ensures b <= totalBalance
  {
    NonNegativeTimes(totalBalance, ClampBufferBps(bps));
    NonNegativeTimes(totalBalance, BPS_DENOMINATOR - ClampBufferBps(bps));
    Distribute(ClampBufferBps(bps), BPS_DENOMINATOR - ClampBufferBps(bps), totalBalance);
    totalBalance * ClampBufferBps(bps) / BPS_DENOMINATOR
  }

  function ComputeMaxAllocatable(totalBalance: int, allocatedBasis: int, bufferBps: Number): (max: nat) {
    if totalBalance <= 0 then 0
    else
      var headroom := LiquidBalance(totalBalance, allocatedBasis) - Buffered(totalBalance, bufferBps);
      if headroom > 0 then headroom else 0
  }

  /**
   * The maximum is the largest amount that can be taken: some amount is within it exactly when the total is
   * positive and what stays liquid is no less than the buffer's whole units.
   */
  lemma MaxIsLargest(totalBalance: int, allocatedBasis: int, bufferBps: Number, amount: nat)
    requires amount > 0
    ensures var left := totalBalance - allocatedBasis - amount;
            amount <= ComputeMaxAllocatable(totalBalance, allocatedBasis, bufferBps) <==>
            totalBalance > 0 && totalBalance * ClampBufferBps(bufferBps) < 10_000 * (left + 1)
  {
    if totalBalance > 0 {
      BufferedIs(totalBalance, bufferBps);
    }
    hide Buffered, ClampBufferBps;
  }

  lemma BufferedIs(totalBalance: nat, bufferBps: Number)
    ensures var share, b := totalBalance * ClampBufferBps(bufferBps), Buffered(totalBalance, bufferBps);
            10_000 * b <= share < 10_000 * (b + 1)
  {
    hide ClampBufferBps;
  }

  // ---- Runs of allocations ----

  function Sum(amounts: seq<nat>): nat {
    if amounts == [] then 0 else Sum(amounts[..|amounts| - 1]) + amounts[|amounts| - 1]
  }

  /** Every amount is within the maximum of its moment. */
  predicate Allowed(totalBalance: int, allocatedBasis: int, bufferBps: Number, amounts: seq<nat>) {
    amounts != [] ==>
      var init := amounts[..|amounts| - 1];
      && Allowed(totalBalance, allocatedBasis, bufferBps, init)
      && amounts[|amounts| - 1] <= ComputeMaxAllocatable(totalBalance, allocatedBasis + Sum(init), bufferBps)
  }

  /** Allocating within the maximum lowers it by just as much. */
  lemma MaxAfter(totalBalance: int, allocatedBasis: int, bufferBps: Number, amount: nat)
    requires amount <= ComputeMaxAllocatable(totalBalance, allocatedBasis, bufferBps)
    ensures ComputeMaxAllocatable(totalBalance, allocatedBasis + amount, bufferBps) ==
            ComputeMaxAllocatable(totalBalance, allocatedBasis, bufferBps) - amount
  {
    hide Buffered;
  }

  /**
   * However a run is cut into allocations, it adds up to at most the starting maximum, leaves exactly the
   * rest of it, and never takes the liquid capital below the buffer or below where it started.
   */
  lemma {:induction false} RunKeepsBuffer(totalBalance: int, allocatedBasis: int, bufferBps: Number, amounts: seq<nat>)
    requires Allowed(totalBalance, allocatedBasis, bufferBps, amounts)
    ensures ComputeMaxAllocatable(totalBalance, allocatedBasis + Sum(amounts), bufferBps) ==
            ComputeMaxAllocatable(totalBalance, allocatedBasis, bufferBps) - Sum(amounts)
    ensures var start, end := LiquidBalance(totalBalance, allocatedBasis),
            LiquidBalance(totalBalance, allocatedBasis + Sum(amounts));
            end >= start || (totalBalance > 0 && end >= Buffered(totalBalance, bufferBps))
  {
    hide Buffered;
    if amounts != [] {
      var init, last := amounts[..|amounts| - 1], amounts[|amounts| - 1];
      RunKeepsBuffer(totalBalance, allocatedBasis, bufferBps, init);
      MaxAfter(totalBalance, allocatedBasis + Sum(init), bufferBps, last);
      assert allocatedBasis + Sum(init) + last == allocatedBasis + Sum(amounts);
    }
  }

  /**
   * The quotient rounds the buffer down, so taking the whole maximum leaves less than the configured
   * share, by under one unit, unless the share is a whole number of units.
   */
  lemma BufferRoundsDown(totalBalance: int, allocatedBasis: int, bufferBps: Number)
    requires ComputeMaxAllocatable(totalBalance, allocatedBasis, bufferBps) > 0
    ensures var max := ComputeMaxAllocatable(totalBalance, allocatedBasis, bufferBps);
            var left := LiquidBalance(totalBalance, allocatedBasis + max);
            var share := totalBalance * ClampBufferBps(bufferBps);
            && share - BPS_DENOMINATOR < left * BPS_DENOMINATOR <= share
            && (left * BPS_DENOMINATOR == share <==> share % BPS_DENOMINATOR == 0)
  {
    hide ClampBufferBps;
  }

  // ---- A growing balance ----

  lemma BufferedGrows(totalBalance: nat, d: nat, bufferBps: Number)
    ensures Buffered(totalBalance, bufferBps) <= Buffered(totalBalance + d, bufferBps)
            <= Buffered(totalBalance, bufferBps) + d
  {
    var bps := ClampBufferBps(bufferBps);
    var before, after := totalBalance * bps, (totalBalance + d) * bps;
    Distribute(totalBalance, d, bps);
    NonNegativeTimes(d, bps);
    NonNegativeTimes(d, BPS_DENOMINATOR - bps);
    Distribute(bps, BPS_DENOMINATOR - bps, d);
    assert before <= after <= before + BPS_DENOMINATOR * d;
    QuotientGrows(before, after, d);
  }

  lemma QuotientGrows(before: nat, after: nat, d: nat)
    requires before <= after <= before + BPS_DENOMINATOR * d
    ensures before / BPS_DENOMINATOR <= after / BPS_DENOMINATOR <= before / BPS_DENOMINATOR + d
  {
  }

  /** A larger balance never lowers the maximum. */
  lemma MaxGrows(totalBalance: int, d: nat, allocatedBasis: int, bufferBps: Number)
    ensures ComputeMaxAllocatable(totalBalance, allocatedBasis, bufferBps)
            <= ComputeMaxAllocatable(totalBalance + d, allocatedBasis, bufferBps)
    ensures totalBalance > 0 || allocatedBasis >= totalBalance ==>
              ComputeMaxAllocatable(totalBalance + d, allocatedBasis, bufferBps)
              <= ComputeMaxAllocatable(totalBalance, allocatedBasis, bufferBps) + d
  {
    if totalBalance > 0 {
      BufferedGrows(totalBalance, d, bufferBps);
    }
    hide Buffered;
  }

  /** Raising the balance by `d` raises the maximum by no more than `d`. */
  predicate RaisesByAtMost(totalBalance: int, allocatedBasis: int, d: nat, bufferBps: Number) {
    ComputeMaxAllocatable(totalBalance + d, allocatedBasis, bufferBps)
      <= ComputeMaxAllocatable(totalBalance, allocatedBasis, bufferBps) + d
  }

  /**
   * Exactly when one raise does: the balance was positive, or stays without effect below zero, or the capital
   * that turns liquid fits the new buffer.
   */
  lemma RaiseIsBounded(totalBalance: int, allocatedBasis: int, d: nat, bufferBps: Number)
    ensures RaisesByAtMost(totalBalance, allocatedBasis, d, bufferBps) <==>
            totalBalance > 0 || totalBalance + d <= 0
              || totalBalance - allocatedBasis <= Buffered(totalBalance + d, bufferBps)
  {
    if totalBalance > 0 {
      BufferedGrows(totalBalance, d, bufferBps);
    }
    hide Buffered;
  }

  /**
   * All raises at all settings do exactly from balances that are positive or fully allocated: below that the
   * guard for an empty pool hides liquid capital until the balance turns positive.
   */
  lemma MaxGrowsByAtMost(totalBalance: int, allocatedBasis: int)
    ensures (forall d: nat, bufferBps: Number :: RaisesByAtMost(totalBalance, allocatedBasis, d, bufferBps))
            <==> totalBalance > 0 || allocatedBasis >= totalBalance
  {
    if totalBalance > 0 || allocatedBasis >= totalBalance {
      forall d: nat, bufferBps: Number ensures RaisesByAtMost(totalBalance, allocatedBasis, d, bufferBps) {
        RaiseIsBounded(totalBalance, allocatedBasis, d, bufferBps);
      }
    } else {
      var d: nat := 1 - totalBalance;
      RaiseIsBounded(totalBalance, allocatedBasis, d, Bps(0));
      ClampKeepsOrder(0, 0.0, 0.0);
      assert Buffered(1, Bps(0)) == 0;
      assert !RaisesByAtMost(totalBalance, allocatedBasis, d, Bps(0));
    }
  }
}
