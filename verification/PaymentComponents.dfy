/** How payments recover the principal, margin and interest of one instalment. */
module PaymentComponents {
  import opened Results
  import opened Rounding
  import opened Sequences
  import opened ProfitAllocation

  datatype Recovery = Recovery(allocation: Components, paidAfter: Components)

  datatype PaymentError = ExceedsBudget

  function Less(c: Components, d: Components): Components {
    Components(c.principal - d.principal, c.margin - d.margin, c.interest - d.interest)
  }

  /** One payment: aim at the component mix of the new cumulative amount; margin is the balancing part. */
  function PayComponents(totals: Components, paid: Components, payment: int): Result<Recovery, PaymentError> {
    var whole, after := totals.Total(), paid.Total() + payment;
    if whole <= 0 || payment <= 0 || paid.Total() < 0 || after > whole then Err(ExceedsBudget)
    else
      var principal := if after == whole then totals.principal else Portion(totals.principal, after, whole);
      var interest := if after == whole then totals.interest else Portion(totals.interest, after, whole);
      var paidAfter := Components(principal, after - principal - interest, interest);
      Ok(Recovery(Less(paidAfter, paid), paidAfter))
  }

  /** The mix that belongs to a cumulative amount, whatever payments it came from. */
  function PaidAt(totals: Components, amount: int): (c: Components)
    requires totals.Total() > 0
    ensures c.Total() == amount
  {
    var principal := Portion(totals.principal, amount, totals.Total());
    var interest := Portion(totals.interest, amount, totals.Total());
    Components(principal, amount - principal - interest, interest)
  }

  lemma PaidAtEnds(totals: Components, amount: int)
    requires totals.Total() > 0
    ensures amount == 0 ==> PaidAt(totals, amount) == NOTHING
    ensures amount == totals.Total() ==> PaidAt(totals, amount) == totals
  {
    PortionEnds(totals.principal, amount, totals.Total());
    PortionEnds(totals.interest, amount, totals.Total());
  }

  /** A payment is taken exactly when it is positive and fits, and then only the cumulative amount matters. */
  lemma PaymentLandsOnTarget(totals: Components, paid: Components, payment: int)
    requires totals.Total() > 0 && paid.Total() >= 0
    ensures PayComponents(totals, paid, payment).Ok? <==> 0 < payment <= totals.Total() - paid.Total()
    ensures PayComponents(totals, paid, payment).Ok? ==>
      PayComponents(totals, paid, payment).value.paidAfter == PaidAt(totals, paid.Total() + payment)
    ensures PayComponents(totals, paid, payment).Ok? ==>
      var recovery := PayComponents(totals, paid, payment).value;
      && recovery.allocation.Total() == payment
      && paid.principal + recovery.allocation.principal == recovery.paidAfter.principal
      && paid.margin + recovery.allocation.margin == recovery.paidAfter.margin
      && paid.interest + recovery.allocation.interest == recovery.paidAfter.interest
  {
    PaidAtEnds(totals, paid.Total() + payment);
  }

  function PayAll(totals: Components, paid: Components, payments: seq<int>): Result<Components, PaymentError>
    decreases |payments|
  {
    if payments == [] then Ok(paid)
    else
      match PayComponents(totals, paid, payments[0])
      case Err(e) => Err(e)
      case Ok(recovery) => PayAll(totals, recovery.paidAfter, payments[1..])
  }

  /**
   * Path independence: from a recovered mix, a run of payments is taken exactly when every one is
   * positive and their sum fits, and it ends where the single payment of that sum would end.
   */
  lemma {:induction false} PaymentsArePathIndependent(totals: Components, start: int, payments: seq<int>)
    requires totals.Total() > 0 && 0 <= start <= totals.Total()
    ensures PayAll(totals, PaidAt(totals, start), payments).Ok?
      <==> (forall i :: 0 <= i < |payments| ==> payments[i] > 0) && start + Sum(payments) <= totals.Total()
    ensures PayAll(totals, PaidAt(totals, start), payments).Ok? ==>
      PayAll(totals, PaidAt(totals, start), payments) == Ok(PaidAt(totals, start + Sum(payments)))
    decreases |payments|
  {
    if payments != [] {
      PaymentLandsOnTarget(totals, PaidAt(totals, start), payments[0]);
      SumCons(payments);
      if 0 < payments[0] <= totals.Total() - start {
        PaymentsArePathIndependent(totals, start + payments[0], payments[1..]);
        assert forall i :: 0 <= i < |payments| - 1 ==> payments[1..][i] == payments[i + 1];
      } else if forall i :: 0 <= i < |payments| ==> payments[i] > 0 {
        assert forall i :: 0 <= i < |payments| - 1 ==> payments[1..][i] == payments[i + 1];
        SumNonNegative(payments[1..]);
      }
    }
  }

  lemma PaidAtIsProrated(totals: Components, amount: int)
    requires totals.Total() > 0
    ensures var whole, paid := totals.Total(), PaidAt(totals, amount);
      && -whole < 2 * (whole * paid.principal - totals.principal * amount) <= whole
      && -whole < 2 * (whole * paid.interest - totals.interest * amount) <= whole
  {
    PortionBounds(totals.principal, amount, totals.Total());
    PortionBounds(totals.interest, amount, totals.Total());
  }

  /**
   * Whatever payments an amount came from, the principal and the interest recovered are their exact
   * shares of it, rounded to the nearest unit with ties upwards, and the margin makes up the rest.
   */
  lemma RecoveryIsProrated(totals: Components, payments: seq<int>, amount: int, paid: Components)
    requires totals.Total() > 0 && amount == Sum(payments) && PayAll(totals, NOTHING, payments) == Ok(paid)
    ensures var whole := totals.Total();
      && -whole < 2 * (whole * paid.principal - totals.principal * amount) <= whole
      && -whole < 2 * (whole * paid.interest - totals.interest * amount) <= whole
      && paid.principal + paid.margin + paid.interest == amount
  {
    PaidAtEnds(totals, 0);
    PaymentsArePathIndependent(totals, 0, payments);
    PaidAtIsProrated(totals, amount);
  }

  /**
   * Principal and interest only ever rise with the cumulative amount, stay within their budgets,
   * and what is left of principal and margin together is never negative: a waiver of the interest
   * always has a non-negative amount of cash to ask for.
   */
  lemma RecoveryStaysWithinBudget(totals: Components, amount: int, later: int)
    requires totals.Total() > 0 && Recoverable(totals)
    requires 0 <= amount <= later <= totals.Total()
    ensures 0 <= PaidAt(totals, amount).principal <= PaidAt(totals, later).principal <= totals.principal
    ensures 0 <= PaidAt(totals, amount).interest <= PaidAt(totals, later).interest <= totals.interest
    ensures var left := Less(totals, PaidAt(totals, amount)); left.principal + left.margin >= 0
  {
    var whole := totals.Total();
    PortionEnds(totals.principal, 0, whole);
    PortionEnds(totals.principal, whole, whole);
    PortionEnds(totals.interest, 0, whole);
    PortionEnds(totals.interest, whole, whole);
    PortionSlope(totals.principal, 0, amount, whole);
    PortionSlope(totals.principal, amount, later, whole);
    PortionSlope(totals.principal, later, whole, whole);
    PortionSlope(totals.interest, 0, amount, whole);
    PortionSlope(totals.interest, amount, later, whole);
    PortionSlope(totals.interest, later, whole, whole);
    PortionSlope(totals.interest, amount, whole, whole);
  }

  /** amount * part / whole is a whole number and a half. */
  predicate IsTie(amount: int, part: int, whole: int)
    requires whole > 0
  {
    (2 * (amount * part) - whole) % (2 * whole) == 0
  }

  /** A tie is rounded up by exactly half a unit, and nothing else is. */
  lemma TieRoundsUpByHalf(amount: int, part: int, whole: int)
    requires whole > 0
    ensures IsTie(amount, part, whole) <==> 2 * (whole * Portion(amount, part, whole) - amount * part) == whole
  {
    var exact := amount * part;
    var k := (2 * exact - whole) / (2 * whole);
    if IsTie(amount, part, whole) {
      assert 2 * exact - whole == 2 * (whole * k);
      assert whole * (k + 1) == whole * k + whole;
      RoundUnique(exact, whole, k + 1);
    }
    var r := Portion(amount, part, whole);
    if 2 * (whole * r - exact) == whole {
      assert 2 * exact - whole == 2 * whole * (r - 1);
      MultipleOf(2 * whole, r - 1);
    }
  }

  lemma MultipleOf(m: int, k: int)
    requires m > 0
    ensures (m * k) % m == 0
  {
    var r := (m * k) % m;
    var q := (m * k) / m;
    assert r == m * (k - q);
    Scale(m, 1, k - q);
    Scale(m, k - q, -1);
  }

  predicate BothTie(totals: Components, amount: int)
    requires totals.Total() > 0
  {
    IsTie(totals.principal, amount, totals.Total()) && IsTie(totals.interest, amount, totals.Total())
  }

  /** Margin paid lies between nothing and the budgeted margin, whichever sign it has. */
  ghost predicate MarginInRange(paid: int, budget: int) {
    (if budget < 0 then budget else 0) <= paid <= (if budget > 0 then budget else 0)
  }

  /** How far the exact margin portion, scaled by the whole, lies above the margin paid. */
  function MarginError(totals: Components, amount: int): int
    requires totals.Total() > 0
  {
    totals.margin * amount - totals.Total() * PaidAt(totals, amount).margin
  }

  /** The two roundings together move margin by less than one unit down and at most one unit up. */
  lemma MarginErrorBounds(totals: Components, amount: int)
    requires totals.Total() > 0
    ensures -totals.Total() < MarginError(totals, amount) <= totals.Total()
    ensures MarginError(totals, amount) == totals.Total() <==> BothTie(totals, amount)
  {
    var whole := totals.Total();
    var paid := PaidAt(totals, amount);
    PortionBounds(totals.principal, amount, whole);
    PortionBounds(totals.interest, amount, whole);
    TieRoundsUpByHalf(totals.principal, amount, whole);
    TieRoundsUpByHalf(totals.interest, amount, whole);
    assert whole * paid.margin == whole * amount - whole * paid.principal - whole * paid.interest;
    assert whole * amount == totals.principal * amount + totals.margin * amount + totals.interest * amount;
  }

  /**
   * Margin paid stays in range at every cumulative amount, except that a row sold exactly at cost
   * shows a margin of minus one when both roundings are ties.
   */
  lemma MarginStaysInRange(totals: Components, amount: int)
    requires totals.Total() > 0
    requires 0 <= amount <= totals.Total()
    ensures totals.margin != 0 ==> MarginInRange(PaidAt(totals, amount).margin, totals.margin)
    ensures totals.margin == 0 ==>
      PaidAt(totals, amount).margin == (if BothTie(totals, amount) then -1 else 0)
  {
    PaidAtEnds(totals, amount);
    MarginErrorBounds(totals, amount);
    ErrorBoundsMargin(
      totals.Total(), totals.margin, amount, PaidAt(totals, amount).margin, MarginError(totals, amount));
  }

  lemma ErrorBoundsMargin(whole: int, budget: int, amount: int, m: int, error: int)
    requires 0 <= amount <= whole && whole > 0
    requires amount == 0 ==> m == 0
    requires amount == whole ==> m == budget
    requires error == budget * amount - whole * m
    requires -whole < error <= whole
    ensures budget != 0 ==> MarginInRange(m, budget)
    ensures budget == 0 ==> m == (if error == whole then -1 else 0)
  {
    if amount == 0 || amount == whole {
      assert error == 0;
    } else if budget > 0 {
      Scale(amount, 1, budget);
      Scale(budget, amount, whole);
      Between(whole, 0, m, budget);
    } else if budget < 0 {
      Scale(amount, budget, -1);
      Scale(-budget, amount + 1, whole);
      Between(whole, budget, m, 0);
    } else {
      Between(whole, -1, m, 0);
    }
  }

  lemma Between(whole: int, low: int, m: int, high: int)
    requires whole > 0
    requires whole * low - whole < whole * m < whole * high + whole
    ensures low <= m <= high
  {
    Unscale(whole, low - 1, m);
    Unscale(whole, m, high + 1);
  }
}
