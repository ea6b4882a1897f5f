/**
 * Late-payment interest (challenge 3): simple interest at a flat 2.5% per
 * day on an overdue amount. Dates are day numbers, so the days late are
 * the difference between today and the due date. Amounts are exact
 * decimals, modelled as `real`.
 */
module Interest {
  import opened Wrappers

  /** 2.5% of the original amount per day late. */
  const DailyRate: real := 0.025

  /** What the calculation reports: days late, interest and the amount now due. */
  datatype Charge = Charge(daysLate: nat, interest: real, finalAmount: real)

  /** Why the calculation was refused. */
  datatype InterestError = InvalidAmount

  /** The charge on `principal` falling due on day `dueDay`, evaluated on day `today`. */
  function LateCharge(principal: real, dueDay: int, today: int): (r: Result<Charge, InterestError>)
    ensures r.Failure? <==> principal <= 0.0
    ensures r.Success? ==> r.value.finalAmount == principal + r.value.interest
    ensures r.Success? ==> 0.0 <= r.value.interest
    ensures r.Success? ==> (r.value.daysLate == 0 <==> today <= dueDay)
    ensures r.Success? ==> (r.value.interest == 0.0 <==> today <= dueDay)
  {
    if principal <= 0.0 then Failure(InvalidAmount)
    else if today <= dueDay then Success(Charge(0, 0.0, principal))
    else
      var days := today - dueDay;
      var interest := principal * DailyRate * days as real;
      Success(Charge(days, interest, principal + interest))
  }

  /** On or before the due date nothing is added. */
  lemma NotOverdueNoInterest(principal: real, dueDay: int, today: int)
    requires 0.0 < principal && today <= dueDay
    ensures LateCharge(principal, dueDay, today) == Success(Charge(0, 0.0, principal))
  {
  }

  /** After the due date the interest is principal × 2.5% × days late. */
  lemma OverdueSimpleInterest(principal: real, dueDay: int, today: int)
    requires 0.0 < principal && dueDay < today
    ensures var c := LateCharge(principal, dueDay, today).value;
      && c.daysLate == today - dueDay
      && c.interest == principal * (today - dueDay) as real * 25.0 / 1000.0
      && c.finalAmount == principal * (1.0 + (today - dueDay) as real / 40.0)
  {
  }

  /**
   * Every further day late adds the same 2.5% of the original amount:
   * the interest is simple, never compounded.
   */
  lemma EachDayAddsFlatRate(principal: real, dueDay: int, today: int)
    requires 0.0 < principal && dueDay <= today
    ensures LateCharge(principal, dueDay, today + 1).value.finalAmount
         == LateCharge(principal, dueDay, today).value.finalAmount + principal * DailyRate
  {
  }

  /** Paying later never costs less. */
  lemma LaterNeverCheaper(principal: real, dueDay: int, today: int, later: int)
    requires 0.0 < principal && today <= later
    ensures LateCharge(principal, dueDay, today).value.finalAmount
         <= LateCharge(principal, dueDay, later).value.finalAmount
  {
  }

  /** 1000.00 due today costs 1000.00; ten days late it costs 1250.00, of which 250.00 interest. */
  lemma WorkedExamples(today: int)
    ensures LateCharge(1000.0, today, today) == Success(Charge(0, 0.0, 1000.0))
    ensures LateCharge(1000.0, today - 10, today) == Success(Charge(10, 250.0, 1250.0))
  {
  }
}
