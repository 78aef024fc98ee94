/**
 * The two request handlers compose the calculator in sequence: first the
 * staff count, then its cost. They pass the cost arguments in different
 * orders; the lemma below shows the answers agree.
 */
module CallSites {
  import opened Calculator

  /** What a handler reports back: the staff count and the total cost. */
  datatype StaffingResult = StaffingResult(staffNeeded: int, totalCost: real)

  /** The plain handler: cost called as (staff, rate, hours), as the signature declares. */
  function PlainHandler(requiredHours: real, hoursPerEmployee: real, hourlyRate: real): (r: Result<StaffingResult>)
    ensures r.Err? <==> hoursPerEmployee == 0.0
  {
    match CalculateStaff(requiredHours, hoursPerEmployee)
    case Err(e) => Err(e)
    case Ok(numStaff) =>
      Ok(StaffingResult(numStaff, CalculateCost(numStaff, hourlyRate, hoursPerEmployee)))
  }

  /** The hashed-password handler: cost called as (staff, hours, rate), the last two swapped. */
  function HashedHandler(requiredHours: real, hoursPerEmployee: real, hourlyRate: real): (r: Result<StaffingResult>)
    ensures r.Err? <==> hoursPerEmployee == 0.0
  {
    match CalculateStaff(requiredHours, hoursPerEmployee)
    case Err(e) => Err(e)
    case Ok(staffNeeded) =>
      Ok(StaffingResult(staffNeeded, CalculateCost(staffNeeded, hoursPerEmployee, hourlyRate)))
  }

  /** The swapped argument order is harmless: both handlers report the same result on every input. */
  lemma HandlersAgree(requiredHours: real, hoursPerEmployee: real, hourlyRate: real)
    ensures PlainHandler(requiredHours, hoursPerEmployee, hourlyRate) == HashedHandler(requiredHours, hoursPerEmployee, hourlyRate)
  {
  }

  /**
   * Non-negative hours, positive hours per employee and a non-negative rate
   * give a non-negative head count whose staff-hours cover the work, and a
   * non-negative cost.
   */
  lemma HandlerResultInDomain(requiredHours: real, hoursPerEmployee: real, hourlyRate: real)
    requires requiredHours >= 0.0 && hoursPerEmployee > 0.0 && hourlyRate >= 0.0
    ensures PlainHandler(requiredHours, hoursPerEmployee, hourlyRate).Ok?
    ensures PlainHandler(requiredHours, hoursPerEmployee, hourlyRate).value.staffNeeded >= 0
    ensures PlainHandler(requiredHours, hoursPerEmployee, hourlyRate).value.staffNeeded as real * hoursPerEmployee >= requiredHours
    ensures PlainHandler(requiredHours, hoursPerEmployee, hourlyRate).value.totalCost >= 0.0
  {
  }

  /** End to end: 100 hours, 40 hours per employee, rate 25 give 3 staff and a cost of 3000, by either handler. */
  lemma EndToEndExample()
    ensures PlainHandler(100.0, 40.0, 25.0) == Ok(StaffingResult(3, 3000.0))
    ensures HashedHandler(100.0, 40.0, 25.0) == Ok(StaffingResult(3, 3000.0))
  {
  }
}
