/**
 * The staffing arithmetic: how many employees cover a workload, and what
 * they cost. Both operations are pure; the floating-point numbers of the
 * original are modelled by exact reals.
 */
module Calculator {

  /** The one error the calculator can raise: dividing by a zero workload per employee. */
  datatype Error = ZeroDivision

  datatype Result<T> = Ok(value: T) | Err(error: Error)

  /** Rounds `x` up to the next whole number, built from `Floor`. */
  function Ceil(x: real): (c: int)
    ensures c as real >= x
    ensures (c - 1) as real < x
  {
    -((-x).Floor)
  }

  /** The least integer not below `x` is unique: any `n` with the ceiling's two bounds is `Ceil(x)`. */
  lemma CeilUnique(x: real, n: int)
    requires n as real >= x && (n - 1) as real < x
    ensures n == Ceil(x)
  {
  }

  /**
   * Minimum number of staff: the ceiling of the required hours divided by
   * the hours each employee works. A zero divisor is an error.
   */
  function CalculateStaff(requiredHours: real, hoursPerEmployee: real): (r: Result<int>)
    ensures r.Err? <==> hoursPerEmployee == 0.0
    ensures r.Ok? ==> r.value as real >= requiredHours / hoursPerEmployee
    ensures r.Ok? ==> (r.value - 1) as real < requiredHours / hoursPerEmployee
  {
    if hoursPerEmployee == 0.0 then Err(ZeroDivision)
    else Ok(Ceil(requiredHours / hoursPerEmployee))
  }

  /** Total staffing cost: every employee works the full hours at the hourly rate. */
  function CalculateCost(numStaff: int, hourlyRate: real, hoursPerEmployee: real): (cost: real)
  {
    numStaff as real * hourlyRate * hoursPerEmployee
  }

  // ---------------------------------------------------------------------------
  // Ceiling division: the staff count covers the workload and is the least that does

  /** Multiplying both sides of `a >= b / h` by a positive `h`. */
  lemma ScaleByPositive(a: real, b: real, h: real)
    requires h > 0.0
    ensures a >= b / h <==> a * h >= b
  {
    assert (b / h) * h == b;
    if a >= b / h {
      assert a * h - b == (a - b / h) * h;
    } else {
      assert b - a * h == (b / h - a) * h;
    }
  }

  /** The staff-hours assigned always cover the required hours. */
  lemma StaffCoversHours(requiredHours: real, hoursPerEmployee: real)
    requires hoursPerEmployee > 0.0
    ensures CalculateStaff(requiredHours, hoursPerEmployee).Ok?
    ensures CalculateStaff(requiredHours, hoursPerEmployee).value as real * hoursPerEmployee >= requiredHours
  {
  }

  /** One employee fewer would not cover the required hours. */
  lemma StaffIsMinimal(requiredHours: real, hoursPerEmployee: real)
    requires hoursPerEmployee > 0.0
    ensures CalculateStaff(requiredHours, hoursPerEmployee).Ok?
    ensures (CalculateStaff(requiredHours, hoursPerEmployee).value - 1) as real * hoursPerEmployee < requiredHours
  {
  }

  /**
   * Exact characterisation: a head count `n` covers the required hours
   * exactly when it is at least the calculated staff count.
   */
  lemma StaffCharacterisation(requiredHours: real, hoursPerEmployee: real, n: int)
    requires hoursPerEmployee > 0.0
    ensures CalculateStaff(requiredHours, hoursPerEmployee).Ok?
    ensures n as real * hoursPerEmployee >= requiredHours <==> n >= CalculateStaff(requiredHours, hoursPerEmployee).value
  {
    var c := CalculateStaff(requiredHours, hoursPerEmployee).value;
    ScaleByPositive(n as real, requiredHours, hoursPerEmployee);
    ScaleByPositive(c as real, requiredHours, hoursPerEmployee);
    ScaleByPositive((c - 1) as real, requiredHours, hoursPerEmployee);
    if n >= c {
      assert n as real * hoursPerEmployee >= c as real * hoursPerEmployee;
    } else {
      assert n as real * hoursPerEmployee <= (c - 1) as real * hoursPerEmployee;
    }
  }

  /** Exact multiples are not rounded up. */
  lemma StaffOfExactMultiple(k: int, hoursPerEmployee: real)
    requires hoursPerEmployee > 0.0
    ensures CalculateStaff(k as real * hoursPerEmployee, hoursPerEmployee) == Ok(k)
  {
    var q := (k as real * hoursPerEmployee) / hoursPerEmployee;
    assert q == k as real;
    CeilUnique(q, k);
  }

  /** For a non-negative workload the staff count is non-negative, and zero exactly when there is no work. */
  lemma StaffNonNegative(requiredHours: real, hoursPerEmployee: real)
    requires requiredHours >= 0.0 && hoursPerEmployee > 0.0
    ensures CalculateStaff(requiredHours, hoursPerEmployee).Ok?
    ensures CalculateStaff(requiredHours, hoursPerEmployee).value >= 0
    ensures CalculateStaff(requiredHours, hoursPerEmployee).value == 0 <==> requiredHours == 0.0
  {
  }

  /**
   * A negative number of hours per employee is not rejected: for a
   * non-negative workload it gives a staff count of zero or less, with no error.
   */
  lemma StaffNonPositiveForNegativeShift(requiredHours: real, hoursPerEmployee: real)
    requires requiredHours >= 0.0 && hoursPerEmployee < 0.0
    ensures CalculateStaff(requiredHours, hoursPerEmployee).Ok?
    ensures CalculateStaff(requiredHours, hoursPerEmployee).value <= 0
  {
  }

  /** More required hours never need fewer staff. */
  lemma StaffMonotoneInHours(r1: real, r2: real, hoursPerEmployee: real)
    requires r1 <= r2 && hoursPerEmployee > 0.0
    ensures CalculateStaff(r1, hoursPerEmployee).Ok? && CalculateStaff(r2, hoursPerEmployee).Ok?
    ensures CalculateStaff(r1, hoursPerEmployee).value <= CalculateStaff(r2, hoursPerEmployee).value
  {
    StaffCoversHours(r2, hoursPerEmployee);
    StaffCharacterisation(r1, hoursPerEmployee, CalculateStaff(r2, hoursPerEmployee).value);
  }

  /** Longer shifts never need more staff for the same non-negative workload. */
  lemma StaffAntitoneInShift(requiredHours: real, h1: real, h2: real)
    requires requiredHours >= 0.0 && 0.0 < h1 <= h2
    ensures CalculateStaff(requiredHours, h1).Ok? && CalculateStaff(requiredHours, h2).Ok?
    ensures CalculateStaff(requiredHours, h2).value <= CalculateStaff(requiredHours, h1).value
  {
  }

  // ---------------------------------------------------------------------------
  // Cost: an independent reference definition and algebraic facts

  /** Reference payroll: the wages of `n` employees, added up one employee at a time. */
  function Payroll(n: nat, wage: real): (total: real)
    ensures wage >= 0.0 ==> total >= 0.0
  {
    if n == 0 then 0.0 else Payroll(n - 1, wage) + wage
  }

  /** For a non-negative head count the cost is the payroll of that many employees each paid `rate * hours`. */
  lemma {:induction false} CostIsPayroll(numStaff: nat, hourlyRate: real, hoursPerEmployee: real)
    ensures CalculateCost(numStaff, hourlyRate, hoursPerEmployee) == Payroll(numStaff, hourlyRate * hoursPerEmployee)
  {
    if numStaff > 0 {
      CostIsPayroll(numStaff - 1, hourlyRate, hoursPerEmployee);
      var w := hourlyRate * hoursPerEmployee;
      calc {
        CalculateCost(numStaff, hourlyRate, hoursPerEmployee);
        numStaff as real * w;
        (numStaff - 1) as real * w + w;
        CalculateCost(numStaff - 1, hourlyRate, hoursPerEmployee) + w;
        Payroll(numStaff - 1, w) + w;
      }
    }
  }

  /** The cost does not depend on the order of the rate and the hours. */
  lemma CostRateHoursCommute(numStaff: int, a: real, b: real)
    ensures CalculateCost(numStaff, a, b) == CalculateCost(numStaff, b, a)
  {
  }

  /** The cost is the staff-hours priced at the hourly rate. */
  lemma CostIsPricedStaffHours(numStaff: int, hourlyRate: real, hoursPerEmployee: real)
    ensures CalculateCost(numStaff, hourlyRate, hoursPerEmployee) == (numStaff as real * hoursPerEmployee) * hourlyRate
  {
  }

  /** With non-negative inputs the cost is non-negative. */
  lemma CostNonNegative(numStaff: int, hourlyRate: real, hoursPerEmployee: real)
    requires numStaff >= 0 && hourlyRate >= 0.0 && hoursPerEmployee >= 0.0
    ensures CalculateCost(numStaff, hourlyRate, hoursPerEmployee) >= 0.0
  {
  }

  /** More staff never cost less, for a non-negative rate and shift. */
  lemma CostMonotoneInStaff(n1: int, n2: int, hourlyRate: real, hoursPerEmployee: real)
    requires n1 <= n2 && hourlyRate >= 0.0 && hoursPerEmployee >= 0.0
    ensures CalculateCost(n1, hourlyRate, hoursPerEmployee) <= CalculateCost(n2, hourlyRate, hoursPerEmployee)
  {
  }

  /** A higher rate never costs less, for a non-negative head count and shift. */
  lemma CostMonotoneInRate(numStaff: int, rate1: real, rate2: real, hoursPerEmployee: real)
    requires rate1 <= rate2 && numStaff >= 0 && hoursPerEmployee >= 0.0
    ensures CalculateCost(numStaff, rate1, hoursPerEmployee) <= CalculateCost(numStaff, rate2, hoursPerEmployee)
  {
  }

  /** Longer shifts never cost less, for a non-negative head count and rate. */
  lemma CostMonotoneInShift(numStaff: int, hourlyRate: real, h1: real, h2: real)
    requires h1 <= h2 && numStaff >= 0 && hourlyRate >= 0.0
    ensures CalculateCost(numStaff, hourlyRate, h1) <= CalculateCost(numStaff, hourlyRate, h2)
  {
  }

  // ---------------------------------------------------------------------------
  // The worked example of the module's entry point

  /** 100 required hours at 40 hours per employee and a rate of 25: 3 staff costing 3000. */
  lemma WorkedExample()
    ensures CalculateStaff(100.0, 40.0) == Ok(3)
    ensures CalculateCost(3, 25.0, 40.0) == 3000.0
  {
  }
}
