# Staffing calculator — Dafny model

The staffing calculator works out how many employees a workload needs and
what they cost. It takes the total required hours, the hours each employee
works and an hourly rate. Two pure functions do the work:

- `calculate_staff` rounds `required_hours / hours_per_employee` up to the
  next whole number (ceiling division). A zero divisor raises a division
  error.
- `calculate_cost` multiplies the staff count, the hourly rate and the hours
  per employee.

Two request handlers call them in sequence. The plain handler passes the cost
arguments as the signature declares them: staff, rate, hours. The handler
with hashed passwords passes staff, hours, rate, swapping the last two.

The model has two modules:

- `Calculator` (`calculator.dfy`) holds the two operations and their lemmas.
  `CalculateStaff` models `calculate_staff`. `CalculateCost` models
  `calculate_cost`. Its reference partner is `Payroll`, a sum of one wage per
  employee, and `CostIsPayroll` proves the two equal. The Python floats
  become exact `real`s. The ceiling is built from `Floor`. The division error
  is the `Err(ZeroDivision)` case of a `Result`. The operation does not take
  a precondition for it.
- `CallSites` (`call_sites.dfy`) holds the two handlers' compositions of the
  operations. It proves that, on exact reals, the swapped argument order
  gives the same answer.

What is proved:

- For positive hours per employee, the staff count covers the work:
  `n * h >= r`.
- For positive hours per employee, it is the least count that does:
  `(n - 1) * h < r`. Also, any count `m` covers the work exactly when
  `m >= n`.
- For positive hours per employee, exact multiples of the shift length are
  not rounded up.
- For non-negative work and positive hours per employee, the staff count is
  non-negative, and it is zero exactly when there is no work.
- Negative hours per employee are not rejected, as in the source. For
  non-negative work they give a staff count of zero or less, with no error.
- For positive hours per employee, the staff count is non-decreasing in the
  required hours.
- For non-negative work and positive hours per employee, the staff count is
  non-increasing in the shift length.
- The cost equals an independent payroll definition: the sum of one wage per
  employee.
- On exact reals, the cost is the same whichever order the rate and the hours
  are passed in.
- The cost is non-negative when all three arguments are non-negative.
- The cost is non-decreasing in each argument when the other two arguments
  are non-negative.
- The worked example gives 3 staff and a cost of 3000.

## Model

| member | source | states |
|---|---|---|
| `Calculator.Ceil` | calculator.py:18 | the result is an integer not below `x`, and one less would be below `x` (the meaning of `math.ceil`) |
| `Calculator.CeilUnique` | calculator.py:18 | any integer meeting the two ceiling bounds is the ceiling, so the rounding is determined |
| `Calculator.CalculateStaff` | calculator.py:9-18 | an error exactly when hours per employee is zero; otherwise the least integer not below required hours / hours per employee |
| `Calculator.StaffCoversHours` | calculator.py:9-18 | for positive hours per employee, staff count × hours per employee ≥ required hours |
| `Calculator.StaffIsMinimal` | calculator.py:11-18 | for positive hours per employee, one employee fewer does not cover the required hours |
| `Calculator.StaffCharacterisation` | calculator.py:11-18 | for positive hours per employee, a head count covers the required hours if and only if it is at least the calculated staff count |
| `Calculator.StaffOfExactMultiple` | calculator.py:18 | required hours of exactly k shifts give exactly k staff, with no rounding up |
| `Calculator.StaffNonNegative` | calculator.py:16-18 | for positive hours per employee, non-negative required hours give a non-negative staff count, which is zero if and only if the required hours are zero |
| `Calculator.StaffNonPositiveForNegativeShift` | calculator.py:18 | for non-negative required hours and negative hours per employee, the result is not an error and the staff count is zero or less |
| `Calculator.StaffMonotoneInHours` | calculator.py:16-18 | for positive hours per employee, more required hours never give fewer staff |
| `Calculator.StaffAntitoneInShift` | calculator.py:16-18 | for non-negative required hours and positive hours per employee, a longer shift never gives more staff |
| `Calculator.Payroll` | calculator.py:23-29 | the payroll of n employees at a non-negative wage is non-negative |
| `Calculator.CostIsPayroll` | calculator.py:21-31 | for a non-negative staff count, the cost equals the sum of one wage (rate × hours) per employee |
| `Calculator.CostRateHoursCommute` | calculator.py:21-31 | the cost is unchanged when the hourly rate and the hours per employee swap places |
| `Calculator.CostIsPricedStaffHours` | calculator.py:31 | the cost is the staff-hours (staff × hours) priced at the hourly rate |
| `Calculator.CostNonNegative` | calculator.py:31 | non-negative staff, rate and hours give a non-negative cost |
| `Calculator.CostMonotoneInStaff` | calculator.py:31 | with non-negative rate and hours, more staff never cost less |
| `Calculator.CostMonotoneInRate` | calculator.py:31 | with non-negative staff and hours, a higher rate never costs less |
| `Calculator.CostMonotoneInShift` | calculator.py:31 | with non-negative staff and rate, longer shifts never cost less |
| `Calculator.WorkedExample` | calculator.py:36-41 | 100 required hours at 40 hours per employee give 3 staff, and 3 staff at rate 25 for 40 hours cost 3000 |
| `CallSites.PlainHandler` | app.py:57-58 | the composed calculation fails exactly when hours per employee is zero |
| `CallSites.HashedHandler` | app_hashed.py:157-158 | the composed calculation, with the rate and hours swapped in the cost call, fails exactly when hours per employee is zero |
| `CallSites.HandlersAgree` | app_hashed.py:158 | the swapped cost call gives the same staff count and cost as the call in the declared order, on every input, computing on exact reals |
| `CallSites.HandlerResultInDomain` | app.py:57-58 | non-negative hours, positive hours per employee and a non-negative rate give a staff count that is non-negative and covers the work, and a non-negative cost |
| `CallSites.EndToEndExample` | calculator.py:36-41 | 100 hours, 40 hours per employee and rate 25 give 3 staff and a cost of 3000 through either handler |

## Left out

- IEEE-754 floating point: the model computes exactly on `real`. It does not capture rounding in the division and the products.
- Float overflow in `calculate_staff` is left out. A finite quotient beyond the float range becomes infinite, and `math.ceil` then raises an overflow error (for example 1e308 required hours at 0.001 hours per employee). `CalculateStaff` returns a result there, because exact reals do not overflow.
- Infinite and NaN values are left out. `math.ceil` raises on an infinite or NaN quotient. A finite workload over infinite hours per employee gives 0 staff with no error. Exact reals have none of these values.
- CallSites.HandlersAgree: holds on exact reals only. In floats the plain handler computes `(staff * rate) * hours` and the hashed handler computes `(staff * hours) * rate`. These can differ in rounding or overflow: 1 required hour, 0.5 hours per employee and rate 1e308 give an infinite cost in one order and 1e308 in the other.
- The request layer is left out. This covers routing, login and logout, the session manager and the `User` class. It is a third-party web framework that is not part of this model.
- Password hashing and checking are left out. They are calls into a third-party library.
- The plaintext credential comparison in the plain handler is left out. It depends on the framework.
- Parsing form fields with `float(...)` is left out, together with its `TypeError`/`ValueError` handling and the form defaults. This is request I/O. The handlers take already-parsed numbers.
- Output formatting is left out: `'%.2f'`, the HTML templates and the printed example. This is presentation.
- Neither handler catches the division error. The model returns it as `Err(ZeroDivision)`; what the framework then does with it is not modelled.
