# Attendance aggregation of the monthly salary panel

The salary panel of the attendance tracker (`SalaryCalculator`) receives the
attendance mapping, which sends each date key to that day's status. It reduces
the mapping to three day counts:

- working days: every status but "holiday";
- absent days: status "absent";
- double-shift days: status "double".

Each count is an independent `Object.values(attendance).filter(...).length`
scan. The panel then hands the daily wage and the three counts, in that order,
to the salary formula `calculateSalary`. The initial daily wage is the saved
wage when there is one and it is not empty, and 500 otherwise. The first
calculation shown, before the counts are computed, is the formula at 500 and no
days.

The model is pure: datatypes, functions and lemmas.

- `attendance.dfy` holds the status datatype and the mapping type.
- `js_builtins.dfy` models `Object.values` and `Array.prototype.filter`. It
  proves that a filtered-values count equals the number of map entries whose
  value passes the filter.
- `salary_calculator.dfy` holds the three tests, the aggregation and its
  order-free reference `Tally`. It also holds the wage default, the hand-off to
  the formula, and the relational facts about the counts.
- `wrappers.dfy` holds the `Option` type used for the saved wage text.

`Object.values` lists the values in the object's property order. For these
date keys, which are not array indices, that is the order in which they were
added. That order is set by the code that fetches the attendance data, which is
not part of this model. So the model takes the order as a parameter `keys`,
with the requirement that it lists every key of the mapping exactly once. `Aggregate` is
proved equal to `Tally`, which does not depend on any order. So the counts are
the same for every enumeration order.

The statuses come from a type in `@/lib/attendance`, which is not part of this
model. The component only compares against the literals "holiday", "absent" and
"double". So `Status` has `Holiday`, `Absent` and `Double`, plus `Present`,
which stands for "present" and for any other status value; the component does
not rely on what the other values are.

## Model

| member | source | states |
|---|---|---|
| JsBuiltins.ObjectValues | src/components/SalaryCalculator.tsx:26-36 | `Object.values` yields one value per enumerated key: as many values as keys, the i-th being the value of the i-th key |
| JsBuiltins.Filter | src/components/SalaryCalculator.tsx:26-36 | `filter` yields no more elements than it is given; each accepted value occurs exactly as often as in the input and no rejected value occurs, which fixes the `.length` read from it |
| JsBuiltins.FilterMembers | src/components/SalaryCalculator.tsx:26-36 | every element `filter` yields is from the input and passes the test, and every input element that passes the test is kept |
| JsBuiltins.FilteredValuesCountKeys | src/components/SalaryCalculator.tsx:26-36 | for a duplicate-free list of keys, the length of the filtered values equals the number of listed keys whose value passes the test |
| JsBuiltins.FilteredValuesCountEntries | src/components/SalaryCalculator.tsx:26-36 | for an enumeration of all keys, `Object.values(m).filter(keep).length` equals the number of entries of `m` whose value passes `keep` |
| SalaryCalculator.Aggregate | src/components/SalaryCalculator.tsx:26-36 | the three filter-length counts, for any key enumeration order, are the numbers of entries that are not holidays, that are absences and that are double shifts |
| SalaryCalculator.AggregateIgnoresKeyOrder | src/components/SalaryCalculator.tsx:26-36 | two enumeration orders of the same mapping give the same three counts |
| SalaryCalculator.TallyBounds | src/components/SalaryCalculator.tsx:26-36 | absent days plus double days never exceed working days; each of them alone never exceeds working days; working days never exceed the number of entries |
| SalaryCalculator.WorkingAndHolidaysPartition | src/components/SalaryCalculator.tsx:26-28 | working days plus holiday entries equal the number of entries |
| SalaryCalculator.OrdinaryDaysByDifference | src/components/SalaryCalculator.tsx:26-36 | working days minus absent days minus double days equals the number of entries with any other status, so it is never negative |
| SalaryCalculator.EmptyAttendanceTally | src/components/SalaryCalculator.tsx:26-36 | an empty mapping gives all three counts zero |
| SalaryCalculator.KeysWhereAfterUpdate | src/components/SalaryCalculator.tsx:26-36 | setting the status of one date changes a count by minus the old entry's contribution plus the new status's contribution |
| SalaryCalculator.TallyUpdate | src/components/SalaryCalculator.tsx:26-36 | marking a date, new or already present, changes each of the three counts by exactly what the old and the new status contribute |
| SalaryCalculator.AddHolidayKeepsTally | src/components/SalaryCalculator.tsx:26-36 | a holiday under a new date leaves all three counts unchanged |
| SalaryCalculator.MarkHolidayNeverRaises | src/components/SalaryCalculator.tsx:26-36 | overwriting or adding a holiday never raises a count, and leaves all three unchanged exactly when the date was new or already a holiday |
| SalaryCalculator.AddAbsentTally | src/components/SalaryCalculator.tsx:26-36 | an absence under a new date raises working and absent days by exactly one and leaves double days unchanged |
| SalaryCalculator.AddDoubleTally | src/components/SalaryCalculator.tsx:26-36 | a double shift under a new date raises working and double days by exactly one and leaves absent days unchanged |
| SalaryCalculator.AddPresentTally | src/components/SalaryCalculator.tsx:26-36 | any other status under a new date raises working days by one and leaves absent and double days unchanged |
| SalaryCalculator.InitialDailyWage | src/components/SalaryCalculator.tsx:15-18 | with no saved text, or empty saved text, the wage is 500; otherwise it is the saved text converted to a number |
| SalaryCalculator.SavedWageRestored | src/components/SalaryCalculator.tsx:15-23 | a wage saved as non-empty text that converts back to it is the initial wage on the next start |
| SalaryCalculator.Recalculate | src/components/SalaryCalculator.tsx:25-39 | the formula receives the wage, then the number of non-holiday entries, then the number of absences, then the number of double shifts |
| SalaryCalculator.InitialState | src/components/SalaryCalculator.tsx:15-19 | the first state holds the wage read from the saved text and, as calculation, the recalculation of an empty mapping at wage 500 |
| SalaryCalculator.InitialCalculationIgnoresSavedWage | src/components/SalaryCalculator.tsx:15-19 | any two saved wages give the same first calculation |
| SalaryCalculator.InitialStateConsistentWithoutSavedWage | src/components/SalaryCalculator.tsx:15-19 | with no saved wage or an empty one, the first calculation is the recalculation of an empty mapping at the panel's own wage |

## Left out

- `calculateSalary` lives in `@/lib/salary`, which is not part of this model. It is a function-typed parameter with an arbitrary result type, so no property here depends on its formula.
- `Number(saved)` is the parameter `toNumber: string -> int`. JavaScript's string-to-number conversion, NaN and floating-point wages are not modelled.
- InitialDailyWage: the wage is an unbounded integer, not a JavaScript (floating-point) number.
- `localStorage.getItem` and `localStorage.setItem` are external storage. The saved text is given as an `Option<string>` (the missing value is `null`). Writing it back appears only through `SavedWageRestored`, whose text conversion is a parameter.
- React state and effects are not modelled: the re-run of the counting effect whenever the mapping or the wage changes, and the wage input handler. `InitialState` gives the two `useState` cells' first values, and `Recalculate` gives the value the effect sets.
- Filter: the contract fixes each value's multiplicity (and so the length), not the order of the kept elements; no count depends on that order.
- The JSX rendering of the card is not modelled.
- The page that supplies the mapping (`src/pages/Index.tsx`) is not modelled. It covers data fetching and updates against the backend, toasts, date formatting, splash and login state, and the admin guard on date clicks.
- `AttendanceStatus` is defined in `@/lib/attendance`, which is not part of this model. Every status other than the three literals the component tests is modelled as `Present`.
