/**
 The salary panel: it reduces the attendance mapping to three day counts,
 chooses the initial daily wage, and hands wage and counts to the salary
 formula. The formula itself (`calculateSalary`) is not part of this model;
 it is a parameter, so nothing below depends on how it computes.
 */
module SalaryCalculator {
  import opened Wrappers
  import opened Attendance
  import opened JsBuiltins

  /** The wage used when no wage has been saved. */
  const DefaultDailyWage: int := 500

  /** The three per-status tests, one per `filter` call. */
  predicate IsWorkingDay(s: Status) { s != Holiday }
  predicate IsAbsentDay(s: Status) { s == Absent }
  predicate IsDoubleDay(s: Status) { s == Double }

  /** The statuses the three tests do not mention. */
  predicate IsHolidayDay(s: Status) { s == Holiday }
  predicate IsPresentDay(s: Status) { s == Present }

  /** The counts the component passes on, in the order it passes them. */
  datatype DayCounts = DayCounts(workingDays: nat, absentDays: nat, doubleDays: nat)

  /**
   What the three counts mean: how many dates are not holidays, how many are
   absences and how many are double shifts. Independent of any key order.
   */
  function Tally(attendance: AttendanceMap): DayCounts
  {
    DayCounts(|KeysWhere(attendance, IsWorkingDay)|,
              |KeysWhere(attendance, IsAbsentDay)|,
              |KeysWhere(attendance, IsDoubleDay)|)
  }

  /**
   The three `Object.values(attendance).filter(...).length` expressions, for the
   property order `keys` of the mapping (the order its dates were added). Each
   count is the number of entries with the tested status, whatever that order is.
   */
  function Aggregate(attendance: AttendanceMap, keys: seq<string>): (c: DayCounts)
    requires Enumerates(keys, attendance)
    ensures c == Tally(attendance)
  {
    var values := ObjectValues(attendance, keys);
    FilteredValuesCountEntries(attendance, keys, IsWorkingDay);
    FilteredValuesCountEntries(attendance, keys, IsAbsentDay);
    FilteredValuesCountEntries(attendance, keys, IsDoubleDay);
    DayCounts(|Filter(values, IsWorkingDay)|,
              |Filter(values, IsAbsentDay)|,
              |Filter(values, IsDoubleDay)|)
  }

  /** The counts do not depend on the order in which the dates are enumerated. */
  lemma AggregateIgnoresKeyOrder(attendance: AttendanceMap, keys1: seq<string>, keys2: seq<string>)
    requires Enumerates(keys1, attendance) && Enumerates(keys2, attendance)
    ensures Aggregate(attendance, keys1) == Aggregate(attendance, keys2)
  {
  }

  /**
   An absence and a double shift are never holidays, and no date is both, so
   absences and double shifts together never exceed the working days, which
   never exceed the number of dates.
   */
  lemma TallyBounds(attendance: AttendanceMap)
    ensures Tally(attendance).absentDays + Tally(attendance).doubleDays <= Tally(attendance).workingDays
    ensures Tally(attendance).absentDays <= Tally(attendance).workingDays
    ensures Tally(attendance).doubleDays <= Tally(attendance).workingDays
    ensures Tally(attendance).workingDays <= |attendance|
  {
    var working := KeysWhere(attendance, IsWorkingDay);
    var absent := KeysWhere(attendance, IsAbsentDay);
    var double := KeysWhere(attendance, IsDoubleDay);
    assert absent !! double;
    SubsetNoLarger(absent + double, working);
    SubsetNoLarger(working, attendance.Keys);
  }

  /** A subset is no larger than the set containing it. */
  lemma SubsetNoLarger(small: set<string>, large: set<string>)
    requires small <= large
    ensures |small| <= |large|
  {
    assert large == small + (large - small);
  }

  /** Every date is either a holiday or a working day. */
  lemma WorkingAndHolidaysPartition(attendance: AttendanceMap)
    ensures Tally(attendance).workingDays + |KeysWhere(attendance, IsHolidayDay)| == |attendance|
  {
    var working := KeysWhere(attendance, IsWorkingDay);
    var holidays := KeysWhere(attendance, IsHolidayDay);
    assert working !! holidays;
    assert working + holidays == attendance.Keys;
  }

  /**
   Working days minus absences minus double shifts is exactly the number of
   dates with any other status, so that difference is never negative.
   */
  lemma OrdinaryDaysByDifference(attendance: AttendanceMap)
    ensures Tally(attendance).workingDays - Tally(attendance).absentDays - Tally(attendance).doubleDays
         == |KeysWhere(attendance, IsPresentDay)|
  {
    var working := KeysWhere(attendance, IsWorkingDay);
    var absent := KeysWhere(attendance, IsAbsentDay);
    var double := KeysWhere(attendance, IsDoubleDay);
    var present := KeysWhere(attendance, IsPresentDay);
    assert absent !! double && absent !! present && double !! present;
    assert working == absent + double + present;
  }

  /** An empty mapping has no working, absent or double-shift days. */
  lemma EmptyAttendanceTally()
    ensures Tally(map[]) == DayCounts(0, 0, 0)
  {
  }

  /** 1 when `d` is a date of `attendance` whose status passes `keep`, else 0. */
  function Contribution(attendance: AttendanceMap, d: string, keep: Status -> bool): nat
  {
    if d in attendance && keep(attendance[d]) then 1 else 0
  }

  /** Setting the status of `d` replaces `d`'s membership and keeps every other date's. */
  lemma KeysWhereAfterUpdateSet(attendance: AttendanceMap, d: string, s: Status, keep: Status -> bool)
    ensures KeysWhere(attendance[d := s], keep)
         == (KeysWhere(attendance, keep) - {d}) + (if keep(s) then {d} else {})
  {
  }

  /** Replacing the membership of one element changes the size by at most one either way. */
  lemma ReplaceMemberCard(before: set<string>, d: string, added: bool)
    ensures |(before - {d}) + (if added then {d} else {})|
         == |before| - (if d in before then 1 else 0) + (if added then 1 else 0)
  {
    var others := before - {d};
    if d in before {
      assert before == others + {d};
    } else {
      assert others == before;
    }
  }

  /** Setting the status of `d` changes a count by what the old entry and the new status contribute. */
  lemma KeysWhereAfterUpdate(attendance: AttendanceMap, d: string, s: Status, keep: Status -> bool)
    ensures |KeysWhere(attendance[d := s], keep)|
         == |KeysWhere(attendance, keep)| - Contribution(attendance, d, keep) + (if keep(s) then 1 else 0)
  {
    var before := KeysWhere(attendance, keep);
    KeysWhereAfterUpdateSet(attendance, d, s, keep);
    ReplaceMemberCard(before, d, keep(s));
    assert Contribution(attendance, d, keep) == (if d in before then 1 else 0);
  }

  /** Marking date `d` with status `s`, whether `d` was marked before or not. */
  lemma TallyUpdate(attendance: AttendanceMap, d: string, s: Status)
    ensures Tally(attendance[d := s]).workingDays
         == Tally(attendance).workingDays - Contribution(attendance, d, IsWorkingDay) + (if IsWorkingDay(s) then 1 else 0)
    ensures Tally(attendance[d := s]).absentDays
         == Tally(attendance).absentDays - Contribution(attendance, d, IsAbsentDay) + (if IsAbsentDay(s) then 1 else 0)
    ensures Tally(attendance[d := s]).doubleDays
         == Tally(attendance).doubleDays - Contribution(attendance, d, IsDoubleDay) + (if IsDoubleDay(s) then 1 else 0)
  {
    KeysWhereAfterUpdate(attendance, d, s, IsWorkingDay);
    KeysWhereAfterUpdate(attendance, d, s, IsAbsentDay);
    KeysWhereAfterUpdate(attendance, d, s, IsDoubleDay);
  }

  /** A holiday under a new date changes none of the counts. */
  lemma AddHolidayKeepsTally(attendance: AttendanceMap, d: string)
    requires d !in attendance
    ensures Tally(attendance[d := Holiday]) == Tally(attendance)
  {
    TallyUpdate(attendance, d, Holiday);
  }

  /**
   Marking a date as a holiday never raises a count, and leaves all three
   unchanged exactly when the date was new or already a holiday.
   */
  lemma MarkHolidayNeverRaises(attendance: AttendanceMap, d: string)
    ensures Tally(attendance[d := Holiday]).workingDays <= Tally(attendance).workingDays
    ensures Tally(attendance[d := Holiday]).absentDays <= Tally(attendance).absentDays
    ensures Tally(attendance[d := Holiday]).doubleDays <= Tally(attendance).doubleDays
    ensures Tally(attendance[d := Holiday]) == Tally(attendance)
        <==> d !in attendance || attendance[d] == Holiday
  {
    TallyUpdate(attendance, d, Holiday);
  }

  /** An absence under a new date adds one working day and one absence. */
  lemma AddAbsentTally(attendance: AttendanceMap, d: string)
    requires d !in attendance
    ensures Tally(attendance[d := Absent])
         == DayCounts(Tally(attendance).workingDays + 1, Tally(attendance).absentDays + 1, Tally(attendance).doubleDays)
  {
    TallyUpdate(attendance, d, Absent);
  }

  /** A double shift under a new date adds one working day and one double-shift day. */
  lemma AddDoubleTally(attendance: AttendanceMap, d: string)
    requires d !in attendance
    ensures Tally(attendance[d := Double])
         == DayCounts(Tally(attendance).workingDays + 1, Tally(attendance).absentDays, Tally(attendance).doubleDays + 1)
  {
    TallyUpdate(attendance, d, Double);
  }

  /** Any other status under a new date adds one working day only. */
  lemma AddPresentTally(attendance: AttendanceMap, d: string)
    requires d !in attendance
    ensures Tally(attendance[d := Present])
         == DayCounts(Tally(attendance).workingDays + 1, Tally(attendance).absentDays, Tally(attendance).doubleDays)
  {
    TallyUpdate(attendance, d, Present);
  }

  /** JavaScript truthiness of the saved text: neither missing (`null`) nor empty. */
  predicate IsTruthy(saved: Option<string>)
  {
    saved.Some? && saved.value != ""
  }

  /**
   The initial daily wage: the saved text converted by `toNumber` when there
   is one and it is not empty, otherwise 500.
   */
  function InitialDailyWage(saved: Option<string>, toNumber: string -> int): (wage: int)
    ensures saved == None || saved == Some("") ==> wage == DefaultDailyWage
    ensures saved.Some? && saved.value != "" ==> wage == toNumber(saved.value)
  {
    if IsTruthy(saved) then toNumber(saved.value) else DefaultDailyWage
  }

  /**
   A wage written out as text and read back is restored on the next start.
   The text conversion is not modelled, so its round trip is assumed here
   (non-empty text that converts back to the wage), not proved.
   */
  lemma SavedWageRestored(wage: int, toText: int -> string, toNumber: string -> int)
    requires toText(wage) != "" && toNumber(toText(wage)) == wage
    ensures InitialDailyWage(Some(toText(wage)), toNumber) == wage
  {
  }

  /**
   The recomputed calculation: the formula applied to the wage, then the
   working, absent and double-shift day counts of the mapping, in that order.
   */
  function Recalculate<R>(calculateSalary: (int, nat, nat, nat) -> R, dailyWage: int,
                          attendance: AttendanceMap, keys: seq<string>): (r: R)
    requires Enumerates(keys, attendance)
    ensures r == calculateSalary(dailyWage,
                                 |KeysWhere(attendance, IsWorkingDay)|,
                                 |KeysWhere(attendance, IsAbsentDay)|,
                                 |KeysWhere(attendance, IsDoubleDay)|)
  {
    var counts := Aggregate(attendance, keys);
    calculateSalary(dailyWage, counts.workingDays, counts.absentDays, counts.doubleDays)
  }

  /** The panel's two state cells: the daily wage and the calculation on display. */
  datatype PanelState<R> = PanelState(dailyWage: int, calculation: R)

  /**
   The panel's first state, before the counting effect has run: the wage read
   from the saved text, and the calculation of an empty mapping at the default
   wage (the wage the first calculation uses is fixed, not the saved one).
   */
  function InitialState<R>(saved: Option<string>, toNumber: string -> int,
                           calculateSalary: (int, nat, nat, nat) -> R): (st: PanelState<R>)
    ensures st.dailyWage == InitialDailyWage(saved, toNumber)
    ensures st.calculation == Recalculate(calculateSalary, DefaultDailyWage, map[], [])
  {
    EmptyAttendanceTally();
    PanelState(InitialDailyWage(saved, toNumber), calculateSalary(500, 0, 0, 0))
  }

  /** The first calculation on display is the same whatever wage was saved. */
  lemma InitialCalculationIgnoresSavedWage<R>(saved1: Option<string>, saved2: Option<string>,
                                              toNumber: string -> int,
                                              calculateSalary: (int, nat, nat, nat) -> R)
    ensures InitialState(saved1, toNumber, calculateSalary).calculation
         == InitialState(saved2, toNumber, calculateSalary).calculation
  {
  }

  /**
   With no saved wage (or an empty one), the first calculation already agrees
   with the panel's own wage: it is the recalculation of an empty mapping at
   that wage.
   */
  lemma InitialStateConsistentWithoutSavedWage<R>(saved: Option<string>, toNumber: string -> int,
                                                  calculateSalary: (int, nat, nat, nat) -> R)
    requires !IsTruthy(saved)
    ensures InitialState(saved, toNumber, calculateSalary).calculation
         == Recalculate(calculateSalary, InitialState(saved, toNumber, calculateSalary).dailyWage, map[], [])
  {
  }
}
