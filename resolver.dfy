/**
 * Occurrence resolution (`getMedicationsForDate`): for a date, expand each medication's
 * recurrence rule into its nominal intakes, overlay same-day reschedules, join the
 * taken state, and sort the resulting items stably by effective time.
 */
module Resolver {
  import opened Common
  import opened Clock
  import opened Types
  import opened Sorting

  // ---------------------------------------------------------------------------
  // Recurrence rules

  /** The first cycle day whose `day` field is `day` (JavaScript's `find`). */
  function FindCycleDay(pattern: seq<CycleDay>, day: int): (r: Option<CycleDay>)
    ensures r.None? <==> forall c :: c in pattern ==> c.day != day
    ensures r.Some? ==> r.value in pattern && r.value.day == day
  {
    if pattern == [] then None
    else if pattern[0].day == day then Some(pattern[0])
    else FindCycleDay(pattern[1..], day)
  }

  /** `FindCycleDay` returns the earliest entry with that number. */
  lemma {:induction false} FindCycleDayFirst(pattern: seq<CycleDay>, day: int, i: nat)
    requires i < |pattern| && pattern[i].day == day
    requires forall j :: 0 <= j < i ==> pattern[j].day != day
    ensures FindCycleDay(pattern, day) == Some(pattern[i])
  {
    if i > 0 {
      assert pattern[1..][i - 1] == pattern[i];
      FindCycleDayFirst(pattern[1..], day, i - 1);
    }
  }

  /** The intakes of the cycle day active on `date` for a rule of period `length` starting on `start`. */
  function CycleIntakes(pattern: seq<CycleDay>, length: int, start: Day, date: Day): seq<Intake>
    requires length > 0
  {
    var diffDays := date - start;
    if diffDays >= 0 then
      match FindCycleDay(pattern, CycleDayNumber(diffDays, length))
      case Some(c) => c.intakes
      case None => []
    else []
  }

  /** The 1-based number of the cycle day reached `diffDays` days after the start. */
  function CycleDayNumber(diffDays: int, length: int): (r: int)
    requires diffDays >= 0 && length > 0
    ensures 1 <= r <= length
  {
    diffDays % length + 1
  }

  /** A cyclical rule is usable when its pattern, start date and a positive length are all present. */
  predicate CyclicalConfigured(m: Medication)
  {
    m.cyclicalPattern.Some? && m.cycleStartDate.Some? && m.cycleLength.Some? && m.cycleLength.value > 0
  }

  /** The intakes a medication's rule prescribes on `date`, before reschedules and taken state. */
  function NominalIntakes(m: Medication, date: Day): seq<Intake>
  {
    if m.frequencyType == Daily && m.dailyIntakes.Some? then
      m.dailyIntakes.value
    else if m.frequencyType == CustomWeekly && m.customWeeklyDosages.Some?
            && WeekdayOf(date) in m.customWeeklyDosages.value then
      m.customWeeklyDosages.value[WeekdayOf(date)]
    else if m.frequencyType == Cyclical && CyclicalConfigured(m) then
      CycleIntakes(m.cyclicalPattern.value, m.cycleLength.value, m.cycleStartDate.value, date)
    else
      []
  }

  /** A daily rule gives its own intake list; a weekly rule gives the list of the date's weekday, or nothing. */
  lemma RuleByKind(m: Medication, d: Day)
    ensures m.frequencyType == Daily ==>
      NominalIntakes(m, d) == (if m.dailyIntakes.Some? then m.dailyIntakes.value else [])
    ensures m.frequencyType == CustomWeekly ==>
      NominalIntakes(m, d) == (if m.customWeeklyDosages.Some? && WeekdayOf(d) in m.customWeeklyDosages.value
                               then m.customWeeklyDosages.value[WeekdayOf(d)] else [])
  {
  }

  /** A daily rule gives the same intakes on every date. */
  lemma DailyEveryDay(m: Medication, d1: Day, d2: Day)
    requires m.frequencyType == Daily
    ensures NominalIntakes(m, d1) == NominalIntakes(m, d2)
  {
  }

  /** A weekly rule repeats every seven days, and a weekday without an entry has no intakes. */
  lemma WeeklyRepeats(m: Medication, d: Day)
    requires m.frequencyType == CustomWeekly
    ensures NominalIntakes(m, d + 7) == NominalIntakes(m, d)
    ensures m.customWeeklyDosages.None? || WeekdayOf(d) !in m.customWeeklyDosages.value ==> NominalIntakes(m, d) == []
  {
    WeekdayPeriodic(d);
  }

  /** A cyclical rule missing its pattern, start date or a positive length prescribes nothing. */
  lemma CyclicalIncomplete(m: Medication, d: Day)
    requires m.frequencyType == Cyclical && !CyclicalConfigured(m)
    ensures NominalIntakes(m, d) == []
  {
  }

  /** Before its start date a cyclical rule prescribes nothing. */
  lemma CyclicalBeforeStart(m: Medication, d: Day)
    requires m.frequencyType == Cyclical && CyclicalConfigured(m) && d < m.cycleStartDate.value
    ensures NominalIntakes(m, d) == []
  {
  }

  /** The Euclidean remainder is the unique one: `x == q * n + r` with `0 <= r < n` fixes `r`. */
  lemma ModUnique(x: int, n: int, q: int, r: int)
    requires n > 0 && 0 <= r < n && x == q * n + r
    ensures x % n == r
  {
    var q', r' := x / n, x % n;
    assert x == q' * n + r';
    assert (q - q') * n == r' - r;
    if q - q' > 0 {
      MulAtLeast(q - q', n);
    } else if q - q' < 0 {
      MulAtLeast(q' - q, n);
    }
  }

  lemma {:induction false} MulAtLeast(a: nat, n: nat)
    requires a >= 1
    ensures a * n >= n
  {
    if a > 1 {
      MulAtLeast(a - 1, n);
      assert a * n == (a - 1) * n + n;
    }
  }

  lemma ModShift(x: int, n: int)
    requires n > 0
    ensures (x + n) % n == x % n
  {
    assert x == (x / n) * n + x % n;
    assert x + n == (x / n + 1) * n + x % n;
    ModUnique(x + n, n, x / n + 1, x % n);
  }

  /** From its start date on, a cyclical rule repeats with its period. */
  lemma CyclicalPeriodic(m: Medication, d: Day)
    requires m.frequencyType == Cyclical && CyclicalConfigured(m) && d >= m.cycleStartDate.value
    ensures NominalIntakes(m, d + m.cycleLength.value) == NominalIntakes(m, d)
  {
    ModShift(d - m.cycleStartDate.value, m.cycleLength.value);
  }

  /**
   * On the date `j` days into the `k`-th repetition of the cycle, the rule gives the intakes of the
   * pattern entry numbered `j + 1`, or nothing when the pattern has no such entry.
   */
  lemma CyclicalDay(m: Medication, k: nat, j: nat)
    requires m.frequencyType == Cyclical && CyclicalConfigured(m) && j < m.cycleLength.value
    ensures NominalIntakes(m, m.cycleStartDate.value + k * m.cycleLength.value + j)
            == match FindCycleDay(m.cyclicalPattern.value, j + 1)
               case Some(c) => c.intakes
               case None => []
  {
    var len := m.cycleLength.value;
    var x := k * len + j;
    if k > 0 {
      MulAtLeast(k, len);
    }
    ModUnique(x, len, k, j);
    assert CycleDayNumber(x, len) == j + 1;
  }

  /** On the start date the rule gives the entry numbered 1, wherever it sits in the pattern. */
  lemma CyclicalStartDay(m: Medication)
    requires m.frequencyType == Cyclical && CyclicalConfigured(m)
    ensures NominalIntakes(m, m.cycleStartDate.value)
            == match FindCycleDay(m.cyclicalPattern.value, 1)
               case Some(c) => c.intakes
               case None => []
  {
    CyclicalDay(m, 0, 0);
  }

  /** Only entries numbered 1 to the cycle length are ever used: any other entry can be removed. */
  lemma CycleEntriesOutOfRangeUnused(pattern: seq<CycleDay>, length: int, start: Day, date: Day, c: CycleDay)
    requires length > 0 && c in pattern && !(1 <= c.day <= length)
    ensures CycleIntakes(RemoveEntry(pattern, c), length, start, date) == CycleIntakes(pattern, length, start, date)
  {
    if date - start >= 0 {
      FindCycleDayIgnoresOtherDays(pattern, c, CycleDayNumber(date - start, length));
    }
  }

  /** The pattern without the occurrences of `c`. */
  function RemoveEntry(pattern: seq<CycleDay>, c: CycleDay): (r: seq<CycleDay>)
    ensures forall x :: x in r <==> x in pattern && x != c
  {
    if pattern == [] then []
    else (if pattern[0] == c then [] else [pattern[0]]) + RemoveEntry(pattern[1..], c)
  }

  lemma {:induction false} FindCycleDayIgnoresOtherDays(pattern: seq<CycleDay>, c: CycleDay, day: int)
    requires c.day != day
    ensures FindCycleDay(RemoveEntry(pattern, c), day) == FindCycleDay(pattern, day)
  {
    if pattern != [] {
      var h, t := pattern[0], pattern[1..];
      var rest := RemoveEntry(t, c);
      FindCycleDayIgnoresOtherDays(t, c, day);
      assert FindCycleDay(rest, day) == FindCycleDay(t, day);
      if h == c {
        assert RemoveEntry(pattern, c) == rest;
        assert FindCycleDay(pattern, day) == FindCycleDay(t, day);
      } else {
        var r := [h] + rest;
        assert RemoveEntry(pattern, c) == r;
        assert r[0] == h && r[1..] == rest;
      }
    }
  }

  /** When the entries' day numbers are distinct, the order of the pattern does not matter. */
  lemma CycleLookupIgnoresOrder(p: seq<CycleDay>, q: seq<CycleDay>, day: int)
    requires multiset(p) == multiset(q)
    requires forall i, j :: 0 <= i < j < |p| ==> p[i].day != p[j].day
    ensures FindCycleDay(p, day) == FindCycleDay(q, day)
  {
    var rp, rq := FindCycleDay(p, day), FindCycleDay(q, day);
    forall c ensures c in p <==> c in q {
      assert c in p <==> c in multiset(p);
      assert c in q <==> c in multiset(q);
    }
    if rp.Some? && rq.Some? {
      var i :| 0 <= i < |p| && p[i] == rp.value;
      var j :| 0 <= j < |p| && p[j] == rq.value;
      if i < j {
        assert p[i].day != p[j].day;
      } else if j < i {
        assert p[j].day != p[i].day;
      }
    }
  }

  // ---------------------------------------------------------------------------
  // Reschedule overlay and taken-state join

  /** A reschedule moves this occurrence only when made on the viewed date for the viewed date. */
  predicate Applies(r: Reschedule, medicationId: string, date: Day, time: Time)
  {
    r.medicationId == medicationId && r.originalDate == date && r.originalTime == time && r.appliedDate == date
  }

  /** The first reschedule that applies to the occurrence (JavaScript's `find`). */
  function FindReschedule(rs: seq<Reschedule>, medicationId: string, date: Day, time: Time): (r: Option<Reschedule>)
    ensures r.None? <==> forall x :: x in rs ==> !Applies(x, medicationId, date, time)
    ensures r.Some? ==> r.value in rs && Applies(r.value, medicationId, date, time)
  {
    if rs == [] then None
    else if Applies(rs[0], medicationId, date, time) then Some(rs[0])
    else FindReschedule(rs[1..], medicationId, date, time)
  }

  /**
   * The item for one nominal intake of `m` on `date`: keyed by the intake's original time,
   * moved to the new time of the first reschedule that applies, taken as the log says.
   */
  function ResolveIntake(m: Medication, intake: Intake, log: TakenLog, rs: seq<Reschedule>, date: Day): (r: Item)
    ensures r.medication == m && r.date == date && r.scheduledTime == intake.time
    ensures r.isTaken == TakenStatus(log, m.id, date, intake.time)
    ensures r.intake.dosage == intake.dosage && r.intake.unit == intake.unit && r.intake.customUnit == intake.customUnit
    ensures r.isRescheduled <==> exists x :: x in rs && Applies(x, m.id, date, intake.time)
    ensures !r.isRescheduled ==> r.intake == intake
    ensures forall i :: 0 <= i < |rs| && Applies(rs[i], m.id, date, intake.time)
                        && (forall j :: 0 <= j < i ==> !Applies(rs[j], m.id, date, intake.time))
                        ==> r.intake.time == rs[i].newTime
  {
    FirstApplicable(rs, m.id, date, intake.time);
    var relevant := FindReschedule(rs, m.id, date, intake.time);
    var finalTime := if relevant.Some? then relevant.value.newTime else intake.time;
    Item(m, intake.(time := finalTime), intake.time, TakenStatus(log, m.id, date, intake.time), relevant.Some?, date)
  }

  /** `FindReschedule` returns the earliest reschedule that applies. */
  lemma {:induction false} FirstApplicable(rs: seq<Reschedule>, medicationId: string, date: Day, time: Time)
    ensures forall i :: 0 <= i < |rs| && Applies(rs[i], medicationId, date, time)
                        && (forall j :: 0 <= j < i ==> !Applies(rs[j], medicationId, date, time))
                        ==> FindReschedule(rs, medicationId, date, time) == Some(rs[i])
  {
    if rs != [] && !Applies(rs[0], medicationId, date, time) {
      FirstApplicable(rs[1..], medicationId, date, time);
      forall i | 0 <= i < |rs| && Applies(rs[i], medicationId, date, time)
                 && (forall j :: 0 <= j < i ==> !Applies(rs[j], medicationId, date, time))
        ensures FindReschedule(rs, medicationId, date, time) == Some(rs[i])
      {
        assert rs[1..][i - 1] == rs[i];
        forall j | 0 <= j < i - 1 ensures !Applies(rs[1..][j], medicationId, date, time) {
          assert rs[1..][j] == rs[j + 1];
        }
      }
    }
  }

  /** The items for a list of nominal intakes of `m`, in order. */
  function ResolveAll(m: Medication, intakes: seq<Intake>, log: TakenLog, rs: seq<Reschedule>, date: Day): seq<Item>
  {
    seq(|intakes|, k requires 0 <= k < |intakes| => ResolveIntake(m, intakes[k], log, rs, date))
  }

  /** All items in medication order, then intake order: the list before sorting. */
  function Unsorted(meds: seq<Medication>, log: TakenLog, rs: seq<Reschedule>, date: Day): seq<Item>
  {
    if meds == [] then []
    else
      var m := meds[|meds| - 1];
      Unsorted(meds[..|meds| - 1], log, rs, date) + ResolveAll(m, NominalIntakes(m, date), log, rs, date)
  }

  // ---------------------------------------------------------------------------
  // Stable sort by effective time

  /** The effective time of an item: the key the day's list is sorted by. */
  function EffectiveTime(x: Item): Time
  {
    x.intake.time
  }

  /** The comparator of the sort: `a.intake.time.localeCompare(b.intake.time) <= 0`. */
  predicate TimeLe(x: Item, y: Item)
  {
    LexLe(x.intake.time, y.intake.time)
  }

  lemma TimeLeTotalPreorder()
    ensures TotalPreorder(TimeLe)
  {
    forall a: Item, b: Item ensures TimeLe(a, b) || TimeLe(b, a) {
      LexLeTotal(a.intake.time, b.intake.time);
    }
    forall a: Item, b: Item, c: Item | TimeLe(a, b) && TimeLe(b, c) ensures TimeLe(a, c) {
      LexLeTransitive(a.intake.time, b.intake.time, c.intake.time);
    }
  }

  lemma TimeLeKeyCompatible()
    ensures KeyCompatible(TimeLe, EffectiveTime)
  {
    forall a: Item, b: Item | EffectiveTime(a) == EffectiveTime(b) ensures TimeLe(a, b) {
      LexLeReflexive(a.intake.time);
    }
  }

  // ---------------------------------------------------------------------------
  // The aggregate

  /** The items due on `date`, sorted by effective time, ties in medication-then-intake order. */
  function MedicationsForDate(meds: seq<Medication>, log: TakenLog, rs: seq<Reschedule>, date: Day): (r: seq<Item>)
    ensures SortedBy(r, TimeLe)
    ensures multiset(r) == multiset(Unsorted(meds, log, rs, date))
    ensures forall t :: OfKey(r, EffectiveTime, t) == OfKey(Unsorted(meds, log, rs, date), EffectiveTime, t)
  {
    var s := Unsorted(meds, log, rs, date);
    TimeLeTotalPreorder();
    SortBySorted(s, TimeLe);
    TimeLeKeyCompatible();
    forall t ensures OfKey(SortBy(s, TimeLe), EffectiveTime, t) == OfKey(s, EffectiveTime, t) {
      SortStable(s, TimeLe, EffectiveTime, t);
    }
    SortBy(s, TimeLe)
  }

  /** `x` is the item of some nominal intake of some medication of `meds` on `date`. */
  ghost predicate ResolvedFrom(meds: seq<Medication>, log: TakenLog, rs: seq<Reschedule>, date: Day, x: Item)
  {
    exists i, k :: 0 <= i < |meds| && 0 <= k < |NominalIntakes(meds[i], date)|
                   && x == ResolveIntake(meds[i], NominalIntakes(meds[i], date)[k], log, rs, date)
  }

  lemma {:induction false} UnsortedSound(meds: seq<Medication>, log: TakenLog, rs: seq<Reschedule>, date: Day, x: Item)
    requires x in Unsorted(meds, log, rs, date)
    ensures ResolvedFrom(meds, log, rs, date, x)
  {
    var init, m := meds[..|meds| - 1], meds[|meds| - 1];
    var ns := NominalIntakes(m, date);
    var tail := ResolveAll(m, ns, log, rs, date);
    assert Unsorted(meds, log, rs, date) == Unsorted(init, log, rs, date) + tail;
    if x in tail {
      var k :| 0 <= k < |ns| && tail[k] == x;
      assert meds[|meds| - 1] == m && x == ResolveIntake(meds[|meds| - 1], NominalIntakes(meds[|meds| - 1], date)[k], log, rs, date);
    } else {
      UnsortedSound(init, log, rs, date, x);
      var i, k :| 0 <= i < |init| && 0 <= k < |NominalIntakes(init[i], date)|
                  && x == ResolveIntake(init[i], NominalIntakes(init[i], date)[k], log, rs, date);
      assert meds[i] == init[i];
    }
  }

  lemma {:induction false} UnsortedComplete(meds: seq<Medication>, log: TakenLog, rs: seq<Reschedule>, date: Day, i: nat, k: nat)
    requires i < |meds| && k < |NominalIntakes(meds[i], date)|
    ensures ResolveIntake(meds[i], NominalIntakes(meds[i], date)[k], log, rs, date) in Unsorted(meds, log, rs, date)
  {
    var init, m := meds[..|meds| - 1], meds[|meds| - 1];
    var tail := ResolveAll(m, NominalIntakes(m, date), log, rs, date);
    assert Unsorted(meds, log, rs, date) == Unsorted(init, log, rs, date) + tail;
    if i < |init| {
      assert init[i] == meds[i];
      UnsortedComplete(init, log, rs, date, i, k);
    } else {
      assert tail[k] == ResolveIntake(meds[i], NominalIntakes(meds[i], date)[k], log, rs, date);
    }
  }

  lemma UnsortedMembership(meds: seq<Medication>, log: TakenLog, rs: seq<Reschedule>, date: Day, x: Item)
    ensures x in Unsorted(meds, log, rs, date) <==> ResolvedFrom(meds, log, rs, date, x)
  {
    if x in Unsorted(meds, log, rs, date) {
      UnsortedSound(meds, log, rs, date, x);
    }
    if ResolvedFrom(meds, log, rs, date, x) {
      var i, k :| 0 <= i < |meds| && 0 <= k < |NominalIntakes(meds[i], date)|
                  && x == ResolveIntake(meds[i], NominalIntakes(meds[i], date)[k], log, rs, date);
      UnsortedComplete(meds, log, rs, date, i, k);
    }
  }

  /** An item is listed for `date` exactly when it resolves one nominal intake of one medication on `date`. */
  lemma ItemsForDateMembership(meds: seq<Medication>, log: TakenLog, rs: seq<Reschedule>, date: Day, x: Item)
    ensures x in MedicationsForDate(meds, log, rs, date) <==> ResolvedFrom(meds, log, rs, date, x)
  {
    var r := MedicationsForDate(meds, log, rs, date);
    assert x in r <==> x in multiset(r);
    UnsortedMembership(meds, log, rs, date, x);
  }

  /** Every listed item belongs to `date` and to a medication of the list. */
  lemma ItemsBelongToDate(meds: seq<Medication>, log: TakenLog, rs: seq<Reschedule>, date: Day)
    ensures forall x :: x in MedicationsForDate(meds, log, rs, date) ==> x.date == date && x.medication in meds
  {
    forall x | x in MedicationsForDate(meds, log, rs, date) ensures x.date == date && x.medication in meds {
      ItemsForDateMembership(meds, log, rs, date, x);
    }
  }

  /** The number of nominal intakes of all medications on `date`. */
  function IntakeCount(meds: seq<Medication>, date: Day): nat
  {
    if meds == [] then 0
    else IntakeCount(meds[..|meds| - 1], date) + |NominalIntakes(meds[|meds| - 1], date)|
  }

  lemma {:induction false} UnsortedLength(meds: seq<Medication>, log: TakenLog, rs: seq<Reschedule>, date: Day)
    ensures |Unsorted(meds, log, rs, date)| == IntakeCount(meds, date)
  {
    if meds != [] {
      UnsortedLength(meds[..|meds| - 1], log, rs, date);
    }
  }

  /** Each nominal intake yields exactly one item: nothing is dropped or duplicated by the overlay or the sort. */
  lemma ItemCount(meds: seq<Medication>, log: TakenLog, rs: seq<Reschedule>, date: Day)
    ensures |MedicationsForDate(meds, log, rs, date)| == IntakeCount(meds, date)
  {
    var r := MedicationsForDate(meds, log, rs, date);
    assert |multiset(r)| == |r|;
    UnsortedLength(meds, log, rs, date);
  }

  /** The taken state of an item depends on its original time only, never on a reschedule. */
  lemma TakenIgnoresReschedules(m: Medication, intake: Intake, log: TakenLog, rs: seq<Reschedule>, date: Day)
    ensures ResolveIntake(m, intake, log, rs, date).isTaken == ResolveIntake(m, intake, log, [], date).isTaken
    ensures ResolveIntake(m, intake, log, rs, date).scheduledTime == ResolveIntake(m, intake, log, [], date).scheduledTime
  {
  }

  /**
   * A reschedule made on another day than the one it targets moves nothing: when no reschedule
   * for this dose was applied on `date` itself, the item keeps its nominal time.
   */
  lemma RescheduleOnlyOnItsOwnDay(m: Medication, intake: Intake, log: TakenLog, rs: seq<Reschedule>, date: Day)
    requires forall x :: x in rs && x.medicationId == m.id && x.originalDate == date && x.originalTime == intake.time
                         ==> x.appliedDate != date
    ensures ResolveIntake(m, intake, log, rs, date).intake == intake
    ensures !ResolveIntake(m, intake, log, rs, date).isRescheduled
  {
  }

  lemma ResolveAllSnoc(m: Medication, intakes: seq<Intake>, k: nat, log: TakenLog, rs: seq<Reschedule>, date: Day)
    requires k < |intakes|
    ensures ResolveAll(m, intakes[..k + 1], log, rs, date)
         == ResolveAll(m, intakes[..k], log, rs, date) + [ResolveIntake(m, intakes[k], log, rs, date)]
  {
  }

  lemma UnsortedSnoc(meds: seq<Medication>, i: nat, log: TakenLog, rs: seq<Reschedule>, date: Day)
    requires i < |meds|
    ensures Unsorted(meds[..i + 1], log, rs, date)
         == Unsorted(meds[..i], log, rs, date) + ResolveAll(meds[i], NominalIntakes(meds[i], date), log, rs, date)
  {
    assert meds[..i + 1][..i] == meds[..i];
  }

  /** `getMedicationsForDate`: accumulate the items medication by medication, then sort in place. */
  method GetMedicationsForDate(medications: seq<Medication>, takenLog: TakenLog, tempReschedules: seq<Reschedule>, date: Day)
    returns (items: seq<Item>)
    ensures items == MedicationsForDate(medications, takenLog, tempReschedules, date)
  {
    var scheduled: seq<Item> := [];
    for i := 0 to |medications|
      invariant scheduled == Unsorted(medications[..i], takenLog, tempReschedules, date)
    {
      var med := medications[i];
      var originalIntakes := NominalIntakes(med, date);
      ghost var before := scheduled;
      for k := 0 to |originalIntakes|
        invariant scheduled == before + ResolveAll(med, originalIntakes[..k], takenLog, tempReschedules, date)
      {
        var intake := originalIntakes[k];
        var relevant := FindReschedule(tempReschedules, med.id, date, intake.time);
        var finalTime := intake.time;
        var isRescheduled := false;
        if relevant.Some? {
          finalTime := relevant.value.newTime;
          isRescheduled := true;
        }
        var isTaken := TakenStatus(takenLog, med.id, date, intake.time);
        var item := Item(med, intake.(time := finalTime), intake.time, isTaken, isRescheduled, date);
        assert item == ResolveIntake(med, intake, takenLog, tempReschedules, date);
        ResolveAllSnoc(med, originalIntakes, k, takenLog, tempReschedules, date);
        scheduled := scheduled + [item];
      }
      assert originalIntakes[..|originalIntakes|] == originalIntakes;
      UnsortedSnoc(medications, i, takenLog, tempReschedules, date);
    }
    assert medications[..|medications|] == medications;
    var a := new Item[|scheduled|](j requires 0 <= j < |scheduled| => scheduled[j]);
    assert a[..] == scheduled;
    SortInPlace(a, TimeLe);
    items := a[..];
  }
}
