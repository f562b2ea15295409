/**
 * The persisted store (`useMedications`): the medication list, the taken-log, the temporary
 * reschedules and the date of the last daily reset, with the operations that update them.
 * Each update is a pure function on the stored values; `MedicationStore` applies them in place.
 */
module Store {
  import opened Common
  import opened Clock
  import opened Types
  import opened Resolver

  // ---------------------------------------------------------------------------
  // Medication payloads

  /**
   * One field of a submitted payload. An object spread distinguishes a key that is missing
   * (`Absent`: the old value is kept) from a key set to `undefined` (`Undefined`: the value is erased).
   */
  datatype Field<T> = Absent | Undefined | Present(value: T)

  /** The medication data a form submits: everything but `id`, `createdAt` and `updatedAt`. */
  datatype MedicationData = MedicationData(
    name: string,
    color: string,
    frequencyType: Frequency,
    notes: Field<string>,
    dailyIntakes: Field<seq<Intake>>,
    cyclicalPattern: Field<seq<CycleDay>>,
    cycleLength: Field<int>,
    cycleStartDate: Field<Day>,
    customWeeklyDosages: Field<WeeklyDosages>)

  /** The value a field takes when the payload is spread over a record holding `prev`. */
  function Spread<T>(prev: Option<T>, f: Field<T>): (r: Option<T>)
    ensures f.Absent? ==> r == prev
    ensures f.Undefined? ==> r.None?
    ensures f.Present? ==> r == Some(f.value)
  {
    match f
    case Absent => prev
    case Undefined => None
    case Present(v) => Some(v)
  }

  /** `{...data, id, createdAt: now, updatedAt: now}`: a new record; fields the payload lacks are unset. */
  function NewMedication(data: MedicationData, id: string, now: string): (m: Medication)
    ensures m.id == id && m.createdAt == now && m.updatedAt == now
    ensures m.name == data.name && m.color == data.color && m.frequencyType == data.frequencyType
    ensures m.dailyIntakes == Spread(None, data.dailyIntakes)
    ensures m.cyclicalPattern == Spread(None, data.cyclicalPattern)
    ensures m.cycleLength == Spread(None, data.cycleLength)
    ensures m.cycleStartDate == Spread(None, data.cycleStartDate)
    ensures m.customWeeklyDosages == Spread(None, data.customWeeklyDosages)
    ensures m.notes == Spread(None, data.notes)
  {
    Medication(id, data.name, data.color, data.frequencyType,
      Spread(None, data.dailyIntakes), Spread(None, data.cyclicalPattern), Spread(None, data.cycleLength),
      Spread(None, data.cycleStartDate), Spread(None, data.customWeeklyDosages), Spread(None, data.notes),
      now, now)
  }

  /** `{...med, ...data, updatedAt: now}`: the payload over the record; identity and creation time stay. */
  function Merge(med: Medication, data: MedicationData, now: string): (m: Medication)
    ensures m.id == med.id && m.createdAt == med.createdAt && m.updatedAt == now
    ensures m.name == data.name && m.color == data.color && m.frequencyType == data.frequencyType
    ensures m.dailyIntakes == Spread(med.dailyIntakes, data.dailyIntakes)
    ensures m.cyclicalPattern == Spread(med.cyclicalPattern, data.cyclicalPattern)
    ensures m.cycleLength == Spread(med.cycleLength, data.cycleLength)
    ensures m.cycleStartDate == Spread(med.cycleStartDate, data.cycleStartDate)
    ensures m.customWeeklyDosages == Spread(med.customWeeklyDosages, data.customWeeklyDosages)
    ensures m.notes == Spread(med.notes, data.notes)
  {
    med.(name := data.name, color := data.color, frequencyType := data.frequencyType,
         dailyIntakes := Spread(med.dailyIntakes, data.dailyIntakes),
         cyclicalPattern := Spread(med.cyclicalPattern, data.cyclicalPattern),
         cycleLength := Spread(med.cycleLength, data.cycleLength),
         cycleStartDate := Spread(med.cycleStartDate, data.cycleStartDate),
         customWeeklyDosages := Spread(med.customWeeklyDosages, data.customWeeklyDosages),
         notes := Spread(med.notes, data.notes),
         updatedAt := now)
  }

  /** `prev.map(med => med.id === id ? merged : med)`. */
  function UpdateById(meds: seq<Medication>, id: string, data: MedicationData, now: string): (r: seq<Medication>)
    ensures |r| == |meds|
    ensures forall i :: 0 <= i < |r| ==> r[i].id == meds[i].id && r[i].createdAt == meds[i].createdAt
    ensures forall i :: 0 <= i < |r| && meds[i].id != id ==> r[i] == meds[i]
    ensures forall i :: 0 <= i < |r| && meds[i].id == id ==> r[i] == Merge(meds[i], data, now)
  {
    seq(|meds|, i requires 0 <= i < |meds| => if meds[i].id == id then Merge(meds[i], data, now) else meds[i])
  }

  /** The medication ids are pairwise distinct. */
  predicate UniqueIds(meds: seq<Medication>)
  {
    forall i, j :: 0 <= i < j < |meds| ==> meds[i].id != meds[j].id
  }

  /** Filtering never makes two ids equal. */
  lemma {:induction false} FilterKeepsIdsUnique(meds: seq<Medication>, p: Medication -> bool)
    requires UniqueIds(meds)
    ensures UniqueIds(Filter(meds, p))
  {
    if meds != [] {
      var init, last := meds[..|meds| - 1], meds[|meds| - 1];
      assert UniqueIds(init);
      FilterKeepsIdsUnique(init, p);
      var r := Filter(meds, p);
      if p(last) {
        forall i, j | 0 <= i < j < |r| ensures r[i].id != r[j].id {
          if j == |r| - 1 {
            assert r[i] in Filter(init, p);
            var k :| 0 <= k < |init| && init[k] == r[i];
            assert meds[k] == r[i];
          }
        }
      }
    }
  }

  /** The list after `deleteMedication(id)`. */
  function WithoutMedication(meds: seq<Medication>, id: string): (r: seq<Medication>)
    ensures forall m :: m in r <==> m in meds && m.id != id
    ensures UniqueIds(meds) ==> UniqueIds(r)
  {
    var keep := (m: Medication) => m.id != id;
    assert UniqueIds(meds) ==> UniqueIds(Filter(meds, keep)) by {
      if UniqueIds(meds) { FilterKeepsIdsUnique(meds, keep); }
    }
    Filter(meds, keep)
  }

  /** Appending a record whose id is new keeps the ids distinct; updating and deleting keep them distinct. */
  lemma IdsStayUnique(meds: seq<Medication>, data: MedicationData, id: string, now: string, other: string)
    requires UniqueIds(meds)
    ensures (forall m :: m in meds ==> m.id != id) ==> UniqueIds(meds + [NewMedication(data, id, now)])
    ensures UniqueIds(UpdateById(meds, other, data, now))
    ensures UniqueIds(WithoutMedication(meds, other))
  {
    if forall m :: m in meds ==> m.id != id {
      var r := meds + [NewMedication(data, id, now)];
      forall i, j | 0 <= i < j < |r| ensures r[i].id != r[j].id {
        if j == |meds| { assert r[i] in meds; }
      }
    }
  }

  // ---------------------------------------------------------------------------
  // The taken-log

  /** The log after `markAsTaken`: this occurrence is taken at `actual`; every other entry is untouched. */
  function MarkTaken(log: TakenLog, medicationId: string, date: Day, time: Time, actual: Time): (r: TakenLog)
    ensures Lookup(r, medicationId, date, time) == Some(TakenEntry(true, Some(actual)))
    ensures forall m, d, t :: (m, d, t) != (medicationId, date, time) ==> Lookup(r, m, d, t) == Lookup(log, m, d, t)
  {
    var byDate := if medicationId in log then log[medicationId] else map[];
    var byTime := if date in byDate then byDate[date] else map[];
    log[medicationId := byDate[date := byTime[time := TakenEntry(true, Some(actual))]]]
  }

  /**
   * The log after `unmarkAsTaken`: an existing entry becomes "not taken" and loses its actual time;
   * when there is no entry nothing changes.
   */
  function UnmarkTaken(log: TakenLog, medicationId: string, date: Day, time: Time): (r: TakenLog)
    ensures Lookup(log, medicationId, date, time).Some? ==> Lookup(r, medicationId, date, time) == Some(TakenEntry(false, None))
    ensures Lookup(log, medicationId, date, time).None? ==> r == log
    ensures forall m, d, t :: (m, d, t) != (medicationId, date, time) ==> Lookup(r, m, d, t) == Lookup(log, m, d, t)
  {
    if Lookup(log, medicationId, date, time).Some? then
      var byDate := log[medicationId];
      var byTime := byDate[date];
      log[medicationId := byDate[date := byTime[time := TakenEntry(false, None)]]]
    else log
  }

  /** `actualTakenTime || format(new Date(), 'HH:mm')`: a missing or empty time falls back to the clock. */
  function ActualTime(actual: Option<Time>, nowTime: Time): (t: Time)
    ensures actual.Some? && actual.value != "" ==> t == actual.value
    ensures actual.None? || actual.value == "" ==> t == nowTime
  {
    if actual.Some? && actual.value != "" then actual.value else nowTime
  }

  /** Marking then unmarking leaves the occurrence not taken; marking makes it taken whatever came before. */
  lemma MarkUnmarkToggle(log: TakenLog, medicationId: string, date: Day, time: Time, actual: Time)
    ensures TakenStatus(MarkTaken(log, medicationId, date, time, actual), medicationId, date, time)
    ensures !TakenStatus(UnmarkTaken(MarkTaken(log, medicationId, date, time, actual), medicationId, date, time), medicationId, date, time)
    ensures !TakenStatus(UnmarkTaken(log, medicationId, date, time), medicationId, date, time)
    ensures MarkTaken(UnmarkTaken(log, medicationId, date, time), medicationId, date, time, actual)
            == MarkTaken(log, medicationId, date, time, actual)
  {
    var u := UnmarkTaken(log, medicationId, date, time);
    if Lookup(log, medicationId, date, time).Some? {
      var r1, r2 := MarkTaken(u, medicationId, date, time, actual), MarkTaken(log, medicationId, date, time, actual);
      assert r1.Keys == r2.Keys;
      assert r1[medicationId].Keys == r2[medicationId].Keys;
      assert r1[medicationId][date] == r2[medicationId][date];
      assert r1[medicationId] == r2[medicationId];
    }
  }

  /** Once an occurrence is marked, the day's list shows that dose as taken; other occurrences are unaffected. */
  lemma MarkedDoseShowsTaken(m: Medication, intake: Intake, log: TakenLog, rs: seq<Reschedule>, date: Day, actual: Time)
    ensures ResolveIntake(m, intake, MarkTaken(log, m.id, date, intake.time, actual), rs, date).isTaken
  {
  }

  // ---------------------------------------------------------------------------
  // Temporary reschedules

  /** Two reschedules target the same occurrence: same medication, original date and original time. */
  predicate SameSlot(a: Reschedule, b: Reschedule)
  {
    a.medicationId == b.medicationId && a.originalDate == b.originalDate && a.originalTime == b.originalTime
  }

  /** The list after `addTemporaryReschedule`: earlier moves of the same occurrence are dropped and the new one appended. */
  function ReplaceReschedule(rs: seq<Reschedule>, r: Reschedule): (out: seq<Reschedule>)
    ensures |out| >= 1 && out[|out| - 1] == r
    ensures forall x :: x in out[..|out| - 1] <==> x in rs && !SameSlot(x, r)
  {
    var kept := Filter(rs, (x: Reschedule) => !SameSlot(x, r));
    assert (kept + [r])[..|kept|] == kept;
    kept + [r]
  }

  /** After replacement the occurrence has exactly one reschedule, the new one. */
  lemma OneReschedulePerSlot(rs: seq<Reschedule>, r: Reschedule)
    ensures forall i :: 0 <= i < |ReplaceReschedule(rs, r)| && SameSlot(ReplaceReschedule(rs, r)[i], r)
                        ==> i == |ReplaceReschedule(rs, r)| - 1
  {
    var out := ReplaceReschedule(rs, r);
    forall i | 0 <= i < |out| - 1 ensures !SameSlot(out[i], r) {
      assert out[i] == out[..|out| - 1][i];
    }
  }

  /** A move made today for one of today's doses shows on today's list at the new time. */
  lemma RescheduleTakesEffect(m: Medication, intake: Intake, log: TakenLog, rs: seq<Reschedule>, today: Day, newTime: Time)
    ensures var item := ResolveIntake(m, intake, log, ReplaceReschedule(rs, Reschedule(m.id, today, intake.time, newTime, today)), today);
            item.isRescheduled && item.intake.time == newTime && item.scheduledTime == intake.time
  {
    var r := Reschedule(m.id, today, intake.time, newTime, today);
    var out := ReplaceReschedule(rs, r);
    OneReschedulePerSlot(rs, r);
    assert Applies(out[|out| - 1], m.id, today, intake.time);
    forall j | 0 <= j < |out| - 1 ensures !Applies(out[j], m.id, today, intake.time) {
      assert !SameSlot(out[j], r);
    }
  }

  /** `tempReschedules.filter(r => r.appliedDate === today)`: what the daily reset keeps. */
  function AppliedOn(rs: seq<Reschedule>, today: Day): (out: seq<Reschedule>)
    ensures forall x :: x in out <==> x in rs && x.appliedDate == today
  {
    Filter(rs, (x: Reschedule) => x.appliedDate == today)
  }

  /** Resetting twice on the same day is resetting once. */
  lemma ResetIdempotent(rs: seq<Reschedule>, today: Day)
    ensures AppliedOn(AppliedOn(rs, today), today) == AppliedOn(rs, today)
  {
    FilterIdempotent(rs, (x: Reschedule) => x.appliedDate == today);
  }

  /** Dropping reschedules that cannot apply to an occurrence does not change the one found for it. */
  lemma {:induction false} FindRescheduleFilter(rs: seq<Reschedule>, p: Reschedule -> bool, medicationId: string, date: Day, time: Time)
    requires forall x :: x in rs && Applies(x, medicationId, date, time) ==> p(x)
    ensures FindReschedule(Filter(rs, p), medicationId, date, time) == FindReschedule(rs, medicationId, date, time)
  {
    if rs != [] {
      var init, last := rs[..|rs| - 1], rs[|rs| - 1];
      assert rs == init + [last];
      FindRescheduleFilter(init, p, medicationId, date, time);
      FindRescheduleSnoc(Filter(init, p), last, medicationId, date, time);
      FindRescheduleSnoc(init, last, medicationId, date, time);
    }
  }

  lemma {:induction false} FindRescheduleSnoc(rs: seq<Reschedule>, x: Reschedule, medicationId: string, date: Day, time: Time)
    ensures FindReschedule(rs + [x], medicationId, date, time)
            == if FindReschedule(rs, medicationId, date, time).Some? then FindReschedule(rs, medicationId, date, time)
               else if Applies(x, medicationId, date, time) then Some(x) else None
  {
    if rs != [] {
      assert (rs + [x])[1..] == rs[1..] + [x];
      FindRescheduleSnoc(rs[1..], x, medicationId, date, time);
    } else {
      assert ([x])[1..] == [];
    }
  }

  lemma ResolveIntakeFilter(m: Medication, intake: Intake, log: TakenLog, rs: seq<Reschedule>, p: Reschedule -> bool, date: Day)
    requires forall x :: x in rs && x.appliedDate == date ==> p(x)
    ensures ResolveIntake(m, intake, log, Filter(rs, p), date) == ResolveIntake(m, intake, log, rs, date)
  {
    FindRescheduleFilter(rs, p, m.id, date, intake.time);
  }

  /** Every medication's items on `date` depend on the reschedules only through those that apply on `date`. */
  lemma {:induction false} UnsortedFilterReschedules(meds: seq<Medication>, log: TakenLog, rs: seq<Reschedule>, p: Reschedule -> bool, date: Day)
    requires forall x :: x in rs && x.appliedDate == date ==> p(x)
    ensures Unsorted(meds, log, Filter(rs, p), date) == Unsorted(meds, log, rs, date)
  {
    if meds != [] {
      var m := meds[|meds| - 1];
      UnsortedFilterReschedules(meds[..|meds| - 1], log, rs, p, date);
      var ns := NominalIntakes(m, date);
      var a, b := ResolveAll(m, ns, log, Filter(rs, p), date), ResolveAll(m, ns, log, rs, date);
      forall k | 0 <= k < |ns| ensures a[k] == b[k] {
        ResolveIntakeFilter(m, ns[k], log, rs, p, date);
      }
      assert a == b;
    }
  }

  /** The daily reset never changes what today's list shows. */
  lemma ResetKeepsTodaysList(meds: seq<Medication>, log: TakenLog, rs: seq<Reschedule>, today: Day)
    ensures MedicationsForDate(meds, log, AppliedOn(rs, today), today) == MedicationsForDate(meds, log, rs, today)
  {
    UnsortedFilterReschedules(meds, log, rs, (x: Reschedule) => x.appliedDate == today, today);
  }

  // ---------------------------------------------------------------------------
  // Deletion

  /** Deleting a medication leaves no item of it on any date. */
  lemma DeleteRemovesOnlyItsItems(meds: seq<Medication>, log: TakenLog, rs: seq<Reschedule>, id: string, date: Day)
    ensures forall x :: x in MedicationsForDate(WithoutMedication(meds, id), log - {id}, WithoutOwner(rs, id), date)
                        ==> x.medication.id != id
  {
    ItemsBelongToDate(WithoutMedication(meds, id), log - {id}, WithoutOwner(rs, id), date);
  }

  /** Deleting a medication leaves the items of every other medication unchanged. */
  lemma DeleteKeepsOtherItems(m: Medication, intake: Intake, log: TakenLog, rs: seq<Reschedule>, id: string, date: Day)
    requires m.id != id
    ensures ResolveIntake(m, intake, log - {id}, WithoutOwner(rs, id), date) == ResolveIntake(m, intake, log, rs, date)
  {
    FindRescheduleFilter(rs, (x: Reschedule) => x.medicationId != id, m.id, date, intake.time);
    assert Lookup(log - {id}, m.id, date, intake.time) == Lookup(log, m.id, date, intake.time);
  }

  /** Deleting a medication leaves the resolved items of any other medication unchanged, in order. */
  lemma DeleteKeepsOtherMedicationItems(m: Medication, log: TakenLog, rs: seq<Reschedule>, id: string, date: Day)
    requires m.id != id
    ensures var intakes := NominalIntakes(m, date);
            ResolveAll(m, intakes, log - {id}, WithoutOwner(rs, id), date) == ResolveAll(m, intakes, log, rs, date)
  {
    var intakes := NominalIntakes(m, date);
    forall k | 0 <= k < |intakes|
      ensures ResolveIntake(m, intakes[k], log - {id}, WithoutOwner(rs, id), date) == ResolveIntake(m, intakes[k], log, rs, date)
    {
      DeleteKeepsOtherItems(m, intakes[k], log, rs, id, date);
    }
  }

  /** A sequence with no element passing the test filters to nothing. */
  lemma FilterNone<T(!new)>(s: seq<T>, p: T -> bool)
    requires forall x :: x in s ==> !p(x)
    ensures Filter(s, p) == []
  {
    if Filter(s, p) != [] {
      assert Filter(s, p)[0] in Filter(s, p);
    }
  }

  lemma WithoutMedicationSnoc(meds: seq<Medication>, id: string)
    requires meds != []
    ensures var init, m := meds[..|meds| - 1], meds[|meds| - 1];
            WithoutMedication(meds, id)
            == if m.id == id then WithoutMedication(init, id) else WithoutMedication(init, id) + [m]
  {
  }

  lemma UnsortedAppend(meds: seq<Medication>, m: Medication, log: TakenLog, rs: seq<Reschedule>, date: Day)
    ensures Unsorted(meds + [m], log, rs, date) == Unsorted(meds, log, rs, date) + ResolveAll(m, NominalIntakes(m, date), log, rs, date)
  {
    assert (meds + [m])[..|meds + [m]| - 1] == meds;
  }

  /** The test keeping the items of every medication but `id`. */
  function NotOf(id: string): Item -> bool
  {
    (x: Item) => x.medication.id != id
  }

  lemma ResolveAllOf(m: Medication, intakes: seq<Intake>, log: TakenLog, rs: seq<Reschedule>, date: Day)
    ensures forall x :: x in ResolveAll(m, intakes, log, rs, date) ==> x.medication == m
  {
  }

  /** Appending items that all fail the test does not change the filtered list. */
  lemma FilterAppendFailing(rest: seq<Item>, more: seq<Item>, id: string)
    requires forall x :: x in more ==> x.medication.id == id
    ensures Filter(rest + more, NotOf(id)) == Filter(rest, NotOf(id))
  {
    FilterConcat(rest, more, NotOf(id));
    FilterNone(more, NotOf(id));
  }

  /** Appending items that all pass the test appends them to the filtered list. */
  lemma FilterAppendPassing(rest: seq<Item>, more: seq<Item>, id: string)
    requires forall x :: x in more ==> x.medication.id != id
    ensures Filter(rest + more, NotOf(id)) == Filter(rest, NotOf(id)) + more
  {
    FilterConcat(rest, more, NotOf(id));
    FilterKeepsAll(more, NotOf(id));
  }

  /**
   * Before sorting, the list after deleting a medication is the old list with that medication's
   * items taken out: every other item is kept, in the same order.
   */
  lemma {:induction false} DeleteFiltersUnsorted(meds: seq<Medication>, log: TakenLog, rs: seq<Reschedule>, id: string, date: Day)
    ensures Unsorted(WithoutMedication(meds, id), log - {id}, WithoutOwner(rs, id), date)
            == Filter(Unsorted(meds, log, rs, date), NotOf(id))
  {
    var log', rs' := log - {id}, WithoutOwner(rs, id);
    if meds != [] {
      var init, m := meds[..|meds| - 1], meds[|meds| - 1];
      DeleteFiltersUnsorted(init, log, rs, id, date);
      var kept := WithoutMedication(init, id);
      var rest := Unsorted(init, log, rs, date);
      var before := ResolveAll(m, NominalIntakes(m, date), log, rs, date);
      assert Unsorted(meds, log, rs, date) == rest + before;
      WithoutMedicationSnoc(meds, id);
      ResolveAllOf(m, NominalIntakes(m, date), log, rs, date);
      if m.id == id {
        calc {
          Unsorted(WithoutMedication(meds, id), log', rs', date);
          Unsorted(kept, log', rs', date);
          Filter(rest, NotOf(id));
          { FilterAppendFailing(rest, before, id); }
          Filter(rest + before, NotOf(id));
        }
      } else {
        calc {
          Unsorted(WithoutMedication(meds, id), log', rs', date);
          Unsorted(kept + [m], log', rs', date);
          { UnsortedAppend(kept, m, log', rs', date); }
          Unsorted(kept, log', rs', date) + ResolveAll(m, NominalIntakes(m, date), log', rs', date);
          { DeleteKeepsOtherMedicationItems(m, log, rs, id, date); }
          Filter(rest, NotOf(id)) + before;
          { FilterAppendPassing(rest, before, id); }
          Filter(rest + before, NotOf(id));
        }
      }
    }
  }

  /** The reschedules after `deleteMedication(id)`. */
  function WithoutOwner(rs: seq<Reschedule>, id: string): (out: seq<Reschedule>)
    ensures forall x :: x in out <==> x in rs && x.medicationId != id
  {
    Filter(rs, (x: Reschedule) => x.medicationId != id)
  }

  // ---------------------------------------------------------------------------
  // The store

  class MedicationStore {
    var medications: seq<Medication>
    var takenLog: TakenLog
    var tempReschedules: seq<Reschedule>
    var lastResetDate: Option<Day>

    /** Loading: each stored value, or the empty default when nothing is stored under its key. */
    constructor Load(storedMedications: Option<seq<Medication>>, storedLog: Option<TakenLog>,
                     storedReschedules: Option<seq<Reschedule>>, storedLastReset: Option<Day>)
      ensures medications == (if storedMedications.Some? then storedMedications.value else [])
      ensures takenLog == (if storedLog.Some? then storedLog.value else map[])
      ensures tempReschedules == (if storedReschedules.Some? then storedReschedules.value else [])
      ensures lastResetDate == storedLastReset
    {
      medications := if storedMedications.Some? then storedMedications.value else [];
      takenLog := if storedLog.Some? then storedLog.value else map[];
      tempReschedules := if storedReschedules.Some? then storedReschedules.value else [];
      lastResetDate := storedLastReset;
    }

    /** The daily reset: on the first run of a new day only today's reschedules survive. */
    method DailyReset(today: Day)
      modifies this
      ensures old(lastResetDate) == Some(today) ==> tempReschedules == old(tempReschedules)
      ensures old(lastResetDate) != Some(today) ==> tempReschedules == AppliedOn(old(tempReschedules), today)
      ensures lastResetDate == Some(today)
      ensures forall x :: x in tempReschedules ==> x in old(tempReschedules)
      ensures medications == old(medications) && takenLog == old(takenLog)
    {
      if lastResetDate != Some(today) {
        tempReschedules := AppliedOn(tempReschedules, today);
        lastResetDate := Some(today);
      }
    }

    method AddMedication(data: MedicationData, id: string, now: string)
      modifies this
      ensures medications == old(medications) + [NewMedication(data, id, now)]
      ensures UniqueIds(old(medications)) && (forall m :: m in old(medications) ==> m.id != id) ==> UniqueIds(medications)
      ensures takenLog == old(takenLog) && tempReschedules == old(tempReschedules) && lastResetDate == old(lastResetDate)
    {
      if UniqueIds(medications) { IdsStayUnique(medications, data, id, now, id); }
      medications := medications + [NewMedication(data, id, now)];
    }

    method UpdateMedication(id: string, data: MedicationData, now: string)
      modifies this
      ensures medications == UpdateById(old(medications), id, data, now)
      ensures UniqueIds(old(medications)) ==> UniqueIds(medications)
      ensures takenLog == old(takenLog) && tempReschedules == old(tempReschedules) && lastResetDate == old(lastResetDate)
    {
      if UniqueIds(medications) { IdsStayUnique(medications, data, id, now, id); }
      medications := UpdateById(medications, id, data, now);
    }

    /** Removes the medication, its whole taken-log and its reschedules. */
    method DeleteMedication(id: string)
      modifies this
      ensures medications == WithoutMedication(old(medications), id)
      ensures takenLog == old(takenLog) - {id}
      ensures tempReschedules == WithoutOwner(old(tempReschedules), id)
      ensures lastResetDate == old(lastResetDate)
      ensures (forall m :: m in medications ==> m.id != id) && id !in takenLog
      ensures forall r :: r in tempReschedules ==> r.medicationId != id
    {
      medications := WithoutMedication(medications, id);
      takenLog := takenLog - {id};
      tempReschedules := WithoutOwner(tempReschedules, id);
    }

    method MarkAsTaken(medicationId: string, date: Day, scheduledTime: Time, actualTakenTime: Option<Time>, nowTime: Time)
      modifies this
      ensures takenLog == MarkTaken(old(takenLog), medicationId, date, scheduledTime, ActualTime(actualTakenTime, nowTime))
      ensures medications == old(medications) && tempReschedules == old(tempReschedules) && lastResetDate == old(lastResetDate)
    {
      takenLog := MarkTaken(takenLog, medicationId, date, scheduledTime, ActualTime(actualTakenTime, nowTime));
    }

    method UnmarkAsTaken(medicationId: string, date: Day, scheduledTime: Time)
      modifies this
      ensures takenLog == UnmarkTaken(old(takenLog), medicationId, date, scheduledTime)
      ensures medications == old(medications) && tempReschedules == old(tempReschedules) && lastResetDate == old(lastResetDate)
    {
      takenLog := UnmarkTaken(takenLog, medicationId, date, scheduledTime);
    }

    /** `getTakenStatus`: whether the log holds a "taken" entry for the occurrence. */
    function GetTakenStatus(medicationId: string, date: Day, scheduledTime: Time): (b: bool)
      reads this
      ensures b <==> Lookup(takenLog, medicationId, date, scheduledTime).Some?
                     && Lookup(takenLog, medicationId, date, scheduledTime).value.taken
    {
      TakenStatus(takenLog, medicationId, date, scheduledTime)
    }

    /** `addTemporaryReschedule`: the move is stamped with today's date and replaces earlier moves of the occurrence. */
    method AddTemporaryReschedule(medicationId: string, originalDate: Day, originalTime: Time, newTime: Time, today: Day)
      modifies this
      ensures tempReschedules == ReplaceReschedule(old(tempReschedules), Reschedule(medicationId, originalDate, originalTime, newTime, today))
      ensures medications == old(medications) && takenLog == old(takenLog) && lastResetDate == old(lastResetDate)
    {
      tempReschedules := ReplaceReschedule(tempReschedules, Reschedule(medicationId, originalDate, originalTime, newTime, today));
    }
  }
}
