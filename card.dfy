/**
 * One dose card of the day's list: the taken toggle, the past-due test that offers a
 * reschedule, and the dosage unit label.
 */
module Card {
  import opened Common
  import opened Clock
  import opened Types
  import opened Resolver
  import opened Store
  import opened Scheduler

  /** The store call the taken button makes for an item. */
  datatype ToggleAction =
    | MarkAction(medicationId: string, date: Day, scheduledTime: Time)
    | UnmarkAction(medicationId: string, date: Day, scheduledTime: Time)

  /** The button unmarks a taken dose and marks any other, always for the item's original slot. */
  function ToggleTaken(x: Item): (a: ToggleAction)
    ensures a.UnmarkAction? <==> x.isTaken
    ensures a.medicationId == x.medication.id && a.date == x.date && a.scheduledTime == x.scheduledTime
  {
    if x.isTaken then UnmarkAction(x.medication.id, x.date, x.scheduledTime)
    else MarkAction(x.medication.id, x.date, x.scheduledTime)
  }

  /** The log once the store has carried out the action; a mark from the card records the clock time. */
  function ApplyToggle(log: TakenLog, a: ToggleAction, nowTime: Time): TakenLog
  {
    match a
    case MarkAction(id, d, t) => MarkTaken(log, id, d, t, ActualTime(None, nowTime))
    case UnmarkAction(id, d, t) => UnmarkTaken(log, id, d, t)
  }

  /**
   * Pressing the button on a card of the day's list flips that dose's taken state, leaves
   * every other dose's state alone, and pressing it again restores the first state.
   */
  lemma ToggleFlips(m: Medication, intake: Intake, log: TakenLog, rs: seq<Reschedule>, date: Day, nowTime: Time)
    ensures var x := ResolveIntake(m, intake, log, rs, date);
      var log' := ApplyToggle(log, ToggleTaken(x), nowTime);
      var y := ResolveIntake(m, intake, log', rs, date);
      && y.isTaken == !x.isTaken
      && ResolveIntake(m, intake, ApplyToggle(log', ToggleTaken(y), nowTime), rs, date).isTaken == x.isTaken
      && forall id, d, t :: (id, d, t) != (m.id, date, intake.time) ==> TakenStatus(log', id, d, t) == TakenStatus(log, id, d, t)
  {
    var x := ResolveIntake(m, intake, log, rs, date);
    var log' := ApplyToggle(log, ToggleTaken(x), nowTime);
    var y := ResolveIntake(m, intake, log', rs, date);
    var t := ActualTime(None, nowTime);
    if x.isTaken {
      MarkUnmarkToggle(log, m.id, date, intake.time, t);
      assert !y.isTaken;
      MarkedDoseShowsTaken(m, intake, log', rs, date, t);
    } else {
      MarkedDoseShowsTaken(m, intake, log, rs, date, t);
      assert y.isTaken;
      MarkUnmarkToggle(log', m.id, date, intake.time, t);
    }
  }

  /**
   * A dose of today's list that is not taken and whose effective time has passed. An effective
   * time that is not a well-formed "HH:MM" never makes a dose past due.
   */
  predicate IsPastDue(x: Item, now: int, today: Day)
  {
    x.date == today && !x.isTaken && DoseInstant(x).Some? && now > DoseInstant(x).value
  }

  /** The reschedule button is offered on today's untaken past-due cards. */
  predicate ShowsReschedule(x: Item, now: int, today: Day)
  {
    x.date == today && IsPastDue(x, now, today) && !x.isTaken
  }

  /** The button's extra conditions add nothing: it shows exactly for past-due doses. */
  lemma RescheduleShownWhenPastDue(x: Item, now: int, today: Day)
    ensures ShowsReschedule(x, now, today) <==> IsPastDue(x, now, today)
    ensures ShowsReschedule(x, now, today) ==> x.date == today && !x.isTaken && ValidTime(x.intake.time)
  {
  }

  /**
   * Every dose the notifier reports as missed is past due on its card, and a dose is past due
   * for up to a minute before that report.
   */
  lemma MissedDoseIsPastDue(x: Item, now: int, today: Day)
    ensures Overdue(x, now) && x.date == today && !x.isTaken ==> IsPastDue(x, now, today)
    ensures IsPastDue(x, now, today) && now <= DoseInstant(x).value + MissedGraceMs ==> !Overdue(x, now)
  {
  }

  /**
   * Moving a past-due dose of today to a later time today takes its card out of the past-due
   * state, and the card keeps the original slot for the taken toggle.
   */
  lemma RescheduleClearsPastDue(m: Medication, intake: Intake, log: TakenLog, rs: seq<Reschedule>,
                                today: Day, newTime: Time, now: int)
    requires ValidTime(newTime) && now <= Instant(today, ParseTime(newTime).value)
    ensures var y := ResolveIntake(m, intake, log, ReplaceReschedule(rs, Reschedule(m.id, today, intake.time, newTime, today)), today);
      !IsPastDue(y, now, today) && y.scheduledTime == intake.time
  {
    RescheduleTakesEffect(m, intake, log, rs, today, newTime);
  }

  /** The unit word: a non-empty custom label for the custom unit, the unit's own name otherwise. */
  function UnitText(i: Intake): (s: string)
    ensures i.unit == Custom && i.customUnit.Some? && i.customUnit.value != "" ==> s == i.customUnit.value
    ensures i.unit != Custom || i.customUnit.None? || i.customUnit.value == "" ==> s == UnitName(i.unit)
  {
    if i.unit == Custom && i.customUnit.Some? && i.customUnit.value != "" then i.customUnit.value
    else UnitName(i.unit)
  }

  /** The unit as the card shows it after the dosage, made plural for more than one of a countable unit. */
  function UnitLabel(i: Intake): (s: string)
    ensures i.dosage <= 1.0 || i.unit in {Ml, Mg, G} ==> s == UnitText(i)
    ensures i.dosage > 1.0 && i.unit == Patch ==> s == "patches"
    ensures i.dosage > 1.0 && i.unit in {Pill, Drop, Puff, Unit} ==> s == UnitName(i.unit) + "s"
    ensures i.dosage > 1.0 && i.unit == Custom ==> s == UnitText(i) + "s"
  {
    var suffix := if i.dosage > 1.0 && i.unit != Ml && i.unit != Mg && i.unit != G then
                    (if i.unit == Patch then "es" else "s")
                  else "";
    UnitText(i) + suffix
  }
}
