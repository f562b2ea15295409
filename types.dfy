/**
 * The application's records: intakes, recurrence rules, medications, the taken-log,
 * temporary reschedules and the resolved dose item shown for a date.
 */
module Types {
  import opened Common
  import opened Clock

  /** The nine dosage units a form may choose. */
  datatype DosageUnit = Pill | Ml | Mg | G | Drop | Puff | Patch | Unit | Custom

  /** The stored string of a unit ("pill", "ml", ...). */
  function UnitName(u: DosageUnit): string
  {
    match u
    case Pill => "pill"
    case Ml => "ml"
    case Mg => "mg"
    case G => "g"
    case Drop => "drop"
    case Puff => "puff"
    case Patch => "patch"
    case Unit => "unit"
    case Custom => "custom"
  }

  /** One intake: a time of day, an amount and its unit (with a free label for the custom unit). */
  datatype Intake = Intake(time: Time, dosage: real, unit: DosageUnit, customUnit: Option<string>)

  /** One day of a cyclical rule, identified by its 1-based `day` number rather than its position. */
  datatype CycleDay = CycleDay(day: int, intakes: seq<Intake>)

  /** Per-weekday intakes; a weekday that is absent has no entry. */
  type WeeklyDosages = map<Weekday, seq<Intake>>

  datatype Frequency = Daily | Cyclical | CustomWeekly

  /**
   * A medication. Only the rule fields of its frequency kind are consulted; the others
   * may be present too (an edit keeps the rule fields of the kind it does not submit).
   */
  datatype Medication = Medication(
    id: string,
    name: string,
    color: string,
    frequencyType: Frequency,
    dailyIntakes: Option<seq<Intake>>,
    cyclicalPattern: Option<seq<CycleDay>>,
    cycleLength: Option<int>,
    cycleStartDate: Option<Day>,
    customWeeklyDosages: Option<WeeklyDosages>,
    notes: Option<string>,
    createdAt: string,
    updatedAt: string)

  /** What the log holds for one scheduled occurrence. */
  datatype TakenEntry = TakenEntry(taken: bool, actualTakenTime: Option<Time>)

  /** medication id -> date -> original scheduled time -> entry. */
  type TakenLog = map<string, map<Day, map<Time, TakenEntry>>>

  /** A one-off move of the dose scheduled at `originalTime` on `originalDate`, made on `appliedDate`. */
  datatype Reschedule = Reschedule(
    medicationId: string,
    originalDate: Day,
    originalTime: Time,
    newTime: Time,
    appliedDate: Day)

  /**
   * A dose due on `date`: `intake.time` is the effective (possibly rescheduled) time,
   * `scheduledTime` the original one that keys the taken-log and the reschedules.
   */
  datatype Item = Item(
    medication: Medication,
    intake: Intake,
    scheduledTime: Time,
    isTaken: bool,
    isRescheduled: bool,
    date: Day)

  /** The log entry at `log[medicationId][date][time]`, when every level is present. */
  function Lookup(log: TakenLog, medicationId: string, date: Day, time: Time): Option<TakenEntry>
  {
    if medicationId in log && date in log[medicationId] && time in log[medicationId][date]
    then Some(log[medicationId][date][time])
    else None
  }

  /** The instant of the dose at its effective time, when that time is a well-formed "HH:MM". */
  function DoseInstant(x: Item): (r: Option<int>)
    ensures r.Some? <==> ValidTime(x.intake.time)
    ensures r.Some? ==> x.date * MsPerDay <= r.value < (x.date + 1) * MsPerDay
  {
    match ParseTime(x.intake.time)
    case Some(m) => Some(Instant(x.date, m))
    case None => None
  }

  /** The dose's instant falls on a whole minute of its date, and its clock reading is the effective time. */
  lemma DoseInstantReadsEffectiveTime(x: Item)
    requires DoseInstant(x).Some?
    ensures var ms := DoseInstant(x).value - x.date * MsPerDay;
            ms % MsPerMinute == 0 && ms / MsPerMinute < MinutesPerDay
            && FormatTime(ms / MsPerMinute) == x.intake.time
  {
    ParseThenFormat(x.intake.time);
  }

  /** `log[medicationId]?.[date]?.[time]?.taken || false`. */
  function TakenStatus(log: TakenLog, medicationId: string, date: Day, time: Time): bool
  {
    match Lookup(log, medicationId, date, time)
    case Some(e) => e.taken
    case None => false
  }
}
