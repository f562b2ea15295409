/**
 * The medication form: the validation rules a submission must pass, the dosage choices the
 * form offers, and the payload a valid submission hands to the store.
 */
module Form {
  import opened Common
  import opened Clock
  import opened Types
  import opened Sorting
  import opened Resolver
  import opened Store

  /** The characters `String.prototype.trim` removes: white space and line terminators. */
  predicate IsJsWhitespace(c: char)
  {
    || ('\t' <= c <= '\r') || c == ' ' || c == '\U{A0}' || c == '\U{1680}'
    || ('\U{2000}' <= c <= '\U{200A}') || c == '\U{2028}' || c == '\U{2029}'
    || c == '\U{202F}' || c == '\U{205F}' || c == '\U{3000}' || c == '\U{FEFF}'
  }

  /** `s` without its leading white space. */
  function TrimStart(s: string): (r: string)
    ensures |r| <= |s| && r == s[|s| - |r|..]
    ensures forall i :: 0 <= i < |s| - |r| ==> IsJsWhitespace(s[i])
    ensures r != [] ==> !IsJsWhitespace(r[0])
  {
    if s != [] && IsJsWhitespace(s[0]) then
      var r := TrimStart(s[1..]);
      assert forall i :: 1 <= i < |s| - |r| ==> s[i] == s[1..][i - 1];
      r
    else s
  }

  /** `s` without its trailing white space. */
  function TrimEnd(s: string): (r: string)
    ensures |r| <= |s| && r == s[..|r|]
    ensures forall i :: |r| <= i < |s| ==> IsJsWhitespace(s[i])
    ensures r != [] ==> !IsJsWhitespace(r[|r| - 1])
  {
    if s != [] && IsJsWhitespace(s[|s| - 1]) then
      var r := TrimEnd(s[..|s| - 1]);
      assert forall i :: |r| <= i < |s| - 1 ==> s[i] == s[..|s| - 1][i];
      r
    else s
  }

  /** `s.trim()`. */
  function Trim(s: string): string
  {
    TrimEnd(TrimStart(s))
  }

  /** A string trims to nothing exactly when all of its characters are white space. */
  lemma TrimmedEmpty(s: string)
    ensures Trim(s) == [] <==> forall i :: 0 <= i < |s| ==> IsJsWhitespace(s[i])
  {
    var t := TrimStart(s);
    if Trim(s) == [] {
      assert t == [];
    } else {
      var u := Trim(s);
      assert u[0] == t[0] == s[|s| - |t|];
    }
  }

  /** An intake entry: a "HH:MM" time, a dosage of at least 0.01, and a non-blank label for a custom unit. */
  predicate ValidIntake(i: Intake)
  {
    && ValidTime(i.time)
    && i.dosage >= 0.01
    && (i.unit != Custom || (i.customUnit.Some? && Trim(i.customUnit.value) != ""))
  }

  /** A custom unit needs a label with some character that is not white space. */
  lemma CustomUnitNeedsText(i: Intake)
    requires i.unit == Custom
    ensures ValidIntake(i) <==>
      && ValidTime(i.time) && i.dosage >= 0.01 && i.customUnit.Some?
      && exists k :: 0 <= k < |i.customUnit.value| && !IsJsWhitespace(i.customUnit.value[k])
  {
    if i.customUnit.Some? {
      TrimmedEmpty(i.customUnit.value);
    }
  }

  /** With any other unit the custom label is not looked at. */
  lemma CustomLabelIgnored(i: Intake, text: Option<string>)
    requires i.unit != Custom
    ensures ValidIntake(i.(customUnit := text)) == ValidIntake(i)
  {
  }

  /** A cycle day: a number of at least 1 and at least one valid intake. */
  predicate ValidCycleDay(c: CycleDay)
  {
    c.day >= 1 && |c.intakes| >= 1 && forall i :: i in c.intakes ==> ValidIntake(i)
  }

  predicate IsHexDigit(c: char)
  {
    ('0' <= c <= '9') || ('A' <= c <= 'F') || ('a' <= c <= 'f')
  }

  /** `#` followed by six hexadecimal digits, in either case. */
  predicate ValidColor(c: string)
  {
    |c| == 7 && c[0] == '#' && forall k :: 1 <= k < 7 ==> IsHexDigit(c[k])
  }

  /** The colour swatches the form offers. */
  const Palette: seq<string> := [
    "#FF6B6B", "#4ECDC4", "#45B7D1", "#FED766", "#2AB7CA",
    "#F0B67F", "#FE4A49", "#547980", "#8A9B0F", "#F7CAC9",
    "#92A8D1", "#FF8C94"]

  /** Every swatch passes the colour rule. */
  lemma PaletteColorsValid()
    ensures forall c :: c in Palette ==> ValidColor(c)
  {
    forall k | 0 <= k < |Palette| ensures ValidColor(Palette[k]) {
      var c := Palette[k];
      assert |c| == 7 && c[0] == '#';
      assert IsHexDigit(c[1]) && IsHexDigit(c[2]) && IsHexDigit(c[3]);
      assert IsHexDigit(c[4]) && IsHexDigit(c[5]) && IsHexDigit(c[6]);
    }
  }

  /**
   * The form's values after coercion. An optional field the form left empty is `None`;
   * a weekly entry exists only for the weekdays the form holds a list for.
   */
  datatype FormValues = FormValues(
    name: string,
    color: string,
    frequencyType: Frequency,
    notes: string,
    dailyIntakes: Option<seq<Intake>>,
    cyclicalPattern: Option<seq<CycleDay>>,
    cycleLength: Option<int>,
    cycleStartDate: Option<Day>,
    customWeeklyDosages: Option<WeeklyDosages>)

  /** The per-field rules of the form schema. */
  predicate FieldsValid(v: FormValues)
  {
    && 2 <= |v.name| <= 100
    && ValidColor(v.color)
    && |v.notes| <= 500
    && (v.dailyIntakes.Some? ==> forall i :: i in v.dailyIntakes.value ==> ValidIntake(i))
    && (v.cyclicalPattern.Some? ==> forall c :: c in v.cyclicalPattern.value ==> ValidCycleDay(c))
    && (v.cycleLength.Some? ==> v.cycleLength.value >= 1)
    && (v.customWeeklyDosages.Some? ==>
          forall w :: w in v.customWeeklyDosages.value ==>
            forall i :: i in v.customWeeklyDosages.value[w] ==> ValidIntake(i))
  }

  /** The cross-field rules: the chosen frequency kind has a rule that prescribes something. */
  predicate FrequencyComplete(v: FormValues)
  {
    && (v.frequencyType == Daily ==> v.dailyIntakes.Some? && |v.dailyIntakes.value| > 0)
    && (v.frequencyType == Cyclical ==>
          && v.cyclicalPattern.Some? && |v.cyclicalPattern.value| > 0
          && v.cycleLength.Some? && v.cycleLength.value > 0
          && v.cycleStartDate.Some?)
    && (v.frequencyType == CustomWeekly ==>
          && v.customWeeklyDosages.Some?
          && exists w :: w in v.customWeeklyDosages.value && |v.customWeeklyDosages.value[w]| > 0)
  }

  /** The schema accepts the values. */
  predicate ValidForm(v: FormValues)
  {
    FieldsValid(v) && FrequencyComplete(v)
  }

  /** The intake a new list starts with and the "Add Intake" button appends. */
  const DefaultIntake := Intake("08:00", 1.0, Pill, None)

  /** The values of a fresh form once a name has been typed. */
  function NewFormValues(name: string): FormValues
  {
    FormValues(name, Palette[0], Daily, "", Some([DefaultIntake]), Some([]), None, None,
      Some(map[Monday := [], Tuesday := [], Wednesday := [], Thursday := [], Friday := [],
               Saturday := [], Sunday := []]))
  }

  /** A fresh form is accepted exactly when its name has 2 to 100 characters. */
  lemma NewFormNeedsOnlyAName(name: string)
    ensures ValidForm(NewFormValues(name)) <==> 2 <= |name| <= 100
  {
    PaletteColorsValid();
    var t := DefaultIntake.time;
    assert IsDigit(t[0]) && IsDigit(t[1]) && t[2] == ':' && IsDigit(t[3]) && IsDigit(t[4]);
    assert ValidIntake(DefaultIntake);
  }

  /** The dosage amounts every dosage menu offers. */
  const BaseDosageValues: seq<real> := [0.25, 0.5, 0.75, 1.0, 1.25, 1.5, 1.75, 2.0, 2.5, 3.0, 4.0, 5.0]

  /** The comparator `(a, b) => a - b`, read as "a may stay before b". */
  predicate RealLe(a: real, b: real)
  {
    a - b <= 0.0
  }

  lemma RealLeTotalPreorder()
    ensures TotalPreorder(RealLe)
  {
  }

  lemma BaseDosagesDistinct()
    ensures Distinct(BaseDosageValues)
  {
  }

  lemma AppendFresh(s: seq<real>, x: real)
    requires Distinct(s) && x !in s
    ensures Distinct(s + [x])
  {
  }

  /** Sorting a list without repeats by `RealLe` orders it strictly and keeps its elements. */
  lemma SortedWithoutRepeats(s: seq<real>)
    requires Distinct(s)
    ensures forall v :: v in SortBy(s, RealLe) <==> v in s
    ensures forall i, j :: 0 <= i < j < |SortBy(s, RealLe)| ==> SortBy(s, RealLe)[i] < SortBy(s, RealLe)[j]
  {
    var r := SortBy(s, RealLe);
    RealLeTotalPreorder();
    SortBySorted(s, RealLe);
    DistinctPermutation(s, r);
    SameElements(s, r);
    StrictlyIncreasing(r);
  }

  /** An ordered sequence without repeats is strictly increasing. */
  lemma StrictlyIncreasing(r: seq<real>)
    requires SortedBy(r, RealLe) && Distinct(r)
    ensures forall i, j :: 0 <= i < j < |r| ==> r[i] < r[j]
  {
    forall i, j | 0 <= i < j < |r| ensures r[i] < r[j] {
      assert RealLe(r[i], r[j]) && r[i] != r[j];
    }
  }

  /** `Array.from(new Set([...base, current])).sort((a, b) => a - b)` for a `base` without repeats. */
  method SortedMenu(base: seq<real>, current: Option<real>) returns (options: seq<real>)
    requires Distinct(base)
    ensures forall v :: v in options <==> v in base || current == Some(v)
    ensures forall i, j :: 0 <= i < j < |options| ==> options[i] < options[j]
  {
    var inserted := base;
    if current.Some? && current.value !in inserted {
      AppendFresh(inserted, current.value);
      inserted := inserted + [current.value];
    }
    var a := new real[|inserted|](k requires 0 <= k < |inserted| => inserted[k]);
    assert a[..] == inserted;
    SortInPlace(a, RealLe);
    options := a[..];
    SortedWithoutRepeats(inserted);
  }

  /**
   * The dosage menu for an intake whose current dosage is `current`: the base amounts and the
   * current one, each once, in increasing order.
   */
  method GenerateDosageOptions(current: Option<real>) returns (options: seq<real>)
    ensures forall v :: v in options <==> v in BaseDosageValues || current == Some(v)
    ensures forall i, j :: 0 <= i < j < |options| ==> options[i] < options[j]
  {
    BaseDosagesDistinct();
    options := SortedMenu(BaseDosageValues, current);
  }

  /** An optional form value as a payload key that is always written. */
  function Carry<T>(o: Option<T>): (f: Field<T>)
    ensures f != Absent
    ensures Spread(None, f) == o
  {
    match o
    case Some(x) => Present(x)
    case None => Undefined
  }

  /**
   * The payload a submission produces: name, colour, kind and notes, plus the rule fields
   * of the chosen kind only. A cycle length of 0 is written as `undefined`.
   */
  function Submitted(v: FormValues): MedicationData
  {
    var base := MedicationData(v.name, v.color, v.frequencyType, Present(v.notes),
      Absent, Absent, Absent, Absent, Absent);
    match v.frequencyType
    case Daily => base.(dailyIntakes := Carry(v.dailyIntakes))
    case Cyclical => base.(
      cyclicalPattern := Carry(v.cyclicalPattern),
      cycleLength := if v.cycleLength.Some? && v.cycleLength.value != 0 then Present(v.cycleLength.value) else Undefined,
      cycleStartDate := Carry(v.cycleStartDate))
    case CustomWeekly => base.(customWeeklyDosages := Carry(v.customWeeklyDosages))
  }

  /** Builds the payload field by field, as the submit handler does. */
  method HandleFormSubmit(values: FormValues) returns (data: MedicationData)
    ensures data == Submitted(values)
  {
    data := MedicationData(values.name, values.color, values.frequencyType, Present(values.notes),
      Absent, Absent, Absent, Absent, Absent);
    if values.frequencyType == Daily {
      data := data.(dailyIntakes := Carry(values.dailyIntakes));
    } else if values.frequencyType == Cyclical {
      data := data.(cyclicalPattern := Carry(values.cyclicalPattern));
      if values.cycleLength.Some? && values.cycleLength.value != 0 {
        data := data.(cycleLength := Present(values.cycleLength.value));
      } else {
        data := data.(cycleLength := Undefined);
      }
      data := data.(cycleStartDate := Carry(values.cycleStartDate));
    } else {
      data := data.(customWeeklyDosages := Carry(values.customWeeklyDosages));
    }
  }

  /**
   * The payload writes the rule fields of the chosen kind and no others, so an edit keeps
   * the stored rule fields of the other kinds and replaces those of the chosen one.
   */
  lemma EditReplacesOnlyTheChosenRule(med: Medication, v: FormValues, now: string)
    ensures var m := Merge(med, Submitted(v), now);
      && (v.frequencyType == Daily <==> m.dailyIntakes != med.dailyIntakes || Submitted(v).dailyIntakes != Absent)
      && (v.frequencyType == Daily ==> m.dailyIntakes == v.dailyIntakes)
      && (v.frequencyType != Daily ==> m.dailyIntakes == med.dailyIntakes)
      && (v.frequencyType == Cyclical ==> m.cyclicalPattern == v.cyclicalPattern && m.cycleStartDate == v.cycleStartDate)
      && (v.frequencyType != Cyclical ==>
            m.cyclicalPattern == med.cyclicalPattern && m.cycleLength == med.cycleLength
            && m.cycleStartDate == med.cycleStartDate)
      && (v.frequencyType == CustomWeekly ==> m.customWeeklyDosages == v.customWeeklyDosages)
      && (v.frequencyType != CustomWeekly ==> m.customWeeklyDosages == med.customWeeklyDosages)
      && m.notes == Some(v.notes)
  {
  }

  /** An edited record is scheduled exactly like a new record made from the same submission. */
  lemma EditSchedulesAsNew(med: Medication, v: FormValues, now: string, d: Day)
    ensures NominalIntakes(Merge(med, Submitted(v), now), d)
         == NominalIntakes(NewMedication(Submitted(v), med.id, now), d)
  {
    var data := Submitted(v);
    var m1, m2 := Merge(med, data, now), NewMedication(data, med.id, now);
    match v.frequencyType
    case Daily => assert m1.dailyIntakes == m2.dailyIntakes;
    case CustomWeekly => assert m1.customWeeklyDosages == m2.customWeeklyDosages;
    case Cyclical =>
      assert m1.cyclicalPattern == m2.cyclicalPattern && m1.cycleLength == m2.cycleLength
          && m1.cycleStartDate == m2.cycleStartDate;
  }

  /** A valid daily submission prescribes its non-empty list of valid intakes on every date. */
  lemma DailySubmissionEveryDay(v: FormValues, id: string, now: string, d: Day)
    requires ValidForm(v) && v.frequencyType == Daily
    ensures var intakes := NominalIntakes(NewMedication(Submitted(v), id, now), d);
      intakes == v.dailyIntakes.value && |intakes| > 0 && forall i :: i in intakes ==> ValidIntake(i)
  {
    assert NewMedication(Submitted(v), id, now).dailyIntakes == v.dailyIntakes;
  }

  /**
   * A valid cyclical submission yields a usable rule: from the start date, day `j` of the
   * cycle gives the intakes of the pattern entry numbered `j + 1`.
   */
  lemma CyclicalSubmissionFollowsPattern(v: FormValues, id: string, now: string, j: nat)
    requires ValidForm(v) && v.frequencyType == Cyclical && j < v.cycleLength.value
    ensures var m := NewMedication(Submitted(v), id, now);
      && CyclicalConfigured(m)
      && NominalIntakes(m, v.cycleStartDate.value + j)
         == match FindCycleDay(v.cyclicalPattern.value, j + 1)
            case Some(c) => c.intakes
            case None => []
  {
    var m := NewMedication(Submitted(v), id, now);
    assert m.cyclicalPattern == v.cyclicalPattern && m.cycleLength == v.cycleLength
        && m.cycleStartDate == v.cycleStartDate;
    CyclicalDay(m, 0, j);
  }

  /** A valid weekly submission has some dose in every run of seven consecutive days. */
  lemma WeeklySubmissionEveryWeek(v: FormValues, id: string, now: string, d0: Day) returns (d: Day)
    requires ValidForm(v) && v.frequencyType == CustomWeekly
    ensures d0 <= d < d0 + 7
    ensures |NominalIntakes(NewMedication(Submitted(v), id, now), d)| > 0
  {
    var weekly := v.customWeeklyDosages.value;
    var w :| w in weekly && |weekly[w]| > 0;
    var k := WeekdayWithinAWeek(d0, w);
    d := d0 + k;
    assert NewMedication(Submitted(v), id, now).customWeeklyDosages == v.customWeeklyDosages;
  }
}
