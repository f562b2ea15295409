/**
 * The notification engine (`useNotificationScheduler`). Each reconciliation pass clears the
 * pending timers and walks today's items: a taken dose forgets its notification keys; an
 * untaken one gets a pre-dose reminder timer ten minutes before its effective time and a
 * missed-dose alert, shown at once when the grace minute is over or set on a timer otherwise.
 * The set of shown keys keeps a notification from being shown twice.
 * Instants are milliseconds; the wall clock (`now`, `today`) is a parameter.
 */
module Scheduler {
  import opened Common
  import opened Clock
  import opened Types
  import opened Resolver

  const PreDoseLeadMs: int := 10 * MsPerMinute
  const MissedGraceMs: int := MsPerMinute

  datatype Kind = PreDose | MissedDose

  /** The notification key `${medicationId}-${date}-${scheduledTime}-${type}`, kept as its parts. */
  datatype NotificationKey = NotificationKey(medicationId: string, date: Day, scheduledTime: Time, kind: Kind)

  /** A notification as shown: its tag, the medication's name and the dose's dosage, unit and effective time. */
  datatype Alert = Alert(key: NotificationKey, medicationName: string, dosage: real, unit: DosageUnit, time: Time)

  /** A pending `setTimeout` that will try to show `alert` after `delay` ms. */
  datatype Timer = Timer(alert: Alert, delay: int)

  datatype Permission = Default | Granted | Denied

  /** What a pass reads and writes: the pending timers, the shown keys and the notifications shown so far. */
  datatype PassState = PassState(timers: seq<Timer>, shown: set<NotificationKey>, alerts: seq<Alert>)

  /** The key of an item's notification of `kind`: original time, not effective time. */
  function KeyOf(x: Item, kind: Kind): NotificationKey
  {
    NotificationKey(x.medication.id, x.date, x.scheduledTime, kind)
  }

  function AlertOf(x: Item, kind: Kind): (a: Alert)
    ensures a.key == KeyOf(x, kind) && a.time == x.intake.time
  {
    Alert(KeyOf(x, kind), x.medication.name, x.intake.dosage, x.intake.unit, x.intake.time)
  }

  /** The grace minute after the dose is over: `isPast(addMinutes(scheduled, 1))`. */
  predicate Overdue(x: Item, now: int)
  {
    DoseInstant(x).Some? && DoseInstant(x).value + MissedGraceMs < now
  }

  /** What the pass does for one item (the body of `medicationsToday.forEach`). */
  function Step(st: PassState, x: Item, now: int, today: Day): PassState
  {
    if x.date != today then st
    else if x.isTaken then st.(shown := st.shown - {KeyOf(x, PreDose), KeyOf(x, MissedDose)})
    else match DoseInstant(x)
      case None => st
      case Some(inst) =>
        var st1 := if KeyOf(x, PreDose) !in st.shown && inst - PreDoseLeadMs > now
                   then st.(timers := st.timers + [Timer(AlertOf(x, PreDose), inst - PreDoseLeadMs - now)])
                   else st;
        if KeyOf(x, MissedDose) in st1.shown then st1
        else if inst + MissedGraceMs < now then
          st1.(shown := st1.shown + {KeyOf(x, MissedDose)}, alerts := st1.alerts + [AlertOf(x, MissedDose)])
        else if inst + MissedGraceMs - now > 0 then
          st1.(timers := st1.timers + [Timer(AlertOf(x, MissedDose), inst + MissedGraceMs - now)])
        else st1
  }

  /** The items processed in order. */
  function Pass(st: PassState, items: seq<Item>, now: int, today: Day): PassState
  {
    if items == [] then st
    else Step(Pass(st, items[..|items| - 1], now, today), items[|items| - 1], now, today)
  }

  /** A reconciliation: all pending timers are cleared; without permission nothing else happens. */
  function Reconciled(st: PassState, items: seq<Item>, permission: Permission, now: int, today: Day): PassState
  {
    if permission != Granted then st.(timers := [])
    else Pass(st.(timers := []), items, now, today)
  }

  // ---------------------------------------------------------------------------
  // What one pass schedules and shows

  /** A pass only appends to the notifications shown, and never schedules without permission. */
  lemma {:induction false} PassAppendsAlerts(st: PassState, items: seq<Item>, now: int, today: Day)
    ensures |Pass(st, items, now, today).alerts| >= |st.alerts|
    ensures Pass(st, items, now, today).alerts[..|st.alerts|] == st.alerts
    ensures |Pass(st, items, now, today).timers| >= |st.timers|
    ensures Pass(st, items, now, today).timers[..|st.timers|] == st.timers
  {
    if items != [] {
      PassAppendsAlerts(st, items[..|items| - 1], now, today);
    }
  }

  /** Without permission a reconciliation only cancels: nothing is scheduled, shown or forgotten. */
  lemma NoPermissionNoEffect(st: PassState, items: seq<Item>, permission: Permission, now: int, today: Day)
    requires permission != Granted
    ensures Reconciled(st, items, permission, now, today) == PassState([], st.shown, st.alerts)
  {
  }

  /** A pre-dose reminder is due ten minutes before an untaken dose of today, strictly in the future. */
  ghost predicate PreDoseTimerFor(t: Timer, x: Item, now: int, today: Day)
  {
    && t.alert == AlertOf(x, PreDose) && x.date == today && !x.isTaken && DoseInstant(x).Some?
    && t.delay == DoseInstant(x).value - PreDoseLeadMs - now && t.delay > 0
  }

  /** A missed-dose timer is due one minute after an untaken dose of today, strictly in the future. */
  ghost predicate MissedTimerFor(t: Timer, x: Item, now: int, today: Day)
  {
    && t.alert == AlertOf(x, MissedDose) && x.date == today && !x.isTaken && DoseInstant(x).Some?
    && t.delay == DoseInstant(x).value + MissedGraceMs - now && t.delay > 0
  }

  /** The timer is the pre-dose or the missed-dose timer of one of the items. */
  ghost predicate TimerJustified(t: Timer, items: seq<Item>, now: int, today: Day)
  {
    exists x :: x in items && (PreDoseTimerFor(t, x, now, today) || MissedTimerFor(t, x, now, today))
  }

  /** Every timer a pass sets belongs to an untaken dose of today and fires in the future at the right offset. */
  lemma {:induction false} PassTimersAreJustified(st: PassState, items: seq<Item>, now: int, today: Day)
    ensures forall k :: |st.timers| <= k < |Pass(st, items, now, today).timers| ==>
              TimerJustified(Pass(st, items, now, today).timers[k], items, now, today)
  {
    if items != [] {
      var init, x := items[..|items| - 1], items[|items| - 1];
      PassTimersAreJustified(st, init, now, today);
      PassAppendsAlerts(st, init, now, today);
      var s0, s1 := Pass(st, init, now, today), Pass(st, items, now, today);
      forall k | |st.timers| <= k < |s1.timers| ensures TimerJustified(s1.timers[k], items, now, today) {
        if k < |s0.timers| {
          assert s1.timers[k] == s0.timers[k];
          var y :| y in init && (PreDoseTimerFor(s0.timers[k], y, now, today) || MissedTimerFor(s0.timers[k], y, now, today));
          assert y in items;
        } else {
          assert PreDoseTimerFor(s1.timers[k], x, now, today) || MissedTimerFor(s1.timers[k], x, now, today);
        }
      }
    }
  }

  /** A reconciliation cancels every earlier timer, so each timer pending afterwards was set by that pass. */
  lemma ReconcileLeavesOnlyFreshTimers(st: PassState, items: seq<Item>, permission: Permission, now: int, today: Day)
    ensures forall t :: t in Reconciled(st, items, permission, now, today).timers ==> TimerJustified(t, items, now, today)
  {
    if permission == Granted {
      var r := Reconciled(st, items, permission, now, today);
      PassTimersAreJustified(st.(timers := []), items, now, today);
      forall t | t in r.timers ensures TimerJustified(t, items, now, today) {
        var k :| 0 <= k < |r.timers| && r.timers[k] == t;
      }
    }
  }

  /** The reminder and the missed-dose notification of one dose have different keys. */
  lemma KindsHaveDistinctKeys(x: Item)
    ensures KeyOf(x, PreDose) != KeyOf(x, MissedDose)
    ensures KeyOf(x, PreDose).scheduledTime == KeyOf(x, MissedDose).scheduledTime == x.scheduledTime
  {
  }

  /** The alert is the missed-dose alert of an overdue, untaken dose of today among the items. */
  ghost predicate AlertJustified(a: Alert, items: seq<Item>, now: int, today: Day)
  {
    exists x :: x in items && x.date == today && !x.isTaken && Overdue(x, now) && a == AlertOf(x, MissedDose)
  }

  /** Every notification a pass shows at once is the missed-dose alert of an overdue, untaken dose of today. */
  lemma {:induction false} PassAlertsAreOverdue(st: PassState, items: seq<Item>, now: int, today: Day)
    ensures forall k :: |st.alerts| <= k < |Pass(st, items, now, today).alerts| ==>
              AlertJustified(Pass(st, items, now, today).alerts[k], items, now, today)
  {
    if items != [] {
      var init, x := items[..|items| - 1], items[|items| - 1];
      PassAlertsAreOverdue(st, init, now, today);
      PassAppendsAlerts(st, init, now, today);
      var s0, s1 := Pass(st, init, now, today), Pass(st, items, now, today);
      forall k | |st.alerts| <= k < |s1.alerts| ensures AlertJustified(s1.alerts[k], items, now, today) {
        if k < |s0.alerts| {
          assert s1.alerts[k] == s0.alerts[k];
          var y :| y in init && y.date == today && !y.isTaken && Overdue(y, now) && s0.alerts[k] == AlertOf(y, MissedDose);
          assert y in items;
        } else {
          assert s1.alerts[k] == AlertOf(x, MissedDose);
        }
      }
    }
  }

  // ---------------------------------------------------------------------------
  // What one pass is bound to do

  /** No item of the list with this key is recorded as taken. */
  ghost predicate KeyUntaken(items: seq<Item>, key: NotificationKey)
  {
    forall y :: y in items && KeyOf(y, key.kind) == key ==> !y.isTaken
  }

  /**
   * How a pass changes the shown keys: a key it adds is a missed-dose key whose notification
   * it showed, and a key it forgets belongs to a taken dose among the items.
   */
  lemma {:induction false} PassKeyChanges(st: PassState, items: seq<Item>, now: int, today: Day)
    ensures var p := Pass(st, items, now, today);
            forall key :: key in p.shown && key !in st.shown ==>
              key.kind == MissedDose && exists k :: |st.alerts| <= k < |p.alerts| && p.alerts[k].key == key
    ensures forall key :: key in st.shown && KeyUntaken(items, key) ==> key in Pass(st, items, now, today).shown
  {
    if items != [] {
      var init, x := items[..|items| - 1], items[|items| - 1];
      assert forall y :: y in init ==> y in items;
      PassKeyChanges(st, init, now, today);
      PassAppendsAlerts(st, init, now, today);
      var s0 := Pass(st, init, now, today);
      var s1 := Step(s0, x, now, today);
      assert s1.alerts[..|s0.alerts|] == s0.alerts;
      forall key | key in s1.shown && key !in st.shown
        ensures key.kind == MissedDose && exists k :: |st.alerts| <= k < |s1.alerts| && s1.alerts[k].key == key
      {
        if key in s0.shown {
          var k :| |st.alerts| <= k < |s0.alerts| && s0.alerts[k].key == key;
          assert s1.alerts[k] == s0.alerts[k];
        } else {
          assert s1.alerts[|s1.alerts| - 1].key == key;
        }
      }
    }
  }

  /** Under consistent items, an untaken dose's keys are untaken. */
  lemma UntakenDoseKey(items: seq<Item>, x: Item, kind: Kind)
    requires KeyConsistent(items) && x in items && !x.isTaken
    ensures KeyUntaken(items, KeyOf(x, kind))
  {
    forall y | y in items && KeyOf(y, kind) == KeyOf(x, kind) ensures !y.isTaken {
      assert KeyOf(y, MissedDose) == KeyOf(x, MissedDose);
    }
  }

  /**
   * A pass notifies every untaken dose of today that is more than a minute overdue, unless its
   * missed-dose key was already shown before the pass. (Doses sharing a key share one notification.)
   */
  lemma {:induction false} PassAlertsEveryOverdueDose(st: PassState, items: seq<Item>, now: int, today: Day)
    ensures var p := Pass(st, items, now, today);
            forall x :: x in items && x.date == today && !x.isTaken && Overdue(x, now) && KeyOf(x, MissedDose) !in st.shown ==>
              exists k :: |st.alerts| <= k < |p.alerts| && p.alerts[k].key == KeyOf(x, MissedDose)
  {
    if items != [] {
      var init, x := items[..|items| - 1], items[|items| - 1];
      PassAlertsEveryOverdueDose(st, init, now, today);
      PassAppendsAlerts(st, init, now, today);
      PassKeyChanges(st, init, now, today);
      var s0 := Pass(st, init, now, today);
      var s1 := Step(s0, x, now, today);
      assert s1 == Pass(st, items, now, today);
      assert s1.alerts[..|s0.alerts|] == s0.alerts;
      forall y | y in items && y.date == today && !y.isTaken && Overdue(y, now) && KeyOf(y, MissedDose) !in st.shown
        ensures exists k :: |st.alerts| <= k < |s1.alerts| && s1.alerts[k].key == KeyOf(y, MissedDose)
      {
        if y in init {
          var k :| |st.alerts| <= k < |s0.alerts| && s0.alerts[k].key == KeyOf(y, MissedDose);
          assert s1.alerts[k] == s0.alerts[k];
        } else if KeyOf(x, MissedDose) in s0.shown {
          var k :| |st.alerts| <= k < |s0.alerts| && s0.alerts[k].key == KeyOf(x, MissedDose);
          assert s1.alerts[k] == s0.alerts[k];
        } else {
          assert s1.alerts[|s1.alerts| - 1] == AlertOf(y, MissedDose);
        }
      }
    }
  }

  /**
   * A pass sets the reminder timer of every untaken dose of today whose reminder instant, ten
   * minutes before the dose, is still ahead and whose pre-dose key is not shown.
   */
  lemma {:induction false} PassSetsPreDoseTimers(st: PassState, items: seq<Item>, now: int, today: Day)
    ensures var p := Pass(st, items, now, today);
            forall x :: x in items && x.date == today && !x.isTaken && DoseInstant(x).Some?
                        && DoseInstant(x).value - PreDoseLeadMs > now && KeyOf(x, PreDose) !in st.shown ==>
              Timer(AlertOf(x, PreDose), DoseInstant(x).value - PreDoseLeadMs - now) in p.timers
  {
    if items != [] {
      var init, x := items[..|items| - 1], items[|items| - 1];
      PassSetsPreDoseTimers(st, init, now, today);
      PassKeyChanges(st, init, now, today);
      var s0 := Pass(st, init, now, today);
      var s1 := Step(s0, x, now, today);
      assert s1 == Pass(st, items, now, today);
      assert forall t :: t in s0.timers ==> t in s1.timers;
    }
  }

  /**
   * A pass sets the missed-dose timer of every untaken dose of today whose grace minute is still
   * ahead and whose missed-dose key is not shown, unless a dose with the same key was notified at
   * once during the pass.
   */
  lemma {:induction false} PassSetsMissedTimers(st: PassState, items: seq<Item>, now: int, today: Day)
    ensures var p := Pass(st, items, now, today);
            forall x :: x in items && x.date == today && !x.isTaken && DoseInstant(x).Some?
                        && DoseInstant(x).value + MissedGraceMs - now > 0 && KeyOf(x, MissedDose) !in st.shown ==>
              || Timer(AlertOf(x, MissedDose), DoseInstant(x).value + MissedGraceMs - now) in p.timers
              || exists k :: |st.alerts| <= k < |p.alerts| && p.alerts[k].key == KeyOf(x, MissedDose)
  {
    if items != [] {
      var init, x := items[..|items| - 1], items[|items| - 1];
      PassSetsMissedTimers(st, init, now, today);
      PassAppendsAlerts(st, init, now, today);
      PassKeyChanges(st, init, now, today);
      var s0 := Pass(st, init, now, today);
      var s1 := Step(s0, x, now, today);
      assert s1 == Pass(st, items, now, today);
      assert s1.alerts[..|s0.alerts|] == s0.alerts;
      assert forall t :: t in s0.timers ==> t in s1.timers;
      forall y | y in items && y.date == today && !y.isTaken && DoseInstant(y).Some?
                 && DoseInstant(y).value + MissedGraceMs - now > 0 && KeyOf(y, MissedDose) !in st.shown
        ensures || Timer(AlertOf(y, MissedDose), DoseInstant(y).value + MissedGraceMs - now) in s1.timers
                || exists k :: |st.alerts| <= k < |s1.alerts| && s1.alerts[k].key == KeyOf(y, MissedDose)
      {
        if y in init {
          if Timer(AlertOf(y, MissedDose), DoseInstant(y).value + MissedGraceMs - now) !in s0.timers {
            var k :| |st.alerts| <= k < |s0.alerts| && s0.alerts[k].key == KeyOf(y, MissedDose);
            assert s1.alerts[k] == s0.alerts[k];
          }
        } else if KeyOf(x, MissedDose) in s0.shown {
          var k :| |st.alerts| <= k < |s0.alerts| && s0.alerts[k].key == KeyOf(x, MissedDose);
          assert s1.alerts[k] == s0.alerts[k];
        }
      }
    }
  }

  // ---------------------------------------------------------------------------
  // Re-running a pass shows nothing new

  /** Items that share a notification key agree on whether the dose was taken. */
  ghost predicate KeyConsistent(items: seq<Item>)
  {
    forall x, y :: x in items && y in items && KeyOf(x, MissedDose) == KeyOf(y, MissedDose) ==> x.isTaken == y.isTaken
  }

  /** The shown keys already reflect the items: taken doses have none, overdue untaken doses have their missed key. */
  ghost predicate Settled(shown: set<NotificationKey>, items: seq<Item>, now: int, today: Day)
  {
    forall x :: x in items && x.date == today ==>
      && (x.isTaken ==> KeyOf(x, PreDose) !in shown && KeyOf(x, MissedDose) !in shown)
      && (!x.isTaken && Overdue(x, now) ==> KeyOf(x, MissedDose) in shown)
  }

  /** After a pass the shown keys are settled for its items. */
  lemma {:induction false} PassSettles(st: PassState, items: seq<Item>, now: int, today: Day)
    requires KeyConsistent(items)
    ensures Settled(Pass(st, items, now, today).shown, items, now, today)
  {
    if items != [] {
      var init, x := items[..|items| - 1], items[|items| - 1];
      assert forall y :: y in init ==> y in items;
      PassSettles(st, init, now, today);
      var s0 := Pass(st, init, now, today);
      var s1 := Step(s0, x, now, today);
      forall y | y in items && y.date == today
        ensures y.isTaken ==> KeyOf(y, PreDose) !in s1.shown && KeyOf(y, MissedDose) !in s1.shown
        ensures !y.isTaken && Overdue(y, now) ==> KeyOf(y, MissedDose) in s1.shown
      {
        if y != x {
          assert y in init;
          if KeyOf(y, MissedDose) == KeyOf(x, MissedDose) {
            assert KeyOf(y, PreDose) == KeyOf(x, PreDose);
          }
        }
      }
    }
  }

  /**
   * With consistent items, every notification a pass shows has a key that was not shown before
   * the pass and is still shown after it.
   */
  lemma {:induction false} PassAlertsAreFresh(st: PassState, items: seq<Item>, now: int, today: Day)
    requires KeyConsistent(items)
    ensures var p := Pass(st, items, now, today);
            forall i :: |st.alerts| <= i < |p.alerts| ==> p.alerts[i].key !in st.shown && p.alerts[i].key in p.shown
  {
    if items != [] {
      var init, x := items[..|items| - 1], items[|items| - 1];
      assert forall y :: y in init ==> y in items;
      PassAlertsAreFresh(st, init, now, today);
      PassAppendsAlerts(st, init, now, today);
      var s0 := Pass(st, init, now, today);
      var s1 := Step(s0, x, now, today);
      assert s1 == Pass(st, items, now, today);
      assert s1.alerts[..|s0.alerts|] == s0.alerts;
      if x.date == today && x.isTaken {
        PassAlertsAreOverdue(st, init, now, today);
        forall i | |st.alerts| <= i < |s0.alerts| ensures s0.alerts[i].key != KeyOf(x, MissedDose) {
          assert AlertJustified(s0.alerts[i], init, now, today);
          var y :| y in init && y.date == today && !y.isTaken && Overdue(y, now) && s0.alerts[i] == AlertOf(y, MissedDose);
        }
      } else if x.date == today {
        PassKeyChanges(st, init, now, today);
        UntakenDoseKey(items, x, MissedDose);
      }
    }
  }

  /** With consistent items, the notifications one pass shows have pairwise different keys. */
  lemma {:induction false} PassAlertKeysDistinct(st: PassState, items: seq<Item>, now: int, today: Day)
    requires KeyConsistent(items)
    ensures var p := Pass(st, items, now, today);
            forall i, j :: |st.alerts| <= i < j < |p.alerts| ==> p.alerts[i].key != p.alerts[j].key
  {
    if items != [] {
      var init, x := items[..|items| - 1], items[|items| - 1];
      assert forall y :: y in init ==> y in items;
      PassAlertKeysDistinct(st, init, now, today);
      PassAlertsAreFresh(st, init, now, today);
      PassAppendsAlerts(st, init, now, today);
      var s0 := Pass(st, init, now, today);
      var s1 := Step(s0, x, now, today);
      assert s1 == Pass(st, items, now, today);
      assert s1.alerts[..|s0.alerts|] == s0.alerts;
    }
  }

  /** With consistent items, every timer a pass sets is for a key that was not shown before the pass. */
  lemma {:induction false} PassTimersAreFresh(st: PassState, items: seq<Item>, now: int, today: Day)
    requires KeyConsistent(items)
    ensures var p := Pass(st, items, now, today);
            forall k :: |st.timers| <= k < |p.timers| ==> p.timers[k].alert.key !in st.shown
  {
    if items != [] {
      var init, x := items[..|items| - 1], items[|items| - 1];
      assert forall y :: y in init ==> y in items;
      PassTimersAreFresh(st, init, now, today);
      PassAppendsAlerts(st, init, now, today);
      var s0 := Pass(st, init, now, today);
      var s1 := Step(s0, x, now, today);
      assert s1 == Pass(st, items, now, today);
      assert s1.timers[..|s0.timers|] == s0.timers;
      if x.date == today && !x.isTaken {
        PassKeyChanges(st, init, now, today);
        UntakenDoseKey(items, x, PreDose);
        UntakenDoseKey(items, x, MissedDose);
      }
    }
  }

  /** A pass over settled keys shows nothing and changes no key. */
  lemma {:induction false} PassOnSettledIsQuiet(st: PassState, items: seq<Item>, now: int, today: Day)
    requires Settled(st.shown, items, now, today)
    ensures Pass(st, items, now, today).shown == st.shown
    ensures Pass(st, items, now, today).alerts == st.alerts
  {
    if items != [] {
      var init := items[..|items| - 1];
      assert forall y :: y in init ==> y in items;
      PassOnSettledIsQuiet(st, init, now, today);
    }
  }

  /** Reconciling again with the same items at the same instant shows no notification twice. */
  lemma ReconcileIdempotent(st: PassState, items: seq<Item>, permission: Permission, now: int, today: Day)
    requires KeyConsistent(items)
    ensures var s1 := Reconciled(st, items, permission, now, today);
            var s2 := Reconciled(s1, items, permission, now, today);
            s2.shown == s1.shown && s2.alerts == s1.alerts
  {
    if permission == Granted {
      var s1 := Pass(st.(timers := []), items, now, today);
      PassSettles(st.(timers := []), items, now, today);
      PassOnSettledIsQuiet(s1.(timers := []), items, now, today);
    }
  }

  /** The day's list always meets the consistency condition: the taken state is looked up by the key's own parts. */
  lemma ResolvedItemsAreConsistent(meds: seq<Medication>, log: TakenLog, rs: seq<Reschedule>, date: Day)
    ensures KeyConsistent(MedicationsForDate(meds, log, rs, date))
  {
    var items := MedicationsForDate(meds, log, rs, date);
    forall x | x in items ensures x.isTaken == TakenStatus(log, x.medication.id, x.date, x.scheduledTime) {
      ItemsForDateMembership(meds, log, rs, date, x);
    }
  }

  // ---------------------------------------------------------------------------
  // Timers firing

  /**
   * A timer firing: the alert is shown only if the live log does not record the dose as taken
   * and its key has not been shown meanwhile.
   */
  function Fire(st: PassState, t: Timer, liveLog: TakenLog): (r: PassState)
    ensures r.timers == st.timers
    ensures r.shown == st.shown + (if r.alerts == st.alerts then {} else {t.alert.key})
    ensures r.alerts != st.alerts <==>
              !TakenStatus(liveLog, t.alert.key.medicationId, t.alert.key.date, t.alert.key.scheduledTime)
              && t.alert.key !in st.shown
    ensures r.alerts != st.alerts ==> r.alerts == st.alerts + [t.alert]
  {
    var key := t.alert.key;
    if !TakenStatus(liveLog, key.medicationId, key.date, key.scheduledTime) && key !in st.shown
    then st.(shown := st.shown + {key}, alerts := st.alerts + [t.alert])
    else st
  }

  /** Timers firing one after another. */
  function FireAll(st: PassState, ts: seq<Timer>, liveLog: TakenLog): PassState
  {
    if ts == [] then st
    else Fire(FireAll(st, ts[..|ts| - 1], liveLog), ts[|ts| - 1], liveLog)
  }

  /**
   * However many timers fire (two doses with the same key give two timers), each key is shown
   * at most once, never if it was shown before, and never for a dose the live log records as taken.
   */
  lemma {:induction false} FiringNeverRepeats(st: PassState, ts: seq<Timer>, liveLog: TakenLog)
    ensures var r := FireAll(st, ts, liveLog);
            && |r.alerts| >= |st.alerts| && r.alerts[..|st.alerts|] == st.alerts && st.shown <= r.shown
            && (forall i, j :: |st.alerts| <= i < j < |r.alerts| ==> r.alerts[i].key != r.alerts[j].key)
            && (forall i :: |st.alerts| <= i < |r.alerts| ==> r.alerts[i].key !in st.shown && r.alerts[i].key in r.shown)
            && (forall i :: |st.alerts| <= i < |r.alerts| ==>
                  !TakenStatus(liveLog, r.alerts[i].key.medicationId, r.alerts[i].key.date, r.alerts[i].key.scheduledTime))
  {
    if ts != [] {
      var s0 := FireAll(st, ts[..|ts| - 1], liveLog);
      FiringNeverRepeats(st, ts[..|ts| - 1], liveLog);
      var r := Fire(s0, ts[|ts| - 1], liveLog);
      assert s0.shown <= r.shown;
      if r.alerts != s0.alerts {
        forall i | |st.alerts| <= i < |s0.alerts| ensures r.alerts[i].key != ts[|ts| - 1].alert.key {
          assert s0.alerts[i].key in s0.shown;
        }
      }
    }
  }

  // ---------------------------------------------------------------------------
  // The hook's state

  class NotificationScheduler {
    var permission: Permission
    var timers: seq<Timer>
    var shown: set<NotificationKey>
    /** The notifications shown so far, oldest first. */
    var alerts: seq<Alert>

    function State(): PassState
      reads this
    {
      PassState(timers, shown, alerts)
    }

    constructor ()
      ensures permission == Default && timers == [] && shown == {} && alerts == []
    {
      permission := Default;
      timers := [];
      shown := {};
      alerts := [];
    }

    /** The permission effect: a browser that already granted keeps it; otherwise the user's answer is recorded. */
    method RequestPermission(current: Permission, answer: Permission)
      modifies this
      ensures permission == (if current == Granted then Granted else answer)
      ensures State() == old(State())
    {
      if current != Granted {
        permission := answer;
      } else {
        permission := current;
      }
    }

    /** The scheduling effect, run whenever today's items, the log or the permission change. */
    method Reconcile(items: seq<Item>, now: int, today: Day)
      modifies this
      ensures State() == Reconciled(old(State()), items, permission, now, today)
      ensures permission == old(permission)
    {
      timers := [];
      if permission != Granted {
        return;
      }
      ghost var start := State();
      for i := 0 to |items|
        invariant State() == Pass(start, items[..i], now, today)
        invariant permission == old(permission)
      {
        var item := items[i];
        assert items[..i + 1][..i] == items[..i];
        if item.date != today {
          continue;
        }
        var preKey := KeyOf(item, PreDose);
        var missedKey := KeyOf(item, MissedDose);
        if item.isTaken {
          shown := shown - {preKey, missedKey};
          continue;
        }
        var instant := DoseInstant(item);
        if instant.None? {
          continue;
        }
        var scheduled := instant.value;
        if preKey !in shown {
          var preDoseTime := scheduled - PreDoseLeadMs;
          if preDoseTime > now {
            timers := timers + [Timer(AlertOf(item, PreDose), preDoseTime - now)];
          }
        }
        if missedKey !in shown {
          var threshold := scheduled + MissedGraceMs;
          if threshold < now {
            alerts := alerts + [AlertOf(item, MissedDose)];
            shown := shown + {missedKey};
          } else {
            var delay := threshold - now;
            if delay > 0 {
              timers := timers + [Timer(AlertOf(item, MissedDose), delay)];
            }
          }
        }
      }
      assert items[..|items|] == items;
    }

    /** The `k`-th pending timer fires, reading the taken-log as stored at that moment. */
    method FireTimer(k: nat, liveLog: TakenLog)
      requires k < |timers|
      modifies this
      ensures var fired := Fire(old(State()), old(timers[k]), liveLog);
              shown == fired.shown && alerts == fired.alerts
      ensures timers == old(timers[..k] + timers[k + 1..])
      ensures permission == old(permission)
    {
      var t := timers[k];
      var key := t.alert.key;
      var stillNotTaken := !TakenStatus(liveLog, key.medicationId, key.date, key.scheduledTime);
      if stillNotTaken && key !in shown {
        alerts := alerts + [t.alert];
        shown := shown + {key};
      }
      timers := timers[..k] + timers[k + 1..];
    }

    /** Unmounting: every pending timer is cancelled. */
    method Shutdown()
      modifies this
      ensures timers == [] && shown == old(shown) && alerts == old(alerts) && permission == old(permission)
    {
      timers := [];
    }

    /** The daily tracker reset: on a new day the shown keys are forgotten; the stored date becomes today. */
    method ResetShown(storedLastReset: Option<Day>, today: Day) returns (stored: Option<Day>)
      modifies this
      ensures storedLastReset != Some(today) ==> shown == {}
      ensures storedLastReset == Some(today) ==> shown == old(shown)
      ensures stored == Some(today)
      ensures timers == old(timers) && alerts == old(alerts) && permission == old(permission)
    {
      if storedLastReset != Some(today) {
        shown := {};
      }
      stored := Some(today);
    }
  }
}
