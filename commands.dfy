/**
 * The session state of script.js (the `state` object, without the interval
 * handle and the wake lock) as a value, and one function per command giving
 * the state after it. The class DrugTimer.Session updates its fields in place
 * and is proved to follow these functions.
 */
module Commands {
  import opened Wrappers
  import opened TimeFormat
  import opened AlertEngine
  import opened EventLog

  /** Anchors are instants in milliseconds; counters count doses and shocks since the session began. */
  datatype SessionState = SessionState(
    startTime: Option<int>,
    lastMedTime: Option<int>,
    alertLevel: Level,
    shocks: nat,
    epiCount: nat,
    amioCount: nat,
    logs: seq<LogEntry>)

  const Initial: SessionState := SessionState(None, None, 0, 0, 0, 0, [])

  const StartAction: string := "急救開始"
  const ResetAction: string := "--- 急救結束 (重置狀態) ---"
  const Epinephrine: string := "Epinephrine"
  const Amiodarone: string := "Amiodarone"

  /**
   * What every command keeps: nothing is counted and no dose is anchored
   * before the session starts; the dose anchor is set exactly when an
   * epinephrine dose was counted; the latch is down while no dose is anchored.
   */
  predicate Valid(s: SessionState) {
    && (s.startTime.None? ==> s.lastMedTime.None? && s.shocks == 0 && s.epiCount == 0 && s.amioCount == 0)
    && (s.lastMedTime.Some? <==> s.epiCount > 0)
    && (s.lastMedTime.None? ==> s.alertLevel == 0)
  }

  /** addLog: exactly one entry at the end, stamped with the offset from the session start. */
  function AddLog(s: SessionState, action: string, category: Category, now: int, clock: string): (t: SessionState)
    ensures |t.logs| == |s.logs| + 1 && t.logs[..|s.logs|] == s.logs
    ensures t.logs[|s.logs|] == LogEntry(clock, Elapsed(s.startTime, now), action, category)
    ensures t.(logs := s.logs) == s
    ensures Valid(s) ==> Valid(t)
  {
    s.(logs := s.logs + [LogEntry(clock, Elapsed(s.startTime, now), action, category)])
  }

  /** startSessionIfNeeded: the first action anchors the session and logs its start; later ones change nothing. */
  function StartIfNeeded(s: SessionState, now: int, clock: string): (t: SessionState)
    ensures t.startTime.Some?
    ensures s.startTime.Some? ==> t == s
    ensures s.startTime.None? ==>
      && t.startTime == Some(now)
      && t.logs == s.logs + [LogEntry(clock, "+00:00", StartAction, System)]
      && t.(startTime := s.startTime, logs := s.logs) == s
    ensures Valid(s) ==> Valid(t)
  {
    if s.startTime.Some? then s
    else
      ElapsedAtStart(now);
      AddLog(s.(startTime := Some(now)), StartAction, System, now, clock)
  }

  /** The entry logged at the very instant the session starts reads "+00:00". */
  lemma ElapsedAtStart(now: int)
    ensures Elapsed(Some(now), now) == "+00:00"
  {
  }

  lemma StartIfNeededIdempotent(s: SessionState, now: int, clock: string, later: int, laterClock: string)
    ensures StartIfNeeded(StartIfNeeded(s, now, clock), later, laterClock) == StartIfNeeded(s, now, clock)
  {
  }

  function MedicationAction(drugName: string): (a: string)
    ensures |a| == 4 + |drugName| && a[..4] == "給藥: " && a[4..] == drugName
  {
    "給藥: " + drugName
  }

  /**
   * runMedicationAction: start the session if needed; epinephrine counts a
   * dose, re-anchors the dose timer and re-arms the latch; amiodarone only
   * counts; any other name only logs. One Medication entry always follows.
   */
  function GiveMedication(s: SessionState, drugName: string, now: int, clock: string): (t: SessionState)
    ensures Valid(s) ==> Valid(t)
    ensures t.startTime == StartIfNeeded(s, now, clock).startTime && t.shocks == s.shocks
    ensures drugName == Epinephrine ==>
      t.epiCount == s.epiCount + 1 && t.lastMedTime == Some(now) && t.alertLevel == 0 && t.amioCount == s.amioCount
    ensures drugName == Amiodarone ==>
      t.amioCount == s.amioCount + 1 && t.epiCount == s.epiCount
      && t.lastMedTime == s.lastMedTime && t.alertLevel == s.alertLevel
    ensures drugName != Epinephrine && drugName != Amiodarone ==>
      t.epiCount == s.epiCount && t.amioCount == s.amioCount
      && t.lastMedTime == s.lastMedTime && t.alertLevel == s.alertLevel
    ensures t.logs == StartIfNeeded(s, now, clock).logs
      + [LogEntry(clock, Elapsed(t.startTime, now), MedicationAction(drugName), Medication)]
  {
    var u := StartIfNeeded(s, now, clock);
    var v :=
      if drugName == Epinephrine then u.(epiCount := u.epiCount + 1, lastMedTime := Some(now), alertLevel := 0)
      else if drugName == Amiodarone then u.(amioCount := u.amioCount + 1)
      else u;
    AddLog(v, MedicationAction(drugName), Medication, now, clock)
  }

  /** The dialog confirmMed shows before the dose action runs. */
  datatype Prompt = EarlyDoseWarning(sinceLast: string) | StandardConfirm(drugName: string)

  /**
   * The early-dose warning (showing the time since the last dose) comes up
   * exactly for epinephrine while the previous dose is still in the Normal
   * band; every other case gets the standard confirmation.
   */
  function DosePrompt(s: SessionState, drugName: string, now: int): (p: Prompt)
    ensures p.EarlyDoseWarning? <==>
      drugName == Epinephrine && s.lastMedTime.Some? && Status(WholeSeconds(now - s.lastMedTime.value)) == Normal
    ensures p.EarlyDoseWarning? ==> p.sinceLast == FormatTime(WholeSeconds(now - s.lastMedTime.value))
    ensures p.StandardConfirm? ==> p.drugName == drugName
  {
    if drugName == Epinephrine && s.lastMedTime.Some? && WholeSeconds(now - s.lastMedTime.value) < PrepareAfter then
      EarlyDoseWarning(FormatTime(WholeSeconds(now - s.lastMedTime.value)))
    else
      StandardConfirm(drugName)
  }

  function ShockAction(count: nat): (a: string)
    ensures |a| > 11 && a[..8] == "執行電擊 (第 " && a[|a| - 3..] == " 次)"
    ensures AllDigits(a[8..|a| - 3]) && DecimalValue(a[8..|a| - 3]) == count
  {
    var digits := NatToString(count);
    NatToStringValue(count);
    assert ("執行電擊 (第 " + digits + " 次)")[8..|digits| + 8] == digits;
    "執行電擊 (第 " + digits + " 次)"
  }

  /** The shock callback: start if needed, count the shock, log it with its number; the dose timer is untouched. */
  function GiveShock(s: SessionState, now: int, clock: string): (t: SessionState)
    ensures Valid(s) ==> Valid(t)
    ensures t.startTime == StartIfNeeded(s, now, clock).startTime
    ensures t.shocks == s.shocks + 1
    ensures t.lastMedTime == s.lastMedTime && t.alertLevel == s.alertLevel
    ensures t.epiCount == s.epiCount && t.amioCount == s.amioCount
    ensures t.logs == StartIfNeeded(s, now, clock).logs
      + [LogEntry(clock, Elapsed(t.startTime, now), ShockAction(s.shocks + 1), Shock)]
  {
    var u := StartIfNeeded(s, now, clock);
    var v := u.(shocks := u.shocks + 1);
    AddLog(v, ShockAction(v.shocks), Shock, now, clock)
  }

  /**
   * resetSession: the closing entry is stamped against the session that is
   * ending; then every anchor, the latch and every counter go back to their
   * initial values while the log is kept.
   */
  function Reset(s: SessionState, now: int, clock: string): (t: SessionState)
    ensures Valid(t)
    ensures t.(logs := []) == Initial
    ensures |t.logs| == |s.logs| + 1 && t.logs[..|s.logs|] == s.logs
    ensures t.logs[|s.logs|] == LogEntry(clock, Elapsed(s.startTime, now), ResetAction, System)
  {
    var u := AddLog(s, ResetAction, System, now, clock);
    u.(startTime := None, lastMedTime := None, alertLevel := 0, shocks := 0, epiCount := 0, amioCount := 0)
  }

  /** confirmClearHistory: the log is emptied (a no-op when it already is); nothing else changes. */
  function ClearHistory(s: SessionState): (t: SessionState)
    ensures t.logs == [] && DisplayOrder(t.logs) == []
    ensures t.(logs := s.logs) == s
    ensures Valid(s) ==> Valid(t)
  {
    if |s.logs| == 0 then s else s.(logs := [])
  }

  /** What a tick puts on screen: the whole seconds of both clocks (no dose: none) and the band. */
  datatype Display = Display(totalSeconds: int, sinceDoseSeconds: Option<int>, band: Band)

  /** The total clock's text. */
  function TotalClock(d: Display): (t: string)
    ensures d.totalSeconds >= 0 ==> ParseTime(t) == Some(d.totalSeconds)
  {
    FormatTimeRoundTrip(if d.totalSeconds >= 0 then d.totalSeconds else 0);
    FormatTime(d.totalSeconds)
  }

  /** The dose clock's text: "--:--" until a dose is given. */
  function DoseClock(d: Display): (t: string)
    ensures d.sinceDoseSeconds.None? ==> t == "--:--" && ParseTime(t) == None
    ensures d.sinceDoseSeconds.Some? && d.sinceDoseSeconds.value >= 0 ==> ParseTime(t) == Some(d.sinceDoseSeconds.value)
  {
    match d.sinceDoseSeconds
    case None => assert "--:--"[3..][0] == '-'; "--:--"
    case Some(x) => FormatTimeRoundTrip(if x >= 0 then x else 0); FormatTime(x)
  }

  datatype TickResult = TickResult(state: SessionState, beeps: nat, display: Option<Display>)

  /**
   * updateTimers: without a session nothing happens; without a dose the dose
   * clock is blank and no sound fires; otherwise the alert engine decides
   * the sound and the new latch. Only the latch ever changes, and never down.
   */
  function Tick(s: SessionState, now: int): (r: TickResult)
    ensures s.startTime.None? ==> r == TickResult(s, 0, None)
    ensures s.startTime.Some? ==> r.display.Some? && r.display.value.totalSeconds == WholeSeconds(now - s.startTime.value)
    ensures s.lastMedTime.None? ==> r.state == s && r.beeps == 0
    ensures s.startTime.Some? && s.lastMedTime.None? ==> r.display.value.sinceDoseSeconds.None? && r.display.value.band == Normal
    ensures s.startTime.Some? && s.lastMedTime.Some? ==>
      var medDiff := WholeSeconds(now - s.lastMedTime.value);
      && r.display.value.sinceDoseSeconds == Some(medDiff)
      && r.display.value.band == Status(medDiff)
      && (Status(medDiff) == Normal ==> r.state == s && r.beeps == 0)
    ensures s.startTime.Some? && s.lastMedTime.Some? ==>
      var o := Alert(s.alertLevel, WholeSeconds(now - s.lastMedTime.value));
      r.state == s.(alertLevel := o.level) && r.beeps == o.beeps
    ensures r.state.(alertLevel := s.alertLevel) == s
    ensures s.alertLevel <= r.state.alertLevel
    ensures r.beeps in {0, 1, 2} && (r.beeps != 0 <==> r.state.alertLevel != s.alertLevel)
    ensures Valid(s) ==> Valid(r.state)
  {
    match s.startTime
    case None => TickResult(s, 0, None)
    case Some(start) =>
      var total := WholeSeconds(now - start);
      match s.lastMedTime
      case None => TickResult(s, 0, Some(Display(total, None, Normal)))
      case Some(dose) =>
        var medDiff := WholeSeconds(now - dose);
        var o := Alert(s.alertLevel, medDiff);
        TickResult(s.(alertLevel := o.level), o.beeps, Some(Display(total, Some(medDiff), Status(medDiff))))
  }

  /** The sounds of ticks at the given instants, one after another. */
  function TickBeeps(s: SessionState, nows: seq<int>): (b: seq<nat>)
    ensures |b| == |nows| && forall k :: 0 <= k < |b| ==> b[k] <= 2
    decreases |nows|
  {
    if nows == [] then [] else
      var r := Tick(s, nows[0]);
      [r.beeps] + TickBeeps(r.state, nows[1..])
  }

  function SinceDose(dose: int, nows: seq<int>): (d: seq<int>)
    ensures |d| == |nows| && forall i :: 0 <= i < |nows| ==> d[i] == WholeSeconds(nows[i] - dose)
  {
    seq(|nows|, i requires 0 <= i < |nows| => WholeSeconds(nows[i] - dose))
  }

  /** With a session running and a dose anchored, the first tick is one step of the alert engine. */
  lemma TickBeepsStep(s: SessionState, nows: seq<int>)
    requires s.startTime.Some? && s.lastMedTime.Some? && nows != []
    ensures var o := Alert(s.alertLevel, WholeSeconds(nows[0] - s.lastMedTime.value));
      TickBeeps(s, nows) == [o.beeps] + TickBeeps(s.(alertLevel := o.level), nows[1..])
  {
  }

  lemma SinceDoseTail(dose: int, nows: seq<int>)
    requires nows != []
    ensures SinceDose(dose, nows[1..]) == SinceDose(dose, nows)[1..]
  {
    var rest, diffs := SinceDose(dose, nows[1..]), SinceDose(dose, nows);
    forall j | 0 <= j < |rest| ensures rest[j] == diffs[1..][j] {
      assert nows[1..][j] == nows[j + 1];
    }
  }

  /** A running session with a dose anchored sounds exactly as the alert engine's trace over the seconds since that dose. */
  lemma {:induction false} TickBeepsFollowTrace(s: SessionState, nows: seq<int>, i: nat)
    requires s.startTime.Some? && s.lastMedTime.Some? && i < |nows|
    ensures TickBeeps(s, nows)[i] == Trace(s.alertLevel, SinceDose(s.lastMedTime.value, nows))[i].beeps
    decreases i
  {
    var dose := s.lastMedTime.value;
    var diffs := SinceDose(dose, nows);
    var o := Alert(s.alertLevel, diffs[0]);
    var t := s.(alertLevel := o.level);
    TickBeepsStep(s, nows);
    assert TickBeeps(s, nows) == [o.beeps] + TickBeeps(t, nows[1..]);
    assert Trace(s.alertLevel, diffs) == [o] + Trace(o.level, diffs[1..]);
    if i > 0 {
      TickBeepsFollowTrace(t, nows[1..], i - 1);
      SinceDoseTail(dose, nows);
      assert TickBeeps(s, nows)[i] == TickBeeps(t, nows[1..])[i - 1];
      assert Trace(s.alertLevel, diffs)[i] == Trace(o.level, diffs[1..])[i - 1];
    }
  }

  /**
   * After an epinephrine dose at `dose`, whatever sounded before, ticks once a
   * second for 400 seconds give one single beep at 180 s and one double beep
   * at 300 s, and silence otherwise.
   */
  lemma EverySecondAfterDose(s: SessionState, dose: int, clock: string)
    ensures var t := GiveMedication(s, Epinephrine, dose, clock);
      var b := TickBeeps(t, seq(401, k => dose + 1000 * k));
      forall k :: 0 <= k < 401 ==> b[k] == (if k == 180 then 1 else if k == 300 then 2 else 0)
  {
    var t := GiveMedication(s, Epinephrine, dose, clock);
    assert t.startTime.Some? && t.lastMedTime == Some(dose) && t.alertLevel == 0;
    var nows := seq(401, k => dose + 1000 * k);
    var diffs := seq(401, k => k);
    forall k | 0 <= k < 401 ensures SinceDose(dose, nows)[k] == diffs[k] {
      assert nows[k] - dose == 1000 * k;
    }
    assert SinceDose(dose, nows) == diffs;
    EverySecond();
    forall k | 0 <= k < 401
      ensures TickBeeps(t, nows)[k] == (if k == 180 then 1 else if k == 300 then 2 else 0)
    {
      TickBeepsFollowTrace(t, nows, k);
    }
  }

  /** A sampler delayed from 100 s straight to 350 s after a dose fires only the double beep. */
  lemma SkippedSampleAfterDose(s: SessionState, dose: int, clock: string)
    ensures var t := GiveMedication(s, Epinephrine, dose, clock);
      TickBeeps(t, [dose + 100000, dose + 350000]) == [0, 2]
  {
  }

  /** The text copyHistory builds, or nothing when the log is empty. */
  function Export(s: SessionState, startLocale: string): (r: Option<string>)
    ensures r.None? <==> |s.logs| == 0
  {
    if |s.logs| == 0 then None
    else Some(ExportText(if s.startTime.Some? then startLocale else "N/A", s.logs, s.shocks, s.epiCount, s.amioCount))
  }
}
