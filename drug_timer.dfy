/**
 * The session object of script.js: the `state` fields updated in place by
 * the commands and by the 1 Hz tick. Each method mirrors its source function
 * step by step and is proved to leave the state the matching function of
 * module Commands gives.
 */
module DrugTimer {
  import opened Wrappers
  import opened TimeFormat
  import opened AlertEngine
  import opened EventLog
  import Commands

  class Session {
    var startTime: Option<int>
    var lastMedTime: Option<int>
    var alertLevel: Level
    var shocks: nat
    var epiCount: nat
    var amioCount: nat
    var logs: seq<LogEntry>

    /** The fields as a value. */
    function Snapshot(): Commands.SessionState
      reads this
    {
      Commands.SessionState(startTime, lastMedTime, alertLevel, shocks, epiCount, amioCount, logs)
    }

    ghost predicate Valid()
      reads this
    {
      Commands.Valid(Snapshot())
    }

    constructor ()
      ensures Valid() && Snapshot() == Commands.Initial
    {
      startTime, lastMedTime, alertLevel := None, None, 0;
      shocks, epiCount, amioCount := 0, 0, 0;
      logs := [];
    }

    /** addLog; `clock` is the wall-clock text of `now`. */
    method AddLog(action: string, category: Category, now: int, clock: string)
      requires Valid()
      modifies this`logs
      ensures Valid()
      ensures Snapshot() == Commands.AddLog(old(Snapshot()), action, category, now, clock)
    {
      var elapsed := "00:00";
      if startTime.Some? {
        var diff := WholeSeconds(now - startTime.value);
        elapsed := "+" + FormatTime(diff);
      }
      logs := logs + [LogEntry(clock, elapsed, action, category)];
    }

    method StartSessionIfNeeded(now: int, clock: string)
      requires Valid()
      modifies this`startTime, this`logs
      ensures Valid()
      ensures Snapshot() == Commands.StartIfNeeded(old(Snapshot()), now, clock)
    {
      if startTime.None? {
        startTime := Some(now);
        AddLog(Commands.StartAction, System, now, clock);
      }
    }

    /** updateTimers: returns the number of beeps to play and what the screen shows (rendered by Commands.TotalClock and Commands.DoseClock). */
    method Tick(now: int) returns (beeps: nat, display: Option<Commands.Display>)
      requires Valid()
      modifies this`alertLevel
      ensures Valid()
      ensures var r := Commands.Tick(old(Snapshot()), now);
        Snapshot() == r.state && beeps == r.beeps && display == r.display
    {
      beeps, display := 0, None;
      if startTime.None? {
        return;
      }
      var totalDiff := WholeSeconds(now - startTime.value);
      if lastMedTime.Some? {
        var medDiff := WholeSeconds(now - lastMedTime.value);
        if medDiff >= OverdueAfter {
          if alertLevel < 2 {
            beeps := 2;
            alertLevel := 2;
          }
        } else if medDiff >= PrepareAfter {
          if alertLevel < 1 {
            beeps := 1;
            alertLevel := 1;
          }
        }
        display := Some(Commands.Display(totalDiff, Some(medDiff), Status(medDiff)));
      } else {
        display := Some(Commands.Display(totalDiff, None, Normal));
      }
    }

    /** runMedicationAction. */
    method RunMedicationAction(drugName: string, now: int, clock: string)
      requires Valid()
      modifies this
      ensures Valid()
      ensures Snapshot() == Commands.GiveMedication(old(Snapshot()), drugName, now, clock)
    {
      StartSessionIfNeeded(now, clock);
      ghost var started := Snapshot();
      if drugName == Commands.Epinephrine {
        epiCount := epiCount + 1;
        lastMedTime := Some(now);
        alertLevel := 0;
        assert Snapshot() == started.(epiCount := started.epiCount + 1, lastMedTime := Some(now), alertLevel := 0);
      } else if drugName == Commands.Amiodarone {
        amioCount := amioCount + 1;
        assert Snapshot() == started.(amioCount := started.amioCount + 1);
      }
      AddLog(Commands.MedicationAction(drugName), Medication, now, clock);
    }

    /**
     * confirmMed with its dialog accepted: the prompt is chosen at
     * `promptNow`, the dose action runs at `actionNow`, and it is the same
     * action whichever prompt was shown.
     */
    method ConfirmMed(drugName: string, promptNow: int, actionNow: int, clock: string) returns (prompt: Commands.Prompt)
      requires Valid()
      modifies this
      ensures Valid()
      ensures prompt == Commands.DosePrompt(old(Snapshot()), drugName, promptNow)
      ensures Snapshot() == Commands.GiveMedication(old(Snapshot()), drugName, actionNow, clock)
    {
      ghost var before := Snapshot();
      if drugName == Commands.Epinephrine && lastMedTime.Some? {
        var diff := WholeSeconds(promptNow - lastMedTime.value);
        if diff < PrepareAfter {
          prompt := Commands.EarlyDoseWarning(FormatTime(diff));
          assert prompt == Commands.DosePrompt(before, drugName, promptNow);
          RunMedicationAction(drugName, actionNow, clock);
          return;
        }
      }
      prompt := Commands.StandardConfirm(drugName);
      assert prompt == Commands.DosePrompt(before, drugName, promptNow);
      RunMedicationAction(drugName, actionNow, clock);
    }

    /** The callback of confirmShock. */
    method ConfirmShock(now: int, clock: string)
      requires Valid()
      modifies this
      ensures Valid()
      ensures Snapshot() == Commands.GiveShock(old(Snapshot()), now, clock)
    {
      StartSessionIfNeeded(now, clock);
      shocks := shocks + 1;
      AddLog(Commands.ShockAction(shocks), Shock, now, clock);
    }

    method ResetSession(now: int, clock: string)
      requires Valid()
      modifies this
      ensures Valid()
      ensures Snapshot() == Commands.Reset(old(Snapshot()), now, clock)
    {
      AddLog(Commands.ResetAction, System, now, clock);
      startTime := None;
      lastMedTime := None;
      alertLevel := 0;
      shocks := 0;
      epiCount := 0;
      amioCount := 0;
    }

    /** confirmClearHistory with its dialog accepted. */
    method ConfirmClearHistory()
      requires Valid()
      modifies this`logs
      ensures Valid()
      ensures Snapshot() == Commands.ClearHistory(old(Snapshot()))
    {
      if |logs| == 0 {
        return;
      }
      logs := [];
    }

    /**
     * The text copyHistory puts on the clipboard, built line by line;
     * `startLocale` is the locale text of the start time.
     */
    method CopyHistory(startLocale: string) returns (text: Option<string>)
      ensures text == Commands.Export(Snapshot(), startLocale)
    {
      var entries := logs;
      if |entries| == 0 {
        return None;
      }
      var startLabel := if startTime.Some? then startLocale else "N/A";
      var t := "急救紀錄 (ACLS Log):\n";
      t := t + ("開始時間: " + startLabel + "\n");
      t := t + "------------------------\n";
      assert t == Header(startLabel);
      var i := 0;
      while i < |entries|
        invariant 0 <= i <= |entries|
        invariant t == Header(startLabel) + Lines(entries[..i])
      {
        var log := entries[i];
        t := t + ("[" + log.time + "] (" + log.elapsed + ") " + log.action + "\n");
        ExportPrefixStep(startLabel, entries, i);
        i := i + 1;
      }
      assert entries[..i] == entries;
      t := t + "------------------------\n";
      t := t + ("統計: 電擊 " + NatToString(shocks) + " 次, Epi " + NatToString(epiCount)
        + " 次, Amio " + NatToString(amioCount) + " 次");
      text := Some(t);
    }
  }
}
