/**
 * The event log of script.js: the entry addLog builds, the newest-first
 * order renderLogs shows, and the plain text copyHistory exports.
 */
module EventLog {
  import opened Wrappers
  import opened TimeFormat

  datatype Category = System | Medication | Shock

  /** time is the wall-clock text (toTimeString up to its first space), elapsed the session offset. */
  datatype LogEntry = LogEntry(time: string, elapsed: string, action: string, category: Category)

  /**
   * The elapsed field of a new entry: "00:00" before the session starts,
   * otherwise '+' and a clock text that reads back as the whole seconds since
   * the start (for an entry made at or after the start).
   */
  function Elapsed(startTime: Option<int>, now: int): (e: string)
    ensures startTime.None? ==> e == "00:00"
    ensures startTime.Some? ==> |e| > 0 && e[0] == '+'
    ensures startTime.Some? && startTime.value <= now ==>
      ParseTime(e[1..]) == Some(WholeSeconds(now - startTime.value))
  {
    match startTime
    case None => "00:00"
    case Some(start) =>
      ElapsedText(WholeSeconds(now - start));
      "+" + FormatTime(WholeSeconds(now - start))
  }

  lemma ElapsedText(diff: int)
    ensures var e := "+" + FormatTime(diff);
      |e| > 0 && e[0] == '+' && (diff >= 0 ==> ParseTime(e[1..]) == Some(diff))
  {
    var e := "+" + FormatTime(diff);
    assert e[1..] == FormatTime(diff);
    if diff >= 0 {
      FormatTimeRoundTrip(diff);
    }
  }

  /** renderLogs' logs.slice().reverse(): the newest entry first, storage left as it is. */
  function DisplayOrder(logs: seq<LogEntry>): (r: seq<LogEntry>)
    ensures |r| == |logs|
    ensures forall i :: 0 <= i < |logs| ==> r[i] == logs[|logs| - 1 - i]
  {
    if logs == [] then [] else DisplayOrder(logs[1..]) + [logs[0]]
  }

  /** Showing the display order newest-first again gives storage order back. */
  lemma DisplayOrderInvolution(logs: seq<LogEntry>)
    ensures DisplayOrder(DisplayOrder(logs)) == logs
  {
  }

  /** The newly appended entry is the first one shown. */
  lemma DisplayOrderNewestFirst(logs: seq<LogEntry>, e: LogEntry)
    ensures DisplayOrder(logs + [e]) == [e] + DisplayOrder(logs)
  {
  }

  /** One exported line: "[time] (elapsed) action". */
  function Line(e: LogEntry): (l: string)
    ensures |l| == |e.time| + |e.elapsed| + |e.action| + 7
    ensures l[0] == '[' && l[1..|e.time| + 1] == e.time
    ensures l[|e.time| + 1..|e.time| + 4] == "] ("
    ensures l[|e.time| + 4..|e.time| + 4 + |e.elapsed|] == e.elapsed
    ensures l[|e.time| + 4 + |e.elapsed|..|e.time| + 6 + |e.elapsed|] == ") "
    ensures l[|l| - |e.action| - 1..|l| - 1] == e.action && l[|l| - 1] == '\n'
  {
    LineShape(e.time, e.elapsed, e.action);
    "[" + e.time + "] (" + e.elapsed + ") " + e.action + "\n"
  }

  lemma LineShape(time: string, elapsed: string, action: string)
    ensures var l := "[" + time + "] (" + elapsed + ") " + action + "\n";
      && l[1..|time| + 1] == time
      && l[|time| + 1..|time| + 4] == "] ("
      && l[|time| + 4..|time| + 4 + |elapsed|] == elapsed
      && l[|time| + 4 + |elapsed|..|time| + 6 + |elapsed|] == ") "
      && l[|l| - |action| - 1..|l| - 1] == action
  {
    var l := "[" + time + "] (" + elapsed + ") " + action + "\n";
    assert l[1..|time| + 1] == time;
    assert l[|time| + 1..|time| + 4] == "] (";
    assert l[|time| + 4..|time| + 4 + |elapsed|] == elapsed;
    assert l[|time| + 4 + |elapsed|..|time| + 6 + |elapsed|] == ") ";
    assert l[|l| - |action| - 1..|l| - 1] == action;
  }

  /** The entries' lines in storage order. */
  function Lines(logs: seq<LogEntry>): string
    decreases |logs|
  {
    if logs == [] then "" else Line(logs[0]) + Lines(logs[1..])
  }

  lemma {:induction false} LinesAppend(a: seq<LogEntry>, b: seq<LogEntry>)
    ensures Lines(a + b) == Lines(a) + Lines(b)
    decreases |a|
  {
    if a == [] {
      assert a + b == b;
    } else {
      assert (a + b)[0] == a[0] && (a + b)[1..] == a[1..] + b;
      LinesAppend(a[1..], b);
    }
  }

  /** Extending the exported prefix by one entry adds exactly that entry's line. */
  lemma LinesSnoc(logs: seq<LogEntry>, i: nat)
    requires i < |logs|
    ensures Lines(logs[..i + 1]) == Lines(logs[..i]) + Line(logs[i])
  {
    assert logs[..i + 1] == logs[..i] + [logs[i]];
    LinesAppend(logs[..i], [logs[i]]);
    assert [logs[i]][1..] == [];
  }

  const Rule: string := "------------------------\n"

  function Header(startLabel: string): string {
    "急救紀錄 (ACLS Log):\n" + ("開始時間: " + startLabel + "\n") + Rule
  }

  /** The statistics line that closes the export. */
  function Stats(shocks: nat, epiCount: nat, amioCount: nat): string {
    "統計: 電擊 " + NatToString(shocks) + " 次, Epi " + NatToString(epiCount)
      + " 次, Amio " + NatToString(amioCount) + " 次"
  }

  /** copyHistory's text: header, one line per entry in storage order, a rule, the statistics line. */
  function ExportText(startLabel: string, logs: seq<LogEntry>, shocks: nat, epiCount: nat, amioCount: nat): (t: string)
    ensures var h, st := Header(startLabel), Rule + Stats(shocks, epiCount, amioCount);
      && |t| == |h| + |Lines(logs)| + |st|
      && t[..|h|] == h
      && t[|h|..|t| - |st|] == Lines(logs)
      && t[|t| - |st|..] == st
  {
    ThreeParts(Header(startLabel), Lines(logs), Rule, Stats(shocks, epiCount, amioCount));
    Header(startLabel) + Lines(logs) + Rule + Stats(shocks, epiCount, amioCount)
  }

  lemma ThreeParts(h: string, ls: string, rule: string, stats: string)
    ensures var t, st := h + ls + rule + stats, rule + stats;
      && |t| == |h| + |ls| + |st|
      && t[..|h|] == h && t[|h|..|t| - |st|] == ls && t[|t| - |st|..] == st
  {
    var t, st := h + ls + rule + stats, rule + stats;
    assert t == h + ls + st;
  }

  /** Appending entry i's line to the text built so far gives the text for one entry more. */
  lemma ExportPrefixStep(startLabel: string, logs: seq<LogEntry>, i: nat)
    requires i < |logs|
    ensures Header(startLabel) + Lines(logs[..i + 1]) == Header(startLabel) + Lines(logs[..i]) + Line(logs[i])
  {
    LinesSnoc(logs, i);
  }

  /** Entry i's line stands between the lines of the entries before it and those after it. */
  lemma LinesAt(logs: seq<LogEntry>, i: nat)
    requires i < |logs|
    ensures Lines(logs) == Lines(logs[..i]) + (Line(logs[i]) + Lines(logs[i + 1..]))
  {
    assert logs == logs[..i] + logs[i..];
    LinesAppend(logs[..i], logs[i..]);
    assert logs[i..][0] == logs[i] && logs[i..][1..] == logs[i + 1..];
  }

  lemma LinesSingle(e: LogEntry)
    ensures Lines([e]) == Line(e)
  {
    assert [e][1..] == [];
  }

  lemma Regroup(a: string, b: string, c: string)
    ensures a + (b + c) == a + b + c
  {
  }

  /** In the export, entry i's line follows the header and the earlier entries' lines, and the statistics close the text. */
  lemma ExportEntryAt(startLabel: string, logs: seq<LogEntry>, shocks: nat, epiCount: nat, amioCount: nat, i: nat)
    requires i < |logs|
    ensures ExportText(startLabel, logs, shocks, epiCount, amioCount)
      == Header(startLabel) + Lines(logs[..i]) + Line(logs[i]) + Lines(logs[i + 1..]) + Rule + Stats(shocks, epiCount, amioCount)
  {
    var head, before, line, after := Header(startLabel), Lines(logs[..i]), Line(logs[i]), Lines(logs[i + 1..]);
    LinesAt(logs, i);
    Regroup(head, before, line + after);
    Regroup(head + before, line, after);
  }

  /** The statistics line for counts 0, 1, 0. */
  lemma StatsExample()
    ensures Stats(0, 1, 0) == "統計: 電擊 0 次, Epi 1 次, Amio 0 次"
  {
  }

  /** The line of an epinephrine entry at 10:00:00, five seconds in. */
  lemma LineExample()
    ensures Line(LogEntry("10:00:00", "+00:05", "給藥: Epinephrine", Medication)) == "[10:00:00] (+00:05) 給藥: Epinephrine\n"
  {
    assert "[" + "10:00:00" + "] (" + "+00:05" + ") " + "給藥: Epinephrine" + "\n" == "[10:00:00] (+00:05) 給藥: Epinephrine\n";
  }

  /** One epinephrine entry at 10:00:00, five seconds in, with counts 0, 1, 0. */
  lemma ExportExample(startLabel: string)
    ensures ExportText(startLabel, [LogEntry("10:00:00", "+00:05", "給藥: Epinephrine", Medication)], 0, 1, 0)
      == Header(startLabel) + "[10:00:00] (+00:05) 給藥: Epinephrine\n" + Rule + "統計: 電擊 0 次, Epi 1 次, Amio 0 次"
  {
    var e := LogEntry("10:00:00", "+00:05", "給藥: Epinephrine", Medication);
    LinesSingle(e);
    LineExample();
    StatsExample();
  }
}
