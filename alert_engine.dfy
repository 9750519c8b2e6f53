/**
 * The dose alert of updateTimers in script.js: the status band chosen from
 * the whole seconds since the last epinephrine dose, and the one-shot latch
 * (alertLevel) that lets each band's sound fire once per dose interval.
 */
module AlertEngine {

  /** alertLevel: 0 nothing sounded, 1 the 3-minute beep sounded, 2 the 5-minute double beep sounded. */
  type Level = l: int | 0 <= l <= 2

  /** The status band: Normal below 3 minutes, Prepare ("準備給藥") from 3, Overdue ("已超過給藥時間") from 5. */
  datatype Band = Normal | Prepare | Overdue

  const PrepareAfter: int := 180
  const OverdueAfter: int := 300

  function Max(a: Level, b: Level): Level {
    if a < b then b else a
  }

  /** The latch level a band asks for, which is also the number of beeps its sound has. */
  function BandLevel(b: Band): Level {
    match b
    case Normal => 0
    case Prepare => 1
    case Overdue => 2
  }

  /** The band for medDiff seconds since the dose: the number of thresholds reached. */
  function Status(medDiff: int): (b: Band)
    ensures BandLevel(b) == (if medDiff >= PrepareAfter then 1 else 0) + (if medDiff >= OverdueAfter then 1 else 0)
  {
    if medDiff >= OverdueAfter then Overdue
    else if medDiff >= PrepareAfter then Prepare
    else Normal
  }

  /** The status text shown for a band. */
  function StatusText(b: Band): (t: string)
    ensures t == "" <==> b == Normal
  {
    match b
    case Normal => ""
    case Prepare => "準備給藥"
    case Overdue => "已超過給藥時間"
  }

  datatype AlertOutcome = AlertOutcome(level: Level, beeps: nat)

  /**
   * One sample: the band's sound (1 or 2 beeps) fires only when the latch is
   * below the band's level, and then the latch is raised to it.
   */
  function Alert(level: Level, medDiff: int): (r: AlertOutcome)
    ensures level <= r.level
    ensures r.level == Max(level, BandLevel(Status(medDiff)))
    ensures r.beeps == if level < BandLevel(Status(medDiff)) then BandLevel(Status(medDiff)) else 0
    ensures r.beeps in {0, 1, 2}
    ensures r.beeps != 0 <==> r.level != level
  {
    match Status(medDiff)
    case Overdue => if level < 2 then AlertOutcome(2, 2) else AlertOutcome(level, 0)
    case Prepare => if level < 1 then AlertOutcome(1, 1) else AlertOutcome(level, 0)
    case Normal => AlertOutcome(level, 0)
  }

  /** The outcomes of successive samples with the given seconds-since-dose, starting from a latch level. */
  function Trace(level: Level, diffs: seq<int>): (t: seq<AlertOutcome>)
    ensures |t| == |diffs|
    ensures forall i :: 0 <= i < |t| ==> level <= t[i].level && t[i].beeps <= 2
    ensures forall i :: 0 < i < |t| ==> t[i - 1].level <= t[i].level
    decreases |diffs|
  {
    if diffs == [] then []
    else
      var o := Alert(level, diffs[0]);
      [o] + Trace(o.level, diffs[1..])
  }

  /** The highest band level among the samples (0 for none). */
  function HighestBand(diffs: seq<int>): Level
    decreases |diffs|
  {
    if diffs == [] then 0 else Max(BandLevel(Status(diffs[0])), HighestBand(diffs[1..]))
  }

  lemma {:induction false} HighestBandAtLeast(diffs: seq<int>, k: nat)
    requires k < |diffs|
    ensures BandLevel(Status(diffs[k])) <= HighestBand(diffs)
  {
    if k > 0 {
      HighestBandAtLeast(diffs[1..], k - 1);
    }
  }

  /** A band level only grows with the seconds elapsed. */
  lemma StatusMonotone(d1: int, d2: int)
    requires d1 <= d2
    ensures BandLevel(Status(d1)) <= BandLevel(Status(d2))
  {
  }

  /** With samples in time order, the highest band is the last sample's. */
  lemma {:induction false} HighestBandOfSorted(diffs: seq<int>)
    requires |diffs| > 0
    requires forall i, j :: 0 <= i <= j < |diffs| ==> diffs[i] <= diffs[j]
    ensures HighestBand(diffs) == BandLevel(Status(diffs[|diffs| - 1]))
  {
    if |diffs| > 1 {
      HighestBandOfSorted(diffs[1..]);
      StatusMonotone(diffs[0], diffs[|diffs| - 1]);
    }
  }

  /**
   * Closed form of the latch: the i-th sample sees a latch equal to the
   * starting level raised by every earlier sample's band, whatever the
   * order or gaps of the samples.
   */
  lemma {:induction false} TraceAt(level: Level, diffs: seq<int>, i: nat)
    requires i < |diffs|
    ensures Trace(level, diffs)[i] == Alert(Max(level, HighestBand(diffs[..i])), diffs[i])
    decreases i
  {
    if i > 0 {
      var o := Alert(level, diffs[0]);
      TraceAt(o.level, diffs[1..], i - 1);
      assert diffs[..i][1..] == diffs[1..][..i - 1];
    }
  }

  /** The latch after all samples: the starting level raised by every sample's band. */
  lemma {:induction false} TraceFinalLevel(level: Level, diffs: seq<int>)
    requires |diffs| > 0
    ensures Trace(level, diffs)[|diffs| - 1].level == Max(level, HighestBand(diffs))
    decreases |diffs|
  {
    if |diffs| > 1 {
      TraceFinalLevel(Alert(level, diffs[0]).level, diffs[1..]);
    }
  }

  /**
   * Within one dose interval each sound fires at most once, and a later sound
   * is always the louder one: so there are at most two sounds in all.
   */
  lemma SoundsStrictlyIncrease(level: Level, diffs: seq<int>, i: nat, j: nat)
    requires i < j < |diffs|
    requires Trace(level, diffs)[i].beeps != 0 && Trace(level, diffs)[j].beeps != 0
    ensures Trace(level, diffs)[i].beeps < Trace(level, diffs)[j].beeps
  {
    TraceAt(level, diffs, i);
    TraceAt(level, diffs, j);
    HighestBandAtLeast(diffs[..j], i);
  }

  /** A sound fires at a sample exactly when its band is above every earlier one and above the starting level. */
  lemma SoundIffNewBand(level: Level, diffs: seq<int>, i: nat)
    requires i < |diffs|
    ensures Trace(level, diffs)[i].beeps != 0
        <==> level < BandLevel(Status(diffs[i])) && forall j :: 0 <= j < i ==> BandLevel(Status(diffs[j])) < BandLevel(Status(diffs[i]))
  {
    TraceAt(level, diffs, i);
    var p := diffs[..i];
    forall j | 0 <= j < i ensures BandLevel(Status(diffs[j])) <= HighestBand(p) {
      HighestBandAtLeast(p, j);
    }
    if i > 0 {
      HighestBandAttained(p);
    }
  }

  /** The highest band of a non-empty run of samples is some sample's band. */
  lemma {:induction false} HighestBandAttained(diffs: seq<int>)
    requires |diffs| > 0
    ensures exists k :: 0 <= k < |diffs| && HighestBand(diffs) == BandLevel(Status(diffs[k]))
    decreases |diffs|
  {
    if |diffs| == 1 || HighestBand(diffs) == BandLevel(Status(diffs[0])) {
      assert diffs[1..] == [] ==> HighestBand(diffs) == BandLevel(Status(diffs[0]));
    } else {
      HighestBandAttained(diffs[1..]);
      var k :| 0 <= k < |diffs| - 1 && HighestBand(diffs[1..]) == BandLevel(Status(diffs[1..][k]));
      assert HighestBand(diffs) == BandLevel(Status(diffs[k + 1]));
    }
  }

  /**
   * A delayed sampler that never samples inside 180..299 seconds never plays
   * the single beep: the level jumps straight to 2 (the `else if` branch is
   * never taken).
   */
  lemma NoWarningWithoutWarningSample(diffs: seq<int>, i: nat)
    requires i < |diffs|
    requires forall k :: 0 <= k < |diffs| ==> Status(diffs[k]) != Prepare
    ensures Trace(0, diffs)[i].beeps != 1
  {
    TraceAt(0, diffs, i);
  }

  /** Sampling once a second from 0 to 400 after a dose: one single beep at 180, one double beep at 300. */
  lemma EverySecond()
    ensures var t := Trace(0, seq(401, k => k));
      forall k :: 0 <= k < 401 ==> t[k].beeps == (if k == 180 then 1 else if k == 300 then 2 else 0)
  {
    var diffs := seq(401, k => k);
    forall k | 0 <= k < 401
      ensures Trace(0, diffs)[k].beeps == (if k == 180 then 1 else if k == 300 then 2 else 0)
    {
      TraceAt(0, diffs, k);
      if k > 0 {
        HighestBandOfSorted(diffs[..k]);
      }
    }
  }

  /** A sample at 100 s followed by one at 350 s fires only the double beep. */
  lemma SkippedSample()
    ensures Trace(0, [100, 350]) == [AlertOutcome(0, 0), AlertOutcome(2, 2)]
  {
  }
}
