/**
 * The arithmetic of the progress panel (components/ProgressIndicator.tsx):
 * the bar's percentage, the remaining time and how it is written out, and
 * which stages are shown completed, current or pending.
 */
module Progress {
  import opened Text

  function RMin(a: real, b: real): real {
    if a <= b then a else b
  }

  /**
   * `progress`: 100 once complete; otherwise the middle of the current stage
   * as a share of all stages, held at 95. With no stages the quotient is
   * infinite and the bar shows 95.
   */
  function Percent(stage: nat, stages: nat, complete: bool): (p: real)
    ensures complete ==> p == 100.0
    ensures !complete ==> 0.0 < p <= 95.0
  {
    if complete then 100.0
    else if stages == 0 then 95.0
    else RMin((stage as real + 0.5) / (stages as real) * 100.0, 95.0)
  }

  /** Until the work is complete the bar never shows 100; a later stage never shows less. */
  lemma PercentMonotone(s1: nat, s2: nat, stages: nat, complete: bool)
    requires s1 <= s2
    ensures Percent(s1, stages, complete) <= Percent(s2, stages, complete)
    ensures !complete ==> Percent(s2, stages, complete) < Percent(s2, stages, true)
  {
    if !complete && stages > 0 {
      var n := stages as real;
      assert (s1 as real + 0.5) / n <= (s2 as real + 0.5) / n;
      assert (s1 as real + 0.5) / n * 100.0 <= (s2 as real + 0.5) / n * 100.0;
    }
  }

  /** Below the 95 mark the bar is exactly the middle of the current stage: stage i of n shows (i + 0.5) / n of the bar. */
  lemma PercentOfStage(stage: nat, stages: nat)
    requires stages > 0 && 200 * stage + 100 <= 190 * stages
    ensures Percent(stage, stages, false) == (stage as real + 0.5) / (stages as real) * 100.0
  {
    var n := stages as real;
    var q := (stage as real + 0.5) / n;
    assert q * n == stage as real + 0.5;
    assert (200 * stage + 100) as real <= (190 * stages) as real;
    assert q * 100.0 <= 95.0 by {
      assert (stage as real + 0.5) * 100.0 <= 95.0 * n;
      assert q * 100.0 * n == (stage as real + 0.5) * 100.0;
    }
  }

  /** `remainingTime`: the estimate less the elapsed time, never below 0. */
  function Remaining(estimated: int, elapsed: int): (r: nat)
    ensures r >= estimated - elapsed
    ensures r == 0 || r == estimated - elapsed
  {
    if estimated - elapsed > 0 then estimated - elapsed else 0
  }

  /** What `formatTime` writes: seconds alone below a minute; minutes, then the seconds only when there are some. */
  datatype TimeText = SecondsOnly(seconds: nat) | MinutesOnly(minutes: nat) | MinutesAndSeconds(minutes: nat, seconds: nat)

  function FormatTime(s: nat): (t: TimeText)
    ensures s < 60 <==> t.SecondsOnly?
    ensures t.MinutesAndSeconds? ==> 0 < t.seconds < 60
  {
    if s < 60 then SecondsOnly(s)
    else if s % 60 > 0 then MinutesAndSeconds(s / 60, s % 60)
    else MinutesOnly(s / 60)
  }

  /** The number of seconds a written time stands for. */
  function TotalSeconds(t: TimeText): nat {
    match t
    case SecondsOnly(s) => s
    case MinutesOnly(m) => 60 * m
    case MinutesAndSeconds(m, s) => 60 * m + s
  }

  /** Nothing is lost in writing a time out: the minutes and seconds add back up to it. */
  lemma FormatTimeRoundTrip(s: nat)
    ensures TotalSeconds(FormatTime(s)) == s
  {
    if s >= 60 {
      assert s == 60 * (s / 60) + s % 60;
    }
  }

  /** From a minute on, the seconds part is left out exactly when the time is a whole number of minutes. */
  lemma SecondsPartOmittedIff(s: nat)
    requires s >= 60
    ensures FormatTime(s).MinutesOnly? <==> s % 60 == 0
    ensures FormatTime(s).MinutesOnly? ==> FormatTime(s).minutes == s / 60
  {
  }

  const SECOND_WORD: string := "\U{062B}\U{0627}\U{0646}\U{064A}\U{0629}"
  const MINUTE_WORD: string := "\U{062F}\U{0642}\U{064A}\U{0642}\U{0629}"
  const AND_WORD: string := "\U{0648}"

  /** The text shown: the numbers in decimal with the Arabic words for 'second', 'minute' and 'and'. */
  function Render(t: TimeText): string {
    match t
    case SecondsOnly(s) => NatToString(s) + " " + SECOND_WORD
    case MinutesOnly(m) => NatToString(m) + " " + MINUTE_WORD + " "
    case MinutesAndSeconds(m, s) => NatToString(m) + " " + MINUTE_WORD + " " + AND_WORD + " " + NatToString(s) + " " + SECOND_WORD
  }

  /** The remaining time is shown only while the work runs and some time is left. */
  predicate ShowsRemaining(complete: bool, remaining: nat) {
    !complete && remaining > 0
  }

  /** The flags of one stage circle. */
  datatype StageStatus = StageStatus(isCompleted: bool, isCurrent: bool, isPending: bool)

  function StatusOf(index: nat, current: nat, complete: bool): (st: StageStatus)
    ensures complete ==> st == StageStatus(true, false, false)
  {
    StageStatus(index < current || complete, index == current && !complete, index > current && !complete)
  }

  /** While the work runs each stage is in exactly one state, decided by its place relative to the current stage. */
  lemma OneStatusWhileRunning(index: nat, current: nat)
    ensures var st := StatusOf(index, current, false);
      (st.isCompleted <==> index < current) && (st.isCurrent <==> index == current)
      && (st.isPending <==> index > current)
      && (st.isCompleted || st.isCurrent || st.isPending)
      && !(st.isCompleted && st.isCurrent) && !(st.isCompleted && st.isPending) && !(st.isCurrent && st.isPending)
  {
  }

  /** `stages.map(...)`: the flags of stages 0 to n - 1. */
  function Statuses(stages: nat, current: nat, complete: bool): (r: seq<StageStatus>)
    ensures |r| == stages
  {
    if stages == 0 then [] else Statuses(stages - 1, current, complete) + [StatusOf(stages - 1, current, complete)]
  }

  /** Circle i of the row carries the flags of stage i. */
  lemma {:induction false} StatusesAt(stages: nat, current: nat, complete: bool, i: nat)
    requires i < stages
    ensures Statuses(stages, current, complete)[i] == StatusOf(i, current, complete)
  {
    if i < stages - 1 {
      StatusesAt(stages - 1, current, complete, i);
    }
  }

  function CountCompleted(r: seq<StageStatus>): nat {
    if |r| == 0 then 0 else CountCompleted(r[..|r| - 1]) + (if r[|r| - 1].isCompleted then 1 else 0)
  }

  function CountCurrent(r: seq<StageStatus>): nat {
    if |r| == 0 then 0 else CountCurrent(r[..|r| - 1]) + (if r[|r| - 1].isCurrent then 1 else 0)
  }

  /** The stages before the current one are the completed ones while running; once complete, all are. */
  lemma {:induction false} CompletedCount(stages: nat, current: nat, complete: bool)
    ensures CountCompleted(Statuses(stages, current, complete)) == (if complete then stages else Min(current, stages))
  {
    if stages > 0 {
      CountsStep(stages, current, complete);
      CompletedCount(stages - 1, current, complete);
    }
  }

  /** One stage is current while running and the current stage is one of the stages; otherwise none is. */
  lemma {:induction false} CurrentCount(stages: nat, current: nat, complete: bool)
    ensures CountCurrent(Statuses(stages, current, complete)) == (if !complete && current < stages then 1 else 0)
  {
    if stages > 0 {
      CountsStep(stages, current, complete);
      CurrentCount(stages - 1, current, complete);
    }
  }

  /** One more stage adds its own flags to both counts. */
  lemma CountsStep(stages: nat, current: nat, complete: bool)
    requires stages > 0
    ensures var last := StatusOf(stages - 1, current, complete);
      && CountCompleted(Statuses(stages, current, complete))
        == CountCompleted(Statuses(stages - 1, current, complete)) + (if last.isCompleted then 1 else 0)
      && CountCurrent(Statuses(stages, current, complete))
        == CountCurrent(Statuses(stages - 1, current, complete)) + (if last.isCurrent then 1 else 0)
  {
    CountsOfAppend(Statuses(stages - 1, current, complete), StatusOf(stages - 1, current, complete));
  }

  lemma CountsOfAppend(init: seq<StageStatus>, last: StageStatus)
    ensures CountCompleted(init + [last]) == CountCompleted(init) + (if last.isCompleted then 1 else 0)
    ensures CountCurrent(init + [last]) == CountCurrent(init) + (if last.isCurrent then 1 else 0)
  {
    assert (init + [last])[..|init|] == init;
  }

  function Min(a: nat, b: nat): nat {
    if a <= b then a else b
  }

  /** The current stage's message is shown only while running and while the current stage is one of the stages. */
  predicate ShowsStageMessage(current: nat, stages: nat, complete: bool) {
    !complete && current < stages
  }

  /** The message is shown exactly when some stage circle is marked current. */
  lemma MessageIffSomeCurrent(current: nat, stages: nat, complete: bool)
    ensures ShowsStageMessage(current, stages, complete) <==> CountCurrent(Statuses(stages, current, complete)) == 1
  {
    CurrentCount(stages, current, complete);
  }
}
