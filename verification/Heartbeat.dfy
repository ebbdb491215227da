// startGroupAlgoProgress: a goroutine that logs on every tick, and a stop function that waits for it to exit, but
// not for ever. Steps of the goroutine, the ticker, the context and any number of stop calls interleave freely.
module Heartbeat {
  import opened Wrappers

  // Where the goroutine is: at its select, about to re-check the stop signals, about to write a line, about to
  // close `exited`, or gone.
  datatype Phase = Selecting | Rechecking | Logging | Leaving | Gone

  // A progress line: the wall time it covers, the CPU seconds it attributes to that time, and, as history the
  // program does not keep, since when those were really spent and whether this tick's reading succeeded.
  datatype Line = Line(from: int, to: int, cpu: Option<int>, cpuFrom: int, read: bool)

  // `now` is the time of the tick being handled. lastCpu and cpuAt are the last CPU reading and when it was taken;
  // cpuAt is history, which the program does not keep.
  datatype State = State(done: bool, cancelled: bool, exited: bool, pending: Option<int>, phase: Phase, now: int,
                         lastWall: int, lastCpu: Option<int>, cpuAt: int, lines: seq<Line>)

  // reading: the CPU time, or None if it cannot be read.
  datatype Step = Tick(at: int) | Cancel | Stop | StopSawExit | StopGaveUp
                | SelectStop | SelectTick | Recheck | Write(reading: Option<int>) | Exit

  function Start(at: int, reading: Option<int>): State {
    State(false, false, false, None, Selecting, at, at, reading, at, [])
  }

  // A stop signal is set.
  predicate Stopped(s: State) {
    s.done || s.cancelled
  }

  predicate Enabled(s: State, step: Step) {
    match step
    case Tick(_) | Cancel | Stop => true
    case StopSawExit => s.done && s.exited
    case StopGaveUp => s.done
    case SelectStop => s.phase.Selecting? && Stopped(s)
    case SelectTick => s.phase.Selecting? && s.pending.Some?
    case Recheck => s.phase.Rechecking?
    case Write(_) => s.phase.Logging?
    case Exit => s.phase.Leaving?
  }

  // The CPU time of a line: only if there is a baseline, the clock advanced and the difference is not negative.
  function CpuOf(s: State, reading: Option<int>): Option<int> {
    if reading.Some? && s.lastCpu.Some? && s.now > s.lastWall && reading.value >= s.lastCpu.value
    then Some(reading.value - s.lastCpu.value) else None
  }

  function Apply(s: State, step: Step): State
    requires Enabled(s, step)
  {
    match step
    case Tick(at) => if s.pending.None? then s.(pending := Some(at)) else s
    case Cancel => s.(cancelled := true)
    case Stop => s.(done := true)
    case StopSawExit | StopGaveUp => s
    case SelectStop => s.(phase := Leaving)
    case SelectTick => s.(phase := Rechecking, now := s.pending.value, pending := None)
    case Recheck => s.(phase := if Stopped(s) then Leaving else Logging)
    case Write(reading) =>
      s.(phase := Selecting, lines := s.lines + [Line(s.lastWall, s.now, CpuOf(s, reading), s.cpuAt, reading.Some?)],
         lastCpu := if reading.Some? then reading else s.lastCpu,
         cpuAt := if reading.Some? then s.now else s.cpuAt,
         lastWall := s.now)
    case Exit => s.(phase := Gone, exited := true)
  }

  predicate Runs(s: State, steps: seq<Step>)
    decreases |steps|
  {
    steps == [] || (Enabled(s, steps[0]) && Runs(Apply(s, steps[0]), steps[1..]))
  }

  function After(s: State, steps: seq<Step>): State
    requires Runs(s, steps)
    decreases |steps|
  {
    if steps == [] then s else After(Apply(s, steps[0]), steps[1..])
  }

  predicate IsWrite(step: Step) {
    step.Write?
  }

  function Count(p: Step -> bool, steps: seq<Step>): nat
    decreases |steps|
  {
    if steps == [] then 0 else (if p(steps[0]) then 1 else 0) + Count(p, steps[1..])
  }

  function Writes(steps: seq<Step>): nat {
    Count(IsWrite, steps)
  }

  // ---------------------------------------------------------------------------------------------
  // The barrier.

  predicate Inv(s: State) {
    s.exited <==> s.phase.Gone?
  }

  lemma {:induction false} InvRun(s: State, steps: seq<Step>)
    requires Inv(s) && Runs(s, steps)
    ensures Inv(After(s, steps))
    decreases |steps|
  {
    if steps != [] {
      InvRun(Apply(s, steps[0]), steps[1..]);
    }
  }

  // Once stopped, a line can follow only if one was about to be written, and then only that one.
  lemma {:induction false} AtMostOneLate(s: State, steps: seq<Step>)
    requires Runs(s, steps) && Stopped(s)
    ensures Writes(steps) <= if s.phase.Logging? then 1 else 0
    decreases |steps|
  {
    if steps != [] {
      AtMostOneLate(Apply(s, steps[0]), steps[1..]);
    }
  }

  // The exact condition: after a stop signal a line can still follow if and only if the signal came between the
  // re-check and the write.
  lemma LateLineIff(s: State)
    requires Stopped(s)
    ensures (exists steps :: Runs(s, steps) && Writes(steps) > 0) <==> s.phase.Logging?
  {
    if steps :| Runs(s, steps) && Writes(steps) > 0 {
      AtMostOneLate(s, steps);
    }
    if s.phase.Logging? {
      var steps := [Write(None)];
      assert steps[1..] == [];
      assert Runs(s, steps) && Writes(steps) == 1;
    }
  }

  // The barrier: no line follows a stop that saw the goroutine exit.
  lemma {:induction false} NoLineAfterBarrier(s: State, steps: seq<Step>)
    requires Inv(s) && Enabled(s, StopSawExit) && Runs(Apply(s, StopSawExit), steps)
    ensures Writes(steps) == 0
  {
    AtMostOneLate(s, steps);
  }

  // And so it is in every run from the start.
  lemma NoLineOnceSeenGone(at: int, reading: Option<int>, before: seq<Step>, steps: seq<Step>)
    requires Runs(Start(at, reading), before) && Enabled(After(Start(at, reading), before), StopSawExit)
    requires Runs(After(Start(at, reading), before), steps)
    ensures After(After(Start(at, reading), before), steps).lines == After(Start(at, reading), before).lines
  {
    var s := After(Start(at, reading), before);
    InvRun(Start(at, reading), before);
    GoneWritesNothing(s, steps);
  }

  lemma {:induction false} GoneWritesNothing(s: State, steps: seq<Step>)
    requires s.phase.Gone? && Runs(s, steps)
    ensures After(s, steps).lines == s.lines
    decreases |steps|
  {
    if steps != [] {
      GoneWritesNothing(Apply(s, steps[0]), steps[1..]);
    }
  }

  // A stop that gave up is not a barrier: this run writes a line after one returned.
  function LateRun(later: int): seq<Step> {
    [Tick(later), SelectTick, Recheck, Stop, StopGaveUp, Write(None)]
  }

  lemma LineAfterGivingUp(at: int, later: int, reading: Option<int>)
    ensures Runs(Start(at, reading), LateRun(later)) && |After(Start(at, reading), LateRun(later)).lines| == 1
  {
    var s0 := Start(at, reading);
    var steps := LateRun(later);
    var s1 := Apply(s0, steps[0]);
    var s2 := Apply(s1, steps[1]);
    var s3 := Apply(s2, steps[2]);
    var s4 := Apply(s3, steps[3]);
    var s5 := Apply(s4, steps[4]);
    var s6 := Apply(s5, steps[5]);
    RunsFrom(s5, steps[5], []);
    RunsFrom(s4, steps[4], [steps[5]]);
    RunsFrom(s3, steps[3], [steps[4], steps[5]]);
    RunsFrom(s2, steps[2], [steps[3], steps[4], steps[5]]);
    RunsFrom(s1, steps[1], [steps[2], steps[3], steps[4], steps[5]]);
    RunsFrom(s0, steps[0], [steps[1], steps[2], steps[3], steps[4], steps[5]]);
  }

  lemma RunsFrom(s: State, step: Step, rest: seq<Step>)
    requires Enabled(s, step) && Runs(Apply(s, step), rest)
    ensures Runs(s, [step] + rest) && After(s, [step] + rest) == After(Apply(s, step), rest)
  {
    assert ([step] + rest)[1..] == rest;
  }

  predicate IsStop(step: Step) {
    step.Stop? || step.StopSawExit? || step.StopGaveUp?
  }

  // The steps of a run other than those of its stoppers.
  function Others(steps: seq<Step>): seq<Step> {
    if steps == [] then []
    else if IsStop(steps[0]) then Others(steps[1..])
    else [steps[0]] + Others(steps[1..])
  }

  // Once stopped, however often and whenever others stop it again, and whether they see the exit or give up:
  // the run is the same without them.
  lemma {:induction false} StopAgain(s: State, steps: seq<Step>)
    requires s.done && Runs(s, steps)
    ensures Runs(s, Others(steps)) && After(s, Others(steps)) == After(s, steps)
    decreases |steps|
  {
    if steps != [] {
      var t := Apply(s, steps[0]);
      StopAgain(t, steps[1..]);
      if !IsStop(steps[0]) {
        RunsFrom(s, steps[0], Others(steps[1..]));
      }
    }
  }

  // ---------------------------------------------------------------------------------------------
  // The goroutine does exit.

  predicate IsOwn(step: Step) {
    step.SelectStop? || step.SelectTick? || step.Recheck? || step.Write? || step.Exit?
  }

  function Left(ph: Phase): nat {
    match ph
    case Logging => 4 case Selecting => 3 case Rechecking => 2 case Leaving => 1 case Gone => 0
  }

  // Once stopped, the goroutine takes at most four more steps of its own.
  lemma {:induction false} ExitsSoon(s: State, steps: seq<Step>)
    requires Runs(s, steps) && Stopped(s)
    ensures Count(IsOwn, steps) + Left(After(s, steps).phase) <= Left(s.phase)
    decreases |steps|
  {
    if steps != [] {
      ExitsSoon(Apply(s, steps[0]), steps[1..]);
    }
  }

  // And until it is gone, it can always take one.
  lemma NeverStuck(s: State) returns (step: Step)
    requires Stopped(s) && !s.phase.Gone?
    ensures IsOwn(step) && Enabled(s, step)
  {
    step := match s.phase
      case Selecting => SelectStop
      case Rechecking => Recheck
      case Logging => Write(None)
      case _ => Exit;
  }

  // ---------------------------------------------------------------------------------------------
  // What is reported.

  predicate IsTaken(step: Step) {
    step.SelectTick?
  }

  function InHand(ph: Phase): nat {
    if ph.Rechecking? || ph.Logging? then 1 else 0
  }

  // The re-check drops no legitimate line: while no stop signal is set, every tick taken becomes a line.
  lemma {:induction false} EveryTickIsALine(s: State, steps: seq<Step>)
    requires Runs(s, steps) && !Stopped(After(s, steps)) && !s.phase.Leaving? && !s.phase.Gone?
    ensures |After(s, steps).lines| + InHand(After(s, steps).phase) ==
      |s.lines| + InHand(s.phase) + Count(IsTaken, steps)
    decreases |steps|
  {
    if steps != [] {
      if Stopped(Apply(s, steps[0])) {
        StopIsForever(Apply(s, steps[0]), steps[1..]);
      }
      EveryTickIsALine(Apply(s, steps[0]), steps[1..]);
    }
  }

  lemma {:induction false} StopIsForever(s: State, steps: seq<Step>)
    requires Runs(s, steps) && Stopped(s)
    ensures Stopped(After(s, steps))
    decreases |steps|
  {
    if steps != [] {
      StopIsForever(Apply(s, steps[0]), steps[1..]);
    }
  }

  // The lines' intervals tile the time from the start to the last line.
  predicate Tiles(at: int, s: State) {
    && (s.lines == [] ==> s.lastWall == at)
    && (s.lines != [] ==> s.lines[0].from == at && s.lines[|s.lines| - 1].to == s.lastWall)
    && forall i :: 0 < i < |s.lines| ==> s.lines[i].from == s.lines[i - 1].to
  }

  lemma {:induction false} LinesTile(at: int, s: State, steps: seq<Step>)
    requires Tiles(at, s) && Runs(s, steps)
    ensures Tiles(at, After(s, steps))
    decreases |steps|
  {
    if steps != [] {
      StepTiles(at, s, steps[0]);
      LinesTile(at, Apply(s, steps[0]), steps[1..]);
    }
  }

  // Since when the CPU time of each line was spent: since the end of the last line whose reading succeeded.
  predicate Windows(at: int, s: State) {
    && (s.lines == [] ==> s.cpuAt == at)
    && (s.lines != [] ==>
         && s.lines[0].cpuFrom == at
         && var last := s.lines[|s.lines| - 1]; s.cpuAt == if last.read then last.to else last.cpuFrom)
    && forall i :: 0 < i < |s.lines| ==>
         s.lines[i].cpuFrom == if s.lines[i - 1].read then s.lines[i - 1].to else s.lines[i - 1].cpuFrom
  }

  lemma {:induction false} LinesHaveWindows(at: int, s: State, steps: seq<Step>)
    requires Windows(at, s) && Tiles(at, s) && Runs(s, steps)
    ensures Windows(at, After(s, steps))
    decreases |steps|
  {
    if steps != [] {
      StepWindows(at, s, steps[0]);
      StepTiles(at, s, steps[0]);
      LinesHaveWindows(at, Apply(s, steps[0]), steps[1..]);
    }
  }

  lemma StepWindows(at: int, s: State, step: Step)
    requires Windows(at, s) && Tiles(at, s) && Enabled(s, step)
    ensures Windows(at, Apply(s, step))
  {
  }

  lemma StepTiles(at: int, s: State, step: Step)
    requires Tiles(at, s) && Enabled(s, step)
    ensures Tiles(at, Apply(s, step))
  {
  }

  lemma {:induction false} WindowStartsEarly(at: int, s: State, i: nat)
    requires Windows(at, s) && Tiles(at, s) && i < |s.lines|
    requires forall j :: 0 <= j < |s.lines| ==> s.lines[j].from < s.lines[j].to
    ensures s.lines[i].cpuFrom <= s.lines[i].from
  {
    if i > 0 {
      WindowStartsEarly(at, s, i - 1);
    }
  }

  // ---------------------------------------------------------------------------------------------
  // The CPU time the lines report, against the process's CPU clock: clock(x) is the CPU time used up to x.

  // Every reading that succeeds is of that clock.
  predicate Honest(clock: int -> int, s: State, steps: seq<Step>)
    requires Runs(s, steps)
    decreases |steps|
  {
    steps == [] ||
    ((steps[0].Write? && steps[0].reading.Some? ==> steps[0].reading.value == clock(s.now))
     && Honest(clock, Apply(s, steps[0]), steps[1..]))
  }

  // The baseline was read when cpuAt says, and each line reports what was used from cpuFrom to its end.
  predicate Charges(clock: int -> int, s: State) {
    && (s.lastCpu.Some? ==> s.lastCpu.value == clock(s.cpuAt))
    && forall i :: 0 <= i < |s.lines| && s.lines[i].cpu.Some? ==>
         s.lines[i].cpu.value == clock(s.lines[i].to) - clock(s.lines[i].cpuFrom)
  }

  lemma {:induction false} LinesCharge(clock: int -> int, s: State, steps: seq<Step>)
    requires Charges(clock, s) && Runs(s, steps) && Honest(clock, s, steps)
    ensures Charges(clock, After(s, steps))
    decreases |steps|
  {
    if steps != [] {
      LinesCharge(clock, Apply(s, steps[0]), steps[1..]);
    }
  }

  // The process uses some CPU time between a and b.
  predicate Increasing(clock: int -> int, a: int, b: int) {
    a < b ==> clock(a) < clock(b)
  }

  // In every run, a line that reports CPU time reports what its own interval used, and what was used since the
  // last reading that succeeded. It is its own interval's alone if and only if the reading before it
  // succeeded; the first line's is the one at the start.
  lemma ChargesItsOwnIntervalIff(clock: int -> int, at: int, reading: Option<int>, steps: seq<Step>, i: nat)
    requires reading.Some? ==> reading.value == clock(at)
    requires Runs(Start(at, reading), steps) && Honest(clock, Start(at, reading), steps)
    requires var lines := After(Start(at, reading), steps).lines;
      i < |lines| && lines[i].cpu.Some? && forall j :: 0 <= j < |lines| ==> lines[j].from < lines[j].to
    ensures var lines := After(Start(at, reading), steps).lines;
      && lines[i].cpu.value == clock(lines[i].to) - clock(lines[i].cpuFrom) && lines[i].cpuFrom <= lines[i].from
      && (Increasing(clock, lines[i].cpuFrom, lines[i].from) ==>
           (lines[i].cpu.value == clock(lines[i].to) - clock(lines[i].from) <==> i == 0 || lines[i - 1].read))
  {
    var s := Start(at, reading);
    LinesCharge(clock, s, steps);
    LinesTile(at, s, steps);
    LinesHaveWindows(at, s, steps);
    WindowStartsEarly(at, After(s, steps), i);
    if i > 0 {
      WindowStartsEarly(at, After(s, steps), i - 1);
    }
  }

  // A run in which a reading fails, and the next line charges two intervals' CPU time to its own.
  function OverchargingRun(clock: int -> int, first: int, second: int): seq<Step> {
    [Tick(first), SelectTick, Recheck, Write(None), Tick(second), SelectTick, Recheck, Write(Some(clock(second)))]
  }

  // One line, from the select to the select.
  lemma OneLine(clock: int -> int, s: State, later: int, reading: Option<int>, rest: seq<Step>)
    requires s.phase.Selecting? && s.pending.None? && !Stopped(s) && (reading.Some? ==> reading.value == clock(later))
    requires Runs(Written(s, later, reading), rest) && Honest(clock, Written(s, later, reading), rest)
    ensures var steps := [Tick(later), SelectTick, Recheck, Write(reading)] + rest;
      Runs(s, steps) && Honest(clock, s, steps) && After(s, steps) == After(Written(s, later, reading), rest)
  {
    var steps := [Tick(later), SelectTick, Recheck, Write(reading)];
    var s1 := Apply(s, steps[0]);
    var s2 := Apply(s1, steps[1]);
    var s3 := Apply(s2, steps[2]);
    HonestFrom(clock, s3, steps[3], rest);
    HonestFrom(clock, s2, steps[2], [steps[3]] + rest);
    HonestFrom(clock, s1, steps[1], [steps[2]] + ([steps[3]] + rest));
    HonestFrom(clock, s, steps[0], [steps[1]] + ([steps[2]] + ([steps[3]] + rest)));
    assert steps + rest == [steps[0]] + ([steps[1]] + ([steps[2]] + ([steps[3]] + rest)));
  }

  // The state after that line.
  function Written(s: State, later: int, reading: Option<int>): State {
    Apply(s.(phase := Logging, now := later), Write(reading))
  }

  lemma HonestFrom(clock: int -> int, s: State, step: Step, rest: seq<Step>)
    requires Enabled(s, step) && Runs(Apply(s, step), rest) && Honest(clock, Apply(s, step), rest)
    requires step.Write? && step.reading.Some? ==> step.reading.value == clock(s.now)
    ensures Runs(s, [step] + rest) && After(s, [step] + rest) == After(Apply(s, step), rest)
    ensures Honest(clock, s, [step] + rest)
  {
    assert ([step] + rest)[1..] == rest;
  }

  lemma OverchargedLine(clock: int -> int, at: int, first: int, second: int)
    requires at < first < second && Increasing(clock, at, first) && Increasing(clock, first, second)
    ensures var s, steps := Start(at, Some(clock(at))), OverchargingRun(clock, first, second);
      && Runs(s, steps) && Honest(clock, s, steps) && |After(s, steps).lines| == 2
      && var line := After(s, steps).lines[1];
         line.from == first && line.to == second && line.cpu == Some(clock(second) - clock(at))
         && line.cpu.value > clock(second) - clock(first)
  {
    var s, reading := Start(at, Some(clock(at))), Some(clock(second));
    var t := Written(s, first, None);
    OneLine(clock, t, second, reading, []);
    var rest := [Tick(second), SelectTick, Recheck, Write(reading)];
    assert rest + [] == rest;
    OneLine(clock, s, first, None, rest);
    assert OverchargingRun(clock, first, second) == [Tick(first), SelectTick, Recheck, Write(None)] + rest;
  }

  // ---------------------------------------------------------------------------------------------
  // Which lines report CPU time, and which ticks are met.

  // Was there a reading before line i?
  predicate Based(reading: Option<int>, s: State, i: nat) {
    reading.Some? || exists j :: 0 <= j < i && j < |s.lines| && s.lines[j].read
  }

  ghost predicate Reports(clock: int -> int, reading: Option<int>, s: State) {
    && (s.lastCpu.Some? <==> Based(reading, s, |s.lines|))
    && forall i: nat :: i < |s.lines| ==> var line := s.lines[i];
         line.cpu.Some? <==>
           line.read && Based(reading, s, i) && line.from < line.to && clock(line.cpuFrom) <= clock(line.to)
  }

  lemma ReportsStep(clock: int -> int, reading: Option<int>, s: State, step: Step)
    requires Reports(clock, reading, s) && Charges(clock, s) && Enabled(s, step)
    requires step.Write? && step.reading.Some? ==> step.reading.value == clock(s.now)
    ensures Reports(clock, reading, Apply(s, step))
  {
    var t := Apply(s, step);
    if step.Write? {
      var line := t.lines[|s.lines|];
      assert t.lines == s.lines + [line];
      BasedMore(reading, s, t, line);
    }
  }

  lemma BasedMore(reading: Option<int>, s: State, t: State, line: Line)
    requires t.lines == s.lines + [line]
    ensures forall i: nat :: i <= |s.lines| ==> Based(reading, t, i) == Based(reading, s, i)
    ensures Based(reading, t, |t.lines|) <==> Based(reading, s, |s.lines|) || line.read
  {
    if line.read {
      assert t.lines[|s.lines|].read;
    }
    assert forall j :: 0 <= j < |s.lines| ==> t.lines[j] == s.lines[j];
  }

  lemma {:induction false} ReportsRun(clock: int -> int, reading: Option<int>, s: State, steps: seq<Step>)
    requires Reports(clock, reading, s) && Charges(clock, s) && Runs(s, steps) && Honest(clock, s, steps)
    ensures Reports(clock, reading, After(s, steps))
    decreases |steps|
  {
    if steps != [] {
      ReportsStep(clock, reading, s, steps[0]);
      ReportsRun(clock, reading, Apply(s, steps[0]), steps[1..]);
    }
  }

  // In every run, a line reports CPU time if and only if its reading succeeded, one before it did, its interval
  // is not empty and the CPU clock did not go back.
  lemma ReportsIff(clock: int -> int, at: int, reading: Option<int>, steps: seq<Step>)
    requires reading.Some? ==> reading.value == clock(at)
    requires Runs(Start(at, reading), steps) && Honest(clock, Start(at, reading), steps)
    ensures Reports(clock, reading, After(Start(at, reading), steps))
  {
    ReportsRun(clock, reading, Start(at, reading), steps);
  }

  // A tick that finds one waiting is dropped: until the goroutine takes it the first one waits.
  lemma {:induction false} FirstTickWaits(s: State, steps: seq<Step>)
    requires s.pending.Some? && Runs(s, steps) && forall step :: step in steps ==> !step.SelectTick?
    ensures After(s, steps).pending == s.pending
    decreases |steps|
  {
    if steps != [] {
      assert !steps[0].SelectTick?;
      FirstTickWaits(Apply(s, steps[0]), steps[1..]);
    }
  }
}
