/**
 * The cross-core sampling handshake: the telemetry task notifies the core-0 sampler and
 * waits on a binary semaphore, with a timeout, for the sample to be ready.
 */
module Handshake {

  /** A value together with the sampler pass that wrote it and the notify that pass answered. */
  datatype Stamp = Stamp(value: nat, pass: nat, trigger: nat)

  datatype SamplerPc = Asleep | Awake | Timed | Counted

  datatype TelemetryPc = Resting | Begun | Notified | Waiting | Took | TimeRead | CountRead

  datatype Snapshot =
    Snapshot(begin: nat, notify: nat, core1: nat, time: Stamp, count: Stamp, board: nat, timedOut: bool)

  /** `pending` is the sampler's notification value; `passes`, `trigger` and `notifies` only record history. */
  datatype State = State(
    now: nat, pending: nat, token: bool, notifies: nat,
    sampler: SamplerPc, passes: nat, trigger: nat, capture: Stamp, idle: Stamp,
    telemetry: TelemetryPc, current: Snapshot, done: seq<Snapshot>, timeouts: nat)

  const NO_STAMP := Stamp(0, 0, 0)
  const BLANK := Snapshot(0, 0, 0, NO_STAMP, NO_STAMP, 0, false)
  const INITIAL := State(0, 0, false, 0, Asleep, 0, 0, NO_STAMP, NO_STAMP, Resting, BLANK, [], 0)

  datatype Step =
    | Tick(time: nat)
    | SamplerTake | SamplerTime | SamplerCount(value: nat) | SamplerGive
    | Begin | Notify | Core1 | Take | TimeOut | ReadTime | ReadCount | Finish

  predicate Enabled(s: State, step: Step) {
    match step
    case Tick(time) => s.now <= time
    case SamplerTake => s.sampler == Asleep && s.pending > 0
    case SamplerTime => s.sampler == Awake
    case SamplerCount(_) => s.sampler == Timed
    case SamplerGive => s.sampler == Counted
    case Begin => s.telemetry == Resting
    case Notify => s.telemetry == Begun
    case Core1 => s.telemetry == Notified
    case Take => s.telemetry == Waiting && s.token
    case TimeOut => s.telemetry == Waiting && !s.token
    case ReadTime => s.telemetry == Took
    case ReadCount => s.telemetry == TimeRead
    case Finish => s.telemetry == CountRead
  }

  /** The sampler's take clears every pending notification; giving a full semaphore changes nothing. */
  function Apply(s: State, step: Step): State {
    match step
    case Tick(time) => s.(now := time)
    case SamplerTake => s.(pending := 0, sampler := Awake, passes := s.passes + 1, trigger := s.notifies)
    case SamplerTime => s.(sampler := Timed, capture := Stamp(s.now, s.passes, s.trigger))
    case SamplerCount(v) => s.(sampler := Counted, idle := Stamp(v, s.passes, s.trigger))
    case SamplerGive => s.(sampler := Asleep, token := true)
    case Begin => s.(telemetry := Begun, current := BLANK.(begin := s.now))
    case Notify =>
      s.(telemetry := Notified, pending := s.pending + 1, notifies := s.notifies + 1,
         current := s.current.(notify := s.notifies + 1))
    case Core1 => s.(telemetry := Waiting, current := s.current.(core1 := s.now))
    case Take => s.(telemetry := Took, token := false)
    case TimeOut => s.(telemetry := Took, current := s.current.(timedOut := true), timeouts := s.timeouts + 1)
    case ReadTime => s.(telemetry := TimeRead, current := s.current.(time := s.capture))
    case ReadCount => s.(telemetry := CountRead, current := s.current.(count := s.idle))
    case Finish => s.(telemetry := Resting, done := s.done + [s.current.(board := s.now)])
  }

  function Execute(s: State, steps: seq<Step>): State
    decreases |steps|
  {
    if steps == [] then s else Execute(Apply(s, steps[0]), steps[1..])
  }

  predicate Possible(s: State, steps: seq<Step>)
    decreases |steps|
  {
    steps == [] || (Enabled(s, steps[0]) && Possible(Apply(s, steps[0]), steps[1..]))
  }

  /** Time and counter of one sampler pass, made for this snapshot's notify, inside its window. */
  predicate Fresh(shot: Snapshot) {
    && shot.time.pass == shot.count.pass
    && shot.time.trigger == shot.notify == shot.count.trigger
    && shot.begin <= shot.time.value <= shot.board
    && shot.begin <= shot.core1 <= shot.board
  }

  /** A snapshot has begun, has notified the sampler and is not finished. */
  predicate InFlight(s: State) {
    s.telemetry != Resting && s.telemetry != Begun
  }

  predicate Own(s: State, stamp: Stamp) {
    stamp.pass == s.passes && stamp.trigger == s.current.notify
  }

  predicate OwnTime(s: State, stamp: Stamp) {
    Own(s, stamp) && s.current.begin <= stamp.value <= s.now
  }

  predicate Quiet(s: State) {
    s.sampler == Asleep && s.pending == 0 && !s.token
  }

  /** What the sampler is doing for the snapshot in flight. */
  predicate Serving(s: State) {
    match s.sampler
    case Asleep => if s.token then s.pending == 0 && OwnTime(s, s.capture) && Own(s, s.idle) else s.pending > 0
    case Awake => !s.token && s.pending == 0 && s.trigger == s.notifies
    case Timed => !s.token && s.pending == 0 && s.trigger == s.notifies && OwnTime(s, s.capture)
    case Counted => !s.token && s.pending == 0 && s.trigger == s.notifies && OwnTime(s, s.capture) && Own(s, s.idle)
  }

  /** The snapshot in flight will be, or already is, built from its own sampler pass. */
  predicate Engaged(s: State) {
    && s.current.notify == s.notifies && s.current.begin <= s.now && !s.current.timedOut
    && (s.telemetry == Notified || s.current.begin <= s.current.core1 <= s.now)
    && match s.telemetry
       case Resting | Begun => false
       case Notified | Waiting => Serving(s)
       case Took => Quiet(s) && OwnTime(s, s.capture) && Own(s, s.idle)
       case TimeRead => Quiet(s) && OwnTime(s, s.current.time) && Own(s, s.idle) && s.current.time == s.capture
       case CountRead => Quiet(s) && OwnTime(s, s.current.time) && Own(s, s.current.count)
                         && s.current.time == s.capture && s.current.count == s.idle
  }

  lemma EngagedStep(s: State, step: Step)
    requires InFlight(s) && Engaged(s) && Enabled(s, step) && step != TimeOut
    ensures step != Finish ==> InFlight(Apply(s, step)) && Engaged(Apply(s, step))
    ensures step == Finish ==> Quiet(s) && Fresh(s.current.(board := s.now))
  {
  }

  /** The promise of a run without a timeout so far. */
  ghost predicate Clean(s: State) {
    && (forall i :: 0 <= i < |s.done| ==> Fresh(s.done[i]))
    && (s.telemetry == Begun ==> s.current.begin <= s.now && !s.current.timedOut)
    && (if InFlight(s) then Engaged(s) else Quiet(s))
  }

  lemma CleanStep(s: State, step: Step)
    requires Clean(s) && Enabled(s, step) && step != TimeOut
    ensures Clean(Apply(s, step))
  {
    if InFlight(s) {
      EngagedStep(s, step);
    }
  }

  lemma {:induction false} TimeoutsGrow(s: State, steps: seq<Step>)
    requires Possible(s, steps)
    ensures Execute(s, steps).timeouts >= s.timeouts
    decreases |steps|
  {
    if steps != [] {
      TimeoutsGrow(Apply(s, steps[0]), steps[1..]);
    }
  }

  lemma {:induction false} CleanRun(s: State, steps: seq<Step>)
    requires Clean(s) && Possible(s, steps) && Execute(s, steps).timeouts == s.timeouts
    ensures Clean(Execute(s, steps))
    decreases |steps|
  {
    if steps != [] {
      TimeoutsGrow(Apply(s, steps[0]), steps[1..]);
      CleanStep(s, steps[0]);
      CleanRun(Apply(s, steps[0]), steps[1..]);
    }
  }

  /** Until the first timeout every snapshot is fresh, and no token outlives its snapshot. */
  lemma {:induction false} FreshUntilTimeout(steps: seq<Step>)
    requires Possible(INITIAL, steps) && Execute(INITIAL, steps).timeouts == 0
    ensures forall i :: 0 <= i < |Execute(INITIAL, steps).done| ==> Fresh(Execute(INITIAL, steps).done[i])
    ensures !InFlight(Execute(INITIAL, steps)) ==> Quiet(Execute(INITIAL, steps))
  {
    CleanRun(INITIAL, steps);
  }

  // ---------- which samples a snapshot holds ----------

  /** The time after some steps. */
  function Clock(steps: seq<Step>): nat {
    if steps == [] then 0
    else
      var n := |steps| - 1;
      match steps[n] case Tick(time) => time case _ => Clock(steps[..n])
  }

  /** The time at which a step was last taken; 0 if it never was. */
  function ClockAtLast(steps: seq<Step>, step: Step): nat {
    if steps == [] then 0
    else
      var n := |steps| - 1;
      if steps[n] == step then Clock(steps[..n]) else ClockAtLast(steps[..n], step)
  }

  /** The counter value that the sampler last stored; 0 if it never did. */
  function LastCounter(steps: seq<Step>): nat {
    if steps == [] then 0
    else
      var n := |steps| - 1;
      match steps[n] case SamplerCount(value) => value case _ => LastCounter(steps[..n])
  }

  lemma {:induction false} ExecuteSnoc(s: State, steps: seq<Step>, step: Step)
    ensures Execute(s, steps + [step]) == Apply(Execute(s, steps), step)
    ensures Possible(s, steps + [step]) <==> Possible(s, steps) && Enabled(Execute(s, steps), step)
    decreases |steps|
  {
    if steps == [] {
      assert steps + [step] == [step] && [step][1..] == [];
    } else {
      assert (steps + [step])[1..] == steps[1..] + [step];
      ExecuteSnoc(Apply(s, steps[0]), steps[1..], step);
    }
  }

  /** The state holds the readings that the steps have made, whatever the interleaving. */
  ghost predicate Tracks(s: State, steps: seq<Step>) {
    && s.now == Clock(steps)
    && s.capture.value == ClockAtLast(steps, SamplerTime)
    && s.idle.value == LastCounter(steps)
    && (s.telemetry != Resting ==> s.current.begin == ClockAtLast(steps, Begin))
    && (InFlight(s) && s.telemetry != Notified ==> s.current.core1 == ClockAtLast(steps, Core1))
  }

  lemma {:induction false} TracksOneMore(s: State, steps: seq<Step>, step: Step)
    requires Tracks(s, steps) && Enabled(s, step)
    ensures Tracks(Apply(s, step), steps + [step])
  {
    assert (steps + [step])[..|steps|] == steps;
  }

  lemma {:induction false} RunTracks(steps: seq<Step>)
    requires Possible(INITIAL, steps)
    ensures Tracks(Execute(INITIAL, steps), steps)
    decreases |steps|
  {
    if steps != [] {
      var n := |steps| - 1;
      assert steps == steps[..n] + [steps[n]];
      ExecuteSnoc(INITIAL, steps[..n], steps[n]);
      RunTracks(steps[..n]);
      TracksOneMore(Execute(INITIAL, steps[..n]), steps[..n], steps[n]);
    }
  }

  /**
   * Until the first timeout, a finished snapshot holds the clock at its begin, at its core-1 reading and at its
   * end, and the clock and the counter that the sampler read last, which is after its own notify.
   */
  lemma {:induction false} SnapshotHoldsReadings(before: seq<Step>)
    requires Possible(INITIAL, before + [Finish]) && Execute(INITIAL, before + [Finish]).timeouts == 0
    ensures var done := Execute(INITIAL, before + [Finish]).done;
      && done != [] && done[..|done| - 1] == Execute(INITIAL, before).done
      && var shot := done[|done| - 1];
         && shot.begin == ClockAtLast(before, Begin) && shot.core1 == ClockAtLast(before, Core1)
         && shot.board == Clock(before) && !shot.timedOut
         && shot.time.value == ClockAtLast(before, SamplerTime) && shot.count.value == LastCounter(before)
  {
    hide Execute, Possible, Clock, ClockAtLast, LastCounter, Fresh;
    ExecuteSnoc(INITIAL, before, Finish);
    RunTracks(before);
    StartsClean();
    CleanRun(INITIAL, before);
  }

  lemma StartsClean()
    ensures Clean(INITIAL)
  {
  }

  /** Facts of every run, timeouts included: no stamp answers a notify that is still to come. */
  predicate WellFormed(s: State) {
    && s.trigger <= s.notifies && s.capture.trigger <= s.notifies && s.idle.trigger <= s.notifies
    && (s.telemetry == Begun ==> s.current.begin <= s.now && !s.current.timedOut)
  }

  lemma {:induction false} RunIsWellFormed(s: State, steps: seq<Step>)
    requires WellFormed(s) && Possible(s, steps)
    ensures WellFormed(Execute(s, steps))
    decreases |steps|
  {
    if steps != [] {
      RunIsWellFormed(Apply(s, steps[0]), steps[1..]);
    }
  }

  /** The next snapshot to finish, if it does not itself report a timeout, is fresh in every run. */
  ghost predicate NextIsFresh(s: State) {
    forall steps :: Possible(s, steps) ==> NextFreshIn(s, Execute(s, steps))
  }

  predicate NextFreshIn(s: State, end: State) {
    |end.done| > |s.done| ==> end.done[|s.done|].timedOut || Fresh(end.done[|s.done|])
  }

  lemma {:induction false} DoneGrows(s: State, steps: seq<Step>)
    requires Possible(s, steps)
    ensures s.done <= Execute(s, steps).done
    decreases |steps|
  {
    if steps != [] {
      DoneGrows(Apply(s, steps[0]), steps[1..]);
    }
  }

  lemma {:induction false} EngagedFinishesFresh(s: State, steps: seq<Step>)
    requires InFlight(s) && (s.current.timedOut || Engaged(s)) && Possible(s, steps)
    ensures NextFreshIn(s, Execute(s, steps))
    decreases |steps|
  {
    if steps != [] {
      var next := Apply(s, steps[0]);
      if steps[0] == Finish {
        if !s.current.timedOut { EngagedStep(s, Finish); }
        DoneGrows(next, steps[1..]);
      } else {
        if !s.current.timedOut && steps[0] != TimeOut { EngagedStep(s, steps[0]); }
        EngagedFinishesFresh(next, steps[1..]);
      }
    }
  }

  lemma {:induction false} First(s: State, step: Step, rest: seq<Step>)
    requires Enabled(s, step) && Possible(Apply(s, step), rest)
    ensures Possible(s, [step] + rest)
    ensures Execute(s, [step] + rest) == Execute(Apply(s, step), rest)
  {
  }

  /** With a token at hand the snapshot finishes at once, from whatever the stamps hold. */
  lemma TokenEndsSnapshot(s: State) returns (steps: seq<Step>)
    requires s.telemetry == Notified && s.token
    ensures Possible(s, steps)
    ensures Execute(s, steps).done == s.done +
        [s.current.(core1 := s.now, time := s.capture, count := s.idle, board := s.now)]
    ensures Execute(s, steps).timeouts == s.timeouts
  {
    var s1 := Apply(s, Core1);
    var s2 := Apply(s1, Take);
    var s3 := Apply(s2, ReadTime);
    var s4 := Apply(s3, ReadCount);
    First(s4, Finish, []);
    First(s3, ReadCount, [Finish] + []);
    First(s2, ReadTime, [ReadCount] + ([Finish] + []));
    First(s1, Take, [ReadTime] + ([ReadCount] + ([Finish] + [])));
    First(s, Core1, [Take] + ([ReadTime] + ([ReadCount] + ([Finish] + []))));
    steps := [Core1] + ([Take] + ([ReadTime] + ([ReadCount] + ([Finish] + []))));
  }

  /** A pass that was under way at the notify, or a left-over token, can serve the snapshot. */
  lemma StalePassEndsSnapshot(s: State) returns (steps: seq<Step>)
    requires s.telemetry == Notified && (s.sampler != Asleep || s.token)
    requires s.trigger < s.current.notify && s.capture.trigger < s.current.notify && s.idle.trigger < s.current.notify
    ensures Possible(s, steps)
    ensures Execute(s, steps).timeouts == s.timeouts
    ensures |Execute(s, steps).done| == |s.done| + 1
    ensures var shot := Execute(s, steps).done[|s.done|]; shot.timedOut == s.current.timedOut && !Fresh(shot)
    decreases match s.sampler case Asleep => 0 case Counted => 1 case Timed => 2 case Awake => 3
  {
    if s.sampler == Asleep {
      steps := TokenEndsSnapshot(s);
    } else {
      var step := match s.sampler case Awake => SamplerTime case Timed => SamplerCount(0) case _ => SamplerGive;
      var rest := StalePassEndsSnapshot(Apply(s, step));
      First(s, step, rest);
      steps := [step] + rest;
    }
  }

  lemma FreshWhenWellFormed(s: State)
    requires WellFormed(s) && s.telemetry == Begun
    ensures NextIsFresh(Apply(s, Notify)) <==> s.sampler == Asleep && !s.token
  {
    var notified := Apply(s, Notify);
    if s.sampler == Asleep && !s.token {
      forall steps | Possible(notified, steps) ensures NextFreshIn(notified, Execute(notified, steps)) {
        EngagedFinishesFresh(notified, steps);
      }
    } else {
      var steps := StalePassEndsSnapshot(notified);
      assert !NextFreshIn(notified, Execute(notified, steps));
    }
  }

  /**
   * After any history, timeouts included, the snapshot about to notify is sure to be fresh (or to report
   * a timeout) exactly when the sampler is asleep and the semaphore is empty at that moment.
   */
  lemma {:induction false} FreshExactlyWhenSamplerIsFree(history: seq<Step>)
    requires Possible(INITIAL, history) && Execute(INITIAL, history).telemetry == Begun
    ensures var s := Execute(INITIAL, history);
      NextIsFresh(Apply(s, Notify)) <==> s.sampler == Asleep && !s.token
  {
    RunIsWellFormed(INITIAL, history);
    FreshWhenWellFormed(Execute(INITIAL, history));
  }

  lemma {:induction false} Join(s: State, first: seq<Step>, second: seq<Step>)
    requires Possible(s, first) && Possible(Execute(s, first), second)
    ensures Possible(s, first + second) && Execute(s, first + second) == Execute(Execute(s, first), second)
    decreases |first|
  {
    if first == [] {
      assert first + second == second;
    } else {
      Join(Apply(s, first[0]), first[1..], second);
      assert (first + second)[1..] == first[1..] + second;
    }
  }

  /** A snapshot that reports no timeout but is not fresh, after a run with one timeout. */
  ghost predicate SilentlyStale(steps: seq<Step>) {
    var end := Execute(INITIAL, steps);
    Possible(INITIAL, steps) && end.timeouts == 1 && |end.done| == 2 && !end.done[1].timedOut && !Fresh(end.done[1])
  }

  lemma Extend(s: State, steps: seq<Step>, step: Step) returns (longer: seq<Step>)
    requires Possible(s, steps) && Enabled(Execute(s, steps), step)
    ensures Possible(s, longer) && Execute(s, longer) == Apply(Execute(s, steps), step)
  {
    First(Execute(s, steps), step, []);
    Join(s, steps, [step] + []);
    longer := steps + ([step] + []);
  }

  /** A first snapshot times out, its late sample is then given, and a second one has notified. */
  lemma LateToken() returns (steps: seq<Step>)
    ensures Possible(INITIAL, steps)
    ensures var s := Execute(INITIAL, steps); (s.telemetry == Notified && s.token && s.sampler == Asleep
      && s.timeouts == 1 && |s.done| == 1 && s.trigger == s.capture.trigger == s.idle.trigger == 1
      && s.current.notify == 2 && !s.current.timedOut)
  {
    assert Possible(INITIAL, []) && Execute(INITIAL, []) == INITIAL;
    hide Possible, Execute;
    steps := Extend(INITIAL, [], Begin);
    steps := Extend(INITIAL, steps, Notify);
    steps := Extend(INITIAL, steps, Core1);
    steps := Extend(INITIAL, steps, TimeOut);
    steps := Extend(INITIAL, steps, ReadTime);
    steps := Extend(INITIAL, steps, ReadCount);
    steps := Extend(INITIAL, steps, Finish);
    steps := Extend(INITIAL, steps, SamplerTake);
    steps := Extend(INITIAL, steps, SamplerTime);
    steps := Extend(INITIAL, steps, SamplerCount(0));
    steps := Extend(INITIAL, steps, SamplerGive);
    steps := Extend(INITIAL, steps, Begin);
    steps := Extend(INITIAL, steps, Notify);
  }

  /** The guarantee stops at the first timeout: its late token passes for the next snapshot's. */
  lemma OneTimeoutSpoilsTheNext()
    ensures exists steps :: SilentlyStale(steps)
  {
    var late := LateToken();
    var rest := StalePassEndsSnapshot(Execute(INITIAL, late));
    Join(INITIAL, late, rest);
    assert SilentlyStale(late + rest);
  }
}
