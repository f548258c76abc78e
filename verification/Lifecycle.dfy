/** The lifecycle of the on-board telemetry: one start, then a frozen result. */
module Lifecycle {
  import opened Prelude

  datatype Phase = Uninitialized | Ready | Starting | Active | Complete

  /** How far the one initializing thread has come; Idle when no init is running. */
  datatype InitPc = Idle | Configuring | Entered | SamplerMade | Created

  /** Waiting for a notification, or at some position of the measurement. */
  datatype TelemetryPc = Waiting | Measuring(next: nat)

  datatype Field =
    | ApplicationEntry
    | MarkerStart | WindowStart | Interval(index: nat) | MarkerEnd | WindowEnd
    | Tasks | AllocationFailures | Faults

  const INTERVALS := 200

  /** Positions of the measurement: the ACTIVE store, the first interval, the end marker, the COMPLETE store. */
  const ACTIVE_AT := 2
  const INTERVALS_AT := 3
  const END_AT := INTERVALS_AT + 2 * INTERVALS
  const COMPLETE_AT := END_AT + 5

  /** The field stored at a position of the measurement; none where the state is stored instead. */
  function Target(position: nat): Option<Field> {
    if position == 0 then Some(MarkerStart)
    else if position == 1 then Some(WindowStart)
    else if position == ACTIVE_AT || position >= COMPLETE_AT then None
    else if position < END_AT then
      Some(if (position - INTERVALS_AT) % 2 == 0 then Interval((position - INTERVALS_AT) / 2) else Faults)
    else if position == END_AT then Some(MarkerEnd)
    else if position == END_AT + 1 then Some(WindowEnd)
    else if position == END_AT + 2 then Some(Faults)
    else if position == END_AT + 3 then Some(Tasks)
    else Some(AllocationFailures)
  }

  /**
   * The shared memory and the program counters of all threads. `starting` counts the start calls that
   * have claimed the state and not yet notified, `notifications` is the task's notification value, and
   * `starts` and `returned` count the calls that have claimed and those that have returned success.
   */
  datatype State = State(
    phase: Phase, initPc: InitPc, taskExists: bool,
    starting: nat, notifications: nat, telemetryPc: TelemetryPc,
    result: map<Field, int>, starts: nat, returned: nat)

  const INITIAL := State(Uninitialized, Idle, false, 0, 0, Waiting, map[], 0, 0)

  /** One atomic action of some thread; calls that only return an error change nothing. */
  datatype Step =
    | InitClaim
    | InitEntry(value: int)
    | InitSampler
    | InitTelemetry
    | InitReturn
    | InitFail
    | StartClaim
    | StartNotify
    | Wake
    | Write(field: Field, value: int)
    | StoreActive
    | StoreComplete

  predicate Enabled(s: State, step: Step) {
    match step
    case InitClaim => s.phase == Uninitialized
    case InitEntry(_) => s.initPc == Configuring
    case InitSampler => s.initPc == Entered
    case InitTelemetry => s.initPc == SamplerMade
    case InitReturn => s.initPc == Created
    case InitFail => s.initPc != Idle && s.initPc != Created
    case StartClaim => s.phase == Ready
    case StartNotify => s.starting > 0 && s.taskExists
    case Wake => s.taskExists && s.notifications > 0 && s.telemetryPc == Waiting
    case Write(f, _) => s.telemetryPc.Measuring? && Target(s.telemetryPc.next) == Some(f)
    case StoreActive => s.telemetryPc == Measuring(ACTIVE_AT)
    case StoreComplete => s.telemetryPc == Measuring(COMPLETE_AT)
  }

  function Following(pc: TelemetryPc): TelemetryPc {
    if pc.Measuring? then Measuring(pc.next + 1) else pc
  }

  /** The effect of a step. A failing init stores UNINITIALIZED whatever it finds. */
  function Apply(s: State, step: Step): State {
    match step
    case InitClaim => s.(phase := Ready, initPc := Configuring)
    case InitEntry(v) => s.(result := s.result[ApplicationEntry := v], initPc := Entered)
    case InitSampler => s.(initPc := SamplerMade)
    case InitTelemetry => s.(taskExists := true, initPc := Created)
    case InitReturn => s.(initPc := Idle)
    case InitFail => s.(phase := Uninitialized, initPc := Idle)
    case StartClaim => s.(phase := Starting, starting := s.starting + 1, starts := s.starts + 1)
    case StartNotify =>
      s.(starting := if s.starting > 0 then s.starting - 1 else 0,
         notifications := s.notifications + 1, returned := s.returned + 1)
    case Wake => s.(notifications := 0, telemetryPc := Measuring(0))
    case Write(f, v) => s.(result := s.result[f := v], telemetryPc := Following(s.telemetryPc))
    case StoreActive => s.(phase := Active, telemetryPc := Following(s.telemetryPc))
    case StoreComplete => s.(phase := Complete, telemetryPc := Waiting)
  }

  /** No init is still going to touch the state: it has returned or made its last task. */
  predicate InitSettled(s: State) {
    s.initPc == Idle || s.initPc == Created
  }

  function Execute(s: State, steps: seq<Step>): State
    decreases |steps|
  {
    if steps == [] then s else Execute(Apply(s, steps[0]), steps[1..])
  }

  /** An interleaving of the threads' actions; start may be called at any moment. */
  predicate Possible(s: State, steps: seq<Step>)
    decreases |steps|
  {
    steps == [] || (Enabled(s, steps[0]) && Possible(Apply(s, steps[0]), steps[1..]))
  }

  /** An interleaving in which start is called only once init has settled. */
  predicate Disciplined(s: State, steps: seq<Step>)
    decreases |steps|
  {
    steps == [] ||
    (Enabled(s, steps[0]) && (steps[0] == StartClaim ==> InitSettled(s))
     && Disciplined(Apply(s, steps[0]), steps[1..]))
  }

  function Rank(p: Phase): nat {
    match p
    case Uninitialized => 0
    case Ready => 1
    case Starting => 2
    case Active => 3
    case Complete => 4
  }

  ghost predicate Inv(s: State) {
    && (s.initPc != Idle && s.initPc != Created ==> s.phase == Ready && !s.taskExists)
    && (s.phase == Uninitialized ==> s.initPc == Idle && !s.taskExists)
    && (s.phase == Ready && s.initPc == Idle ==> s.taskExists)
    && (s.initPc == Created ==> s.taskExists)
    && s.returned + s.starting == s.starts
    && (Rank(s.phase) < 2 ==> s.starts == 0 && s.notifications == 0 && s.telemetryPc == Waiting)
    && (Rank(s.phase) >= 2 ==> s.starts == 1 && s.taskExists)
    && (s.phase == Starting ==>
          || (s.starting == 1 && s.notifications == 0 && s.telemetryPc == Waiting)
          || (s.starting == 0 && s.notifications == 1 && s.telemetryPc == Waiting)
          || (s.starting == 0 && s.notifications == 0 && IsOpening(s.telemetryPc)))
    && (s.phase == Active ==> s.starting == 0 && s.notifications == 0 && IsInWindow(s.telemetryPc))
    && (s.phase == Complete ==> s.starting == 0 && s.notifications == 0 && s.telemetryPc == Waiting)
    && (s.taskExists || s.initPc == Entered || s.initPc == SamplerMade ==> ApplicationEntry in s.result)
    && (s.telemetryPc.Measuring? ==> Holds(s.result, s.telemetryPc.next))
    && (s.phase == Complete ==> Holds(s.result, COMPLETE_AT))
  }

  predicate IsOpening(pc: TelemetryPc) {
    pc.Measuring? && pc.next <= ACTIVE_AT
  }

  predicate IsInWindow(pc: TelemetryPc) {
    pc.Measuring? && INTERVALS_AT <= pc.next <= COMPLETE_AT
  }

  /** The result holds every field stored before a position. */
  ghost predicate Holds(result: map<Field, int>, end: nat) {
    forall k: nat :: k < end && Target(k).Some? ==> Target(k).value in result
  }

  lemma StepKeepsInv(s: State, step: Step)
    requires Inv(s) && Enabled(s, step) && (step == StartClaim ==> InitSettled(s))
    ensures Inv(Apply(s, step))
  {
  }

  /** Forward by one phase at most; back only from READY, when an init fails. */
  predicate Advances(before: Phase, after: Phase) {
    after == before || Rank(after) == Rank(before) + 1 || (before == Ready && after == Uninitialized)
  }

  /** Everything the lifecycle promises about any two moments of a run. */
  ghost predicate Orderly(earlier: State, later: State) {
    && later.starts <= 1
    && (Rank(earlier.phase) >= 2 ==> Rank(later.phase) >= Rank(earlier.phase))
    && (earlier.phase == Complete ==> later.phase == Complete && later.result == earlier.result)
  }

  lemma StepIsOrderly(s: State, step: Step)
    requires Inv(s) && Enabled(s, step) && (step == StartClaim ==> InitSettled(s))
    ensures Advances(s.phase, Apply(s, step).phase) && Orderly(s, Apply(s, step))
  {
  }

  /** One start at most, phases in order, and no write once a reader can see the result. */
  lemma {:induction false} RunIsOrderly(s: State, steps: seq<Step>)
    requires Inv(s) && Disciplined(s, steps)
    ensures Inv(Execute(s, steps)) && Orderly(s, Execute(s, steps))
    decreases |steps|
  {
    if steps != [] {
      StepKeepsInv(s, steps[0]);
      StepIsOrderly(s, steps[0]);
      RunIsOrderly(Apply(s, steps[0]), steps[1..]);
    }
  }

  lemma {:induction false} SplitRun(s: State, first: seq<Step>, second: seq<Step>)
    requires Disciplined(s, first + second)
    ensures Disciplined(s, first) && Disciplined(Execute(s, first), second)
    ensures Execute(s, first + second) == Execute(Execute(s, first), second)
    decreases |first|
  {
    if first == [] {
      assert first + second == second;
    } else {
      assert (first + second)[1..] == first[1..] + second;
      SplitRun(Apply(s, first[0]), first[1..], second);
    }
  }

  /** benchmark_telemetry_result hands out the result only in the COMPLETE phase. */
  predicate ResultVisible(s: State) {
    s.phase == Complete
  }

  lemma {:induction false} VisibleResultStays(s: State, later: seq<Step>)
    requires Inv(s) && Disciplined(s, later) && ResultVisible(s)
    ensures ResultVisible(Execute(s, later)) && Execute(s, later).result == s.result
    ensures Execute(s, later).starts == 1
  {
    hide Execute, Disciplined, Apply, Enabled;
    RunIsOrderly(s, later);
  }

  lemma PowerOnKeepsInv()
    ensures Inv(INITIAL)
  {
  }

  /** From power-on, whatever a reader has seen of the result is what every later reader sees. */
  lemma {:induction false} PublishedResultIsFrozen(first: seq<Step>, second: seq<Step>)
    requires Disciplined(INITIAL, first + second)
    requires ResultVisible(Execute(INITIAL, first))
    ensures ResultVisible(Execute(INITIAL, first + second))
    ensures Execute(INITIAL, first + second).result == Execute(INITIAL, first).result
    ensures Execute(INITIAL, first + second).starts == 1
  {
    hide *;
    PowerOnKeepsInv();
    SplitRun(INITIAL, first, second);
    RunIsOrderly(INITIAL, first);
    VisibleResultStays(Execute(INITIAL, first), second);
  }

  // ---------- what a reader finds in the result ----------

  /** The value that the last step storing a field has stored, if any step has. */
  function LastStored(steps: seq<Step>, field: Field): Option<int> {
    if steps == [] then None
    else
      var n := |steps| - 1;
      match steps[n]
      case Write(f, v) => if f == field then Some(v) else LastStored(steps[..n], field)
      case InitEntry(v) => if field == ApplicationEntry then Some(v) else LastStored(steps[..n], field)
      case _ => LastStored(steps[..n], field)
  }

  lemma {:induction false} ExecuteSnoc(s: State, steps: seq<Step>, step: Step)
    ensures Execute(s, steps + [step]) == Apply(Execute(s, steps), step)
    decreases |steps|
  {
    if steps == [] {
      assert steps + [step] == [step] && [step][1..] == [];
    } else {
      assert (steps + [step])[1..] == steps[1..] + [step];
      ExecuteSnoc(Apply(s, steps[0]), steps[1..], step);
    }
  }

  /** Whatever the interleaving, the result holds for every field the value stored last, and nothing else. */
  lemma {:induction false} ResultHoldsLastStored(steps: seq<Step>)
    ensures var result := Execute(INITIAL, steps).result;
      forall field :: if field in result then LastStored(steps, field) == Some(result[field])
                      else LastStored(steps, field) == None
    decreases |steps|
  {
    if steps != [] {
      var n := |steps| - 1;
      assert steps == steps[..n] + [steps[n]];
      ExecuteSnoc(INITIAL, steps[..n], steps[n]);
      ResultHoldsLastStored(steps[..n]);
    }
  }

  /** All fields of a finished measurement. */
  ghost predicate IsWhole(result: map<Field, int>) {
    && ApplicationEntry in result && MarkerStart in result && WindowStart in result
    && (forall i: nat :: i < 200 ==> Interval(i) in result)
    && MarkerEnd in result && WindowEnd in result && Tasks in result
    && AllocationFailures in result && Faults in result
  }

  lemma HoldsIsWhole(result: map<Field, int>)
    requires Holds(result, COMPLETE_AT) && ApplicationEntry in result
    ensures IsWhole(result)
  {
    assert Target(0) == Some(MarkerStart) && Target(1) == Some(WindowStart);
    forall i: nat | i < 200 ensures Interval(i) in result {
      assert Target(INTERVALS_AT + 2 * i) == Some(Interval(i));
    }
    assert Target(END_AT) == Some(MarkerEnd) && Target(END_AT + 1) == Some(WindowEnd);
    assert Target(END_AT + 2) == Some(Faults) && Target(END_AT + 3) == Some(Tasks);
    assert Target(END_AT + 4) == Some(AllocationFailures);
  }

  lemma VisibleIsWhole(s: State)
    requires Inv(s) && ResultVisible(s)
    ensures IsWhole(s.result)
  {
    HoldsIsWhole(s.result);
  }

  /** A reader never sees a partial result: every field is there, with the value that was stored last. */
  lemma {:induction false} VisibleResultIsWhole(steps: seq<Step>)
    requires Disciplined(INITIAL, steps) && ResultVisible(Execute(INITIAL, steps))
    ensures var result := Execute(INITIAL, steps).result;
      IsWhole(result) && forall field :: field in result ==> LastStored(steps, field) == Some(result[field])
  {
    hide *;
    PowerOnKeepsInv();
    RunIsOrderly(INITIAL, steps);
    VisibleIsWhole(Execute(INITIAL, steps));
    ResultHoldsLastStored(steps);
  }

  /** Once the ACTIVE state is on show, the start of the window has been measured. */
  lemma {:induction false} ActiveHasWindowStart(steps: seq<Step>)
    requires Disciplined(INITIAL, steps) && Execute(INITIAL, steps).phase == Active
    ensures var result := Execute(INITIAL, steps).result;
      ApplicationEntry in result && MarkerStart in result && WindowStart in result
  {
    hide *;
    PowerOnKeepsInv();
    RunIsOrderly(INITIAL, steps);
    ActiveIsOpen(Execute(INITIAL, steps));
  }

  lemma ActiveIsOpen(s: State)
    requires Inv(s) && s.phase == Active
    ensures ApplicationEntry in s.result && MarkerStart in s.result && WindowStart in s.result
  {
    assert Target(0) == Some(MarkerStart) && Target(1) == Some(WindowStart);
  }

  lemma {:induction false} NoDiscipline(s: State)
    ensures Disciplined(s, []) && Execute(s, []) == s
  {
  }

  lemma {:induction false} FirstDisciplined(s: State, step: Step, rest: seq<Step>)
    requires Enabled(s, step) && (step == StartClaim ==> InitSettled(s)) && Disciplined(Apply(s, step), rest)
    ensures Disciplined(s, [step] + rest) && Execute(s, [step] + rest) == Execute(Apply(s, step), rest)
  {
    assert ([step] + rest)[1..] == rest;
  }

  /** The step the task takes at a position, when it measures these values. */
  function TaskStep(position: nat, values: nat -> int): Step {
    if position == ACTIVE_AT then StoreActive
    else if position < COMPLETE_AT then Write(Target(position).value, values(position))
    else StoreComplete
  }

  /** From any position the task can go on to the end, whatever it measures. */
  lemma {:induction false} TaskFinishes(s: State, values: nat -> int) returns (steps: seq<Step>)
    requires s.telemetryPc.Measuring? && s.telemetryPc.next <= COMPLETE_AT
    ensures Disciplined(s, steps) && ResultVisible(Execute(s, steps))
    decreases COMPLETE_AT - s.telemetryPc.next
  {
    hide Execute, Disciplined;
    var step := TaskStep(s.telemetryPc.next, values);
    var next := Apply(s, step);
    if s.telemetryPc.next == COMPLETE_AT {
      steps := [];
      NoDiscipline(next);
    } else {
      steps := TaskFinishes(next, values);
    }
    FirstDisciplined(s, step, steps);
    steps := [step] + steps;
  }

  /** A started measurement can always still be completed. */
  lemma {:induction false} StartedCanComplete(s: State, values: nat -> int) returns (steps: seq<Step>)
    requires Inv(s) && Rank(s.phase) >= 2
    ensures Disciplined(s, steps) && ResultVisible(Execute(s, steps))
    decreases s.starting
  {
    hide Execute, Disciplined;
    if s.phase == Complete {
      steps := [];
      NoDiscipline(s);
    } else if s.telemetryPc.Measuring? {
      steps := TaskFinishes(s, values);
    } else if s.starting > 0 {
      steps := StartedCanComplete(Apply(s, StartNotify), values);
      FirstDisciplined(s, StartNotify, steps);
      steps := [StartNotify] + steps;
    } else {
      steps := TaskFinishes(Apply(s, Wake), values);
      FirstDisciplined(s, Wake, steps);
      steps := [Wake] + steps;
    }
  }

  /** There are runs from power-on that reach COMPLETE. */
  lemma {:induction false} SomeRunCompletes()
    ensures exists steps :: Disciplined(INITIAL, steps) && ResultVisible(Execute(INITIAL, steps))
  {
    hide Execute, Disciplined, Inv;
    PowerOnKeepsInv();
    var s1 := Apply(INITIAL, InitClaim);
    StepKeepsInv(INITIAL, InitClaim);
    var s2 := Apply(s1, InitEntry(0));
    StepKeepsInv(s1, InitEntry(0));
    var s3 := Apply(s2, InitSampler);
    StepKeepsInv(s2, InitSampler);
    var s4 := Apply(s3, InitTelemetry);
    StepKeepsInv(s3, InitTelemetry);
    var s5 := Apply(s4, StartClaim);
    StepKeepsInv(s4, StartClaim);
    var steps := StartedCanComplete(s5, (k: nat) => 0);
    FirstDisciplined(s4, StartClaim, steps);
    steps := [StartClaim] + steps;
    FirstDisciplined(s3, InitTelemetry, steps);
    steps := [InitTelemetry] + steps;
    FirstDisciplined(s2, InitSampler, steps);
    steps := [InitSampler] + steps;
    FirstDisciplined(s1, InitEntry(0), steps);
    steps := [InitEntry(0)] + steps;
    FirstDisciplined(INITIAL, InitClaim, steps);
    steps := [InitClaim] + steps;
  }

  /** A start is safe when no interleaving can take the lifecycle back behind STARTING. */
  ghost predicate NeverFallsBack(s: State) {
    forall steps :: Possible(s, steps) ==> Rank(Execute(s, steps).phase) >= 2
  }

  lemma {:induction false} StartedStaysDisciplined(s: State, steps: seq<Step>)
    requires Inv(s) && Rank(s.phase) >= 2 && Possible(s, steps)
    ensures Disciplined(s, steps)
    decreases |steps|
  {
    if steps != [] {
      StepKeepsInv(s, steps[0]);
      StepIsOrderly(s, steps[0]);
      StartedStaysDisciplined(Apply(s, steps[0]), steps[1..]);
    }
  }

  /**
   * Calling start while an init is still running is unsafe, and only then: the failing init
   * would put a started lifecycle back to UNINITIALIZED.
   */
  lemma StartIsSafeExactlyWhenSettled(s: State)
    requires Inv(s) && s.phase == Ready
    ensures NeverFallsBack(Apply(s, StartClaim)) <==> InitSettled(s)
  {
    var started := Apply(s, StartClaim);
    if InitSettled(s) {
      StepKeepsInv(s, StartClaim);
      forall steps | Possible(started, steps) ensures Rank(Execute(started, steps).phase) >= 2 {
        StartedStaysDisciplined(started, steps);
        RunIsOrderly(started, steps);
      }
    } else {
      var failing := [InitFail];
      assert failing[1..] == [];
      assert Possible(started, failing);
      assert Execute(started, failing).phase == Uninitialized;
    }
  }

  lemma {:induction false} NoStep(s: State)
    ensures Possible(s, []) && Execute(s, []) == s
  {
  }

  lemma {:induction false} First(s: State, step: Step, rest: seq<Step>)
    requires Enabled(s, step) && Possible(Apply(s, step), rest)
    ensures Possible(s, [step] + rest)
    ensures Execute(s, [step] + rest) == Execute(Apply(s, step), rest)
  {
    assert ([step] + rest)[1..] == rest;
  }

  /** After an early start: the init fails, another succeeds, a second start claims, and both calls return. */
  lemma {:induction false} SecondStart(s: State) returns (steps: seq<Step>)
    requires s.phase == Starting && !InitSettled(s)
    requires s.starting == 1 && s.returned == 0 && s.starts == 1
    ensures Possible(s, steps)
    ensures Execute(s, steps).starts == 2 && Execute(s, steps).returned == 2
  {
    hide Execute, Possible;
    var s1 := Apply(s, InitFail);
    var s2 := Apply(s1, InitClaim);
    var s3 := Apply(s2, InitEntry(0));
    var s4 := Apply(s3, InitSampler);
    var s5 := Apply(s4, InitTelemetry);
    var s6 := Apply(s5, InitReturn);
    var s7 := Apply(s6, StartClaim);
    var s8 := Apply(s7, StartNotify);
    steps := [];
    NoStep(Apply(s8, StartNotify));
    First(s8, StartNotify, steps);
    steps := [StartNotify] + steps;
    First(s7, StartNotify, steps);
    steps := [StartNotify] + steps;
    First(s6, StartClaim, steps);
    steps := [StartClaim] + steps;
    First(s5, InitReturn, steps);
    steps := [InitReturn] + steps;
    First(s4, InitTelemetry, steps);
    steps := [InitTelemetry] + steps;
    First(s3, InitSampler, steps);
    steps := [InitSampler] + steps;
    First(s2, InitEntry(0), steps);
    steps := [InitEntry(0)] + steps;
    First(s1, InitClaim, steps);
    steps := [InitClaim] + steps;
    First(s, InitFail, steps);
    steps := [InitFail] + steps;
  }

  /** A second start call can claim the state and return success as well. */
  ghost predicate TwoStartsReturn(s: State) {
    exists steps :: Possible(s, steps) && Execute(s, steps).returned >= 2
  }

  /** Two start calls can both succeed exactly when the first one is made while an init is still running. */
  lemma TwoStartsExactlyWhenEarly(s: State)
    requires Inv(s) && s.phase == Ready
    ensures TwoStartsReturn(Apply(s, StartClaim)) <==> !InitSettled(s)
  {
    var started := Apply(s, StartClaim);
    if InitSettled(s) {
      StepKeepsInv(s, StartClaim);
      forall steps | Possible(started, steps) ensures Execute(started, steps).returned < 2 {
        StartedStaysDisciplined(started, steps);
        RunIsOrderly(started, steps);
      }
    } else {
      var steps := SecondStart(started);
    }
  }

  /** From power-on: an init, a start during it, and both that start and a later one return success. */
  lemma EarlyStartAllowsTwoStarts()
    ensures exists steps :: Possible(INITIAL, steps) && Execute(INITIAL, steps).returned == 2
  {
    var configuring := Apply(INITIAL, InitClaim);
    var started := Apply(configuring, StartClaim);
    var rest := SecondStart(started);
    First(configuring, StartClaim, rest);
    First(INITIAL, InitClaim, [StartClaim] + rest);
    assert Execute(INITIAL, [InitClaim] + ([StartClaim] + rest)).returned == 2;
  }
}
