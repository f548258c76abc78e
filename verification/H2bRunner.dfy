/**
 * The per-message campaign's visit loop over its persistent state: the acceptance ledger,
 * the visit manifests and the completion mark. A crash may leave any state written on the way.
 */
module H2bRunner {
  import opened Prelude
  import opened H2bDesign

  datatype LedgerRow = LedgerRow(block: int, visit: int, id: Cell, cell: Cell, accepted: bool, ordinal: int)

  /** The content of a visit's manifest; Torn is a file cut short by a crash. */
  datatype Manifest = Torn | Pass | Fail

  /** The directory name of a visit. */
  datatype VisitId = VisitId(block: int, visit: int, id: Cell)

  datatype Disk = Disk(ledger: seq<LedgerRow>, manifests: map<VisitId, Manifest>, complete: bool)

  const EMPTY := Disk([], map[], false)

  /** How one run of the wrapper ends: no row, one judged row, or an exception that ends the process. */
  datatype Outcome = NoRow | Rejected | Accepted | Abort

  /** The hardware's answers within one process, by position in the schedule and attempt number. */
  type World = (nat, nat) -> Outcome

  function Id(row: Row): VisitId {
    VisitId(row.block, row.visit, row.id)
  }

  /** The ledger row of a judged run, when the visit already holds `got` accepted runs. */
  function Record(row: Row, accepted: bool, got: nat): LedgerRow {
    LedgerRow(row.block, row.visit, row.id, row.cell, accepted, if accepted then row.runStart + got else 0)
  }

  function IsAccepted(): LedgerRow -> bool {
    (r: LedgerRow) => r.accepted
  }

  function AcceptedOf(c: Cell): LedgerRow -> bool {
    (r: LedgerRow) => r.accepted && r.id == c
  }

  function OrdinalOf(): LedgerRow -> int {
    (r: LedgerRow) => r.ordinal
  }

  // ---------- one process, as the states it writes ----------

  datatype Visit = Visit(ledgers: seq<seq<LedgerRow>>, got: nat, aborted: bool)

  /** The ledgers that the attempts of a visit write, from a given attempt on. */
  function Attempts(row: Row, ledger: seq<LedgerRow>, answers: nat -> Outcome, attempt: nat, maxAttempts: nat,
                    got: nat): Visit
    decreases maxAttempts + 1 - attempt
  {
    if attempt > maxAttempts || got >= RUNS_PER_VISIT then Visit([], got, false)
    else
      var outcome := answers(attempt);
      if outcome == Abort then Visit([], got, true)
      else if outcome == NoRow then Attempts(row, ledger, answers, attempt + 1, maxAttempts, got)
      else
        var longer := ledger + [Record(row, outcome == Accepted, got)];
        var rest := Attempts(row, longer, answers, attempt + 1, maxAttempts,
                             got + if outcome == Accepted then 1 else 0);
        rest.(ledgers := [longer] + rest.ledgers)
  }

  function WithLedgers(d: Disk, ledgers: seq<seq<LedgerRow>>): (disks: seq<Disk>)
    ensures |disks| == |ledgers|
    ensures forall k :: 0 <= k < |ledgers| ==> disks[k] == d.(ledger := ledgers[k])
  {
    seq(|ledgers|, k requires 0 <= k < |ledgers| => d.(ledger := ledgers[k]))
  }

  lemma WithLedgersSnoc(d: Disk, ledgers: seq<seq<LedgerRow>>, ledger: seq<LedgerRow>)
    ensures WithLedgers(d, ledgers + [ledger]) == WithLedgers(d, ledgers) + [d.(ledger := ledger)]
  {
  }

  /** The visit as a whole is what has been logged so far followed by the rest. */
  predicate Continues(whole: Visit, done: seq<seq<LedgerRow>>, rest: Visit) {
    whole == rest.(ledgers := done + rest.ledgers)
  }

  lemma AttemptStep(row: Row, ledger: seq<LedgerRow>, answers: nat -> Outcome, attempt: nat, maxAttempts: nat, got: nat,
                    whole: Visit, done: seq<seq<LedgerRow>>)
    requires attempt <= maxAttempts && got < RUNS_PER_VISIT
    requires Continues(whole, done, Attempts(row, ledger, answers, attempt, maxAttempts, got))
    ensures match answers(attempt)
      case Abort => whole == Visit(done, got, true)
      case NoRow => Continues(whole, done, Attempts(row, ledger, answers, attempt + 1, maxAttempts, got))
      case outcome =>
        var longer := ledger + [Record(row, outcome == Accepted, got)];
        Continues(whole, done + [longer],
          Attempts(row, longer, answers, attempt + 1, maxAttempts, got + if outcome == Accepted then 1 else 0))
  {
  }

  lemma {:induction false} NoMoreAttempts(row: Row, ledger: seq<LedgerRow>, answers: nat -> Outcome, attempt: nat,
                                          maxAttempts: nat, got: nat)
    requires attempt > maxAttempts || got >= RUNS_PER_VISIT
    ensures Attempts(row, ledger, answers, attempt, maxAttempts, got) == Visit([], got, false)
  {
  }

  function AnswersAt(world: World, i: nat): nat -> Outcome {
    (attempt: nat) => world(i, attempt)
  }

  /** The states one process writes, and whether it ends with an error. */
  datatype Session = Session(disks: seq<Disk>, failed: bool)

  function Then(disks: seq<Disk>, rest: Session): Session {
    rest.(disks := disks + rest.disks)
  }

  lemma ThenTwice(first: seq<Disk>, second: seq<Disk>, rest: Session)
    ensures Then(first, Then(second, rest)) == Then(first + second, rest)
  {
  }

  /** The process's checks before it touches a visit. */
  predicate MayVisit(d: Disk, row: Row) {
    row.cell.loss in LOSS_TARGETS && Id(row) !in d.manifests && Count(d.ledger, AcceptedOf(row.id)) == row.runStart - 1
  }

  predicate HasPassed(d: Disk, row: Row) {
    row.cell.loss in LOSS_TARGETS && Id(row) in d.manifests && d.manifests[Id(row)] == Pass
  }

  /** The states that carrying out visit i writes; None when the process then ends with an error. */
  function VisitWrites(d: Disk, row: Row, answers: nat -> Outcome, maxAttempts: nat): (seq<Disk>, Option<Disk>) {
    var visit := Attempts(row, d.ledger, answers, 1, maxAttempts, 0);
    var logged := WithLedgers(d, visit.ledgers);
    if visit.aborted then (logged, None)
    else
      var full := LastOf(logged, d);
      var torn := full.(manifests := full.manifests[Id(row) := Torn]);
      if visit.got != RUNS_PER_VISIT then
        (logged + [torn, full.(manifests := full.manifests[Id(row) := Fail])], None)
      else
        var passed := full.(manifests := full.manifests[Id(row) := Pass]);
        (logged + [torn, passed], Some(passed))
  }

  /** One turn of the visit loop: nothing for a passed visit, an error for one that may not start. */
  function TurnWrites(d: Disk, row: Row, answers: nat -> Outcome, maxAttempts: nat): (seq<Disk>, Option<Disk>) {
    if HasPassed(d, row) then ([], Some(d))
    else if !MayVisit(d, row) then ([], None)
    else VisitWrites(d, row, answers, maxAttempts)
  }

  /** The visit loop from position i on; `bounded` says that a visit limit was given. */
  function Visits(d: Disk, schedule: seq<Row>, i: nat, limit: nat, bounded: bool, maxAttempts: nat,
                  world: World): Session
    requires limit <= |schedule|
    decreases |schedule| - i
  {
    if i >= limit then
      Session(if bounded then [] else [d.(complete := true)], false)
    else
      var (writes, next) := TurnWrites(d, schedule[i], AnswersAt(world, i), maxAttempts);
      if next.None? then Session(writes, true)
      else Then(writes, Visits(next.value, schedule, i + 1, limit, bounded, maxAttempts, world))
  }

  lemma VisitsTurn(done: seq<Disk>, d: Disk, schedule: seq<Row>, i: nat, limit: nat, bounded: bool, maxAttempts: nat,
                   world: World)
    requires i < limit <= |schedule|
    ensures var (writes, next) := TurnWrites(d, schedule[i], AnswersAt(world, i), maxAttempts);
      Then(done, Visits(d, schedule, i, limit, bounded, maxAttempts, world))
        == if next.None? then Session(done + writes, true)
           else Then(done + writes, Visits(next.value, schedule, i + 1, limit, bounded, maxAttempts, world))
  {
    hide TurnWrites;
    var (writes, next) := TurnWrites(d, schedule[i], AnswersAt(world, i), maxAttempts);
    if next.Some? {
      ThenTwice(done, writes, Visits(next.value, schedule, i + 1, limit, bounded, maxAttempts, world));
    }
  }

  lemma {:induction false} VisitsEnd(done: seq<Disk>, d: Disk, schedule: seq<Row>, limit: nat, bounded: bool,
                                     maxAttempts: nat, world: World)
    requires limit <= |schedule|
    ensures Then(done, Visits(d, schedule, limit, limit, bounded, maxAttempts, world))
      == Session(done + if bounded then [] else [d.(complete := true)], false)
  {
  }

  /** The command line of one process. */
  datatype Arguments = Arguments(schedule: seq<Row>, maxVisits: Option<int>, maxAttempts: int)

  predicate Admissible(a: Arguments) {
    && (a.maxVisits.Some? ==> a.maxVisits.value >= 1)
    && a.maxAttempts >= RUNS_PER_VISIT && IsValid(a.schedule)
  }

  function Limit(a: Arguments): (limit: nat)
    requires Admissible(a)
    ensures limit <= |a.schedule|
  {
    if a.maxVisits.None? || a.maxVisits.value > |a.schedule| then |a.schedule| else a.maxVisits.value
  }

  function Process(d: Disk, a: Arguments, world: World): Session {
    if !Admissible(a) then Session([], true)
    else Visits(d, a.schedule, 0, Limit(a), a.maxVisits.Some?, a.maxAttempts, world)
  }

  // ---------- the process itself ----------

  class Campaign {
    var ledger: seq<LedgerRow>
    var manifests: map<VisitId, Manifest>
    var complete: bool
    ghost var written: seq<Disk>

    ghost function Now(): Disk
      reads this
    {
      Disk(ledger, manifests, complete)
    }

    constructor ()
      ensures Now() == EMPTY && written == []
    {
      ledger, manifests, complete, written := [], map[], false, [];
    }

    method AppendAcceptanceRow(record: LedgerRow)
      modifies this
      ensures Now() == old(Now()).(ledger := old(ledger) + [record]) && written == old(written) + [Now()]
    {
      ledger := ledger + [record];
      written := written + [Disk(ledger, manifests, complete)];
    }

    method WriteManifest(id: VisitId, manifest: Manifest)
      modifies this
      ensures Now() == old(Now()).(manifests := old(manifests)[id := manifest])
      ensures written == old(written) + [old(Now()).(manifests := old(manifests)[id := Torn]), Now()]
    {
      manifests := manifests[id := Torn];
      written := written + [Disk(ledger, manifests, complete)];
      manifests := manifests[id := manifest];
      written := written + [Disk(ledger, manifests, complete)];
    }

    method PriorAccepted(id: Cell) returns (count: nat)
      ensures count == Count(ledger, AcceptedOf(id))
    {
      count := 0;
      assert ledger[..|ledger|] == ledger;
      for k := 0 to |ledger|
        invariant count == Count(ledger[..k], AcceptedOf(id))
      {
        assert ledger[..k + 1] == ledger[..k] + [ledger[k]];
        FilterSnoc(ledger[..k], ledger[k], AcceptedOf(id));
        if ledger[k].accepted && ledger[k].id == id {
          count := count + 1;
        }
      }
    }

    /** The attempts of one visit, until three runs are accepted or the attempts are used up. */
    method RunVisit(row: Row, answers: nat -> Outcome, maxAttempts: nat) returns (got: nat, aborted: bool)
      modifies this
      ensures var visit := Attempts(row, old(ledger), answers, 1, maxAttempts, 0);
        && got == visit.got && aborted == visit.aborted
        && written == old(written) + WithLedgers(old(Now()), visit.ledgers)
        && Now() == LastOf(WithLedgers(old(Now()), visit.ledgers), old(Now()))
    {
      ghost var start, whole := Now(), Attempts(row, ledger, answers, 1, maxAttempts, 0);
      ghost var done: seq<seq<LedgerRow>> := [];
      assert whole.ledgers == [] + whole.ledgers && WithLedgers(start, []) == [];
      hide WithLedgers, Attempts;
      got, aborted := 0, false;
      var attempt := 1;
      while attempt <= maxAttempts && got < RUNS_PER_VISIT
        invariant 1 <= attempt
        invariant Continues(whole, done, Attempts(row, ledger, answers, attempt, maxAttempts, got))
        invariant written == old(written) + WithLedgers(start, done)
        invariant Now() == LastOf(WithLedgers(start, done), start)
        invariant manifests == start.manifests && complete == start.complete
        decreases maxAttempts - attempt
      {
        AttemptStep(row, ledger, answers, attempt, maxAttempts, got, whole, done);
        var outcome := answers(attempt);
        if outcome == Abort { return got, true; }
        if outcome != NoRow {
          AppendAcceptanceRow(Record(row, outcome == Accepted, got));
          WithLedgersSnoc(start, done, ledger);
          done := done + [ledger];
          if outcome == Accepted {
            got := got + 1;
          }
        }
        attempt := attempt + 1;
      }
      NoMoreAttempts(row, ledger, answers, attempt, maxAttempts, got);
      assert done + [] == done;
    }

    /** One visit and its manifest; ok says that the campaign may go on. */
    method CarryOut(row: Row, answers: nat -> Outcome, maxAttempts: nat) returns (ok: bool)
      modifies this
      ensures var (writes, next) := VisitWrites(old(Now()), row, answers, maxAttempts);
        && written == old(written) + writes
        && ok == next.Some?
        && (ok ==> Now() == next.value)
        && Now() == LastOf(writes, old(Now()))
    {
      hide Attempts, WithLedgers;
      var got, aborted := RunVisit(row, answers, maxAttempts);
      if aborted { return false; }
      WriteManifest(Id(row), if got == RUNS_PER_VISIT then Pass else Fail);
      ok := got == RUNS_PER_VISIT;
    }

    /**
     * One process of the campaign. The gates before the loop (worktree, seals, executables, design freeze,
     * smoke run, network, frozen inputs) refuse without writing anything; the network check at the end
     * comes after the last write.
     */
    method Run(a: Arguments, gatesHold: bool, networkAtEnd: bool, world: World) returns (failed: bool)
      modifies this
      ensures var session := if gatesHold then Process(old(Now()), a, world) else Session([], true);
        && failed == (session.failed || !networkAtEnd)
        && written == old(written) + session.disks && Now() == LastOf(session.disks, old(Now()))
    {
      if a.maxVisits.Some? && a.maxVisits.value < 1 { return true; }
      if a.maxAttempts < RUNS_PER_VISIT { return true; }
      if !gatesHold { return true; }
      var defect := ValidateSchedule(a.schedule);
      if defect.Some? { return true; }
      failed := RunAdmitted(a, world);
      failed := failed || !networkAtEnd;
    }

    /** Skips passed visits and stops at anything else it did not make itself. */
    method RunAdmitted(a: Arguments, world: World) returns (failed: bool)
      requires Admissible(a)
      modifies this
      ensures var session := Process(old(Now()), a, world);
        failed == session.failed && written == old(written) + session.disks &&
          Now() == LastOf(session.disks, old(Now()))
    {
      var limit := Limit(a);
      var maxAttempts: nat := a.maxAttempts;
      ghost var start, before, done := Now(), written, [];
      VisitingStarts(start, a, world, before);
      hide Process, Limit, Admissible, TurnWrites, Then, LastOf, Visiting, AnswersAt;
      var completedVisits := 0;
      for i := 0 to limit
        invariant completedVisits == i && a.maxAttempts == maxAttempts && limit <= |a.schedule|
        invariant Visiting(start, a, world, done, Now(), i, before, written)
      {
        ghost var d, logged := Now(), written;
        ghost var (writes, next) := TurnWrites(d, a.schedule[i], AnswersAt(world, i), maxAttempts);
        VisitingTurn(start, a, world, done, d, i, before, logged);
        var ok := Turn(a.schedule[i], AnswersAt(world, i), maxAttempts);
        done := done + writes;
        if !ok { return true; }
        completedVisits := completedVisits + 1;
      }
      VisitingEnds(start, a, world, done, Now(), before, written);
      if a.maxVisits.None? && completedVisits == |a.schedule| {
        complete := true;
        written := written + [Disk(ledger, manifests, complete)];
        return false;
      }
      return false;
    }

    method Turn(row: Row, answers: nat -> Outcome, maxAttempts: nat) returns (ok: bool)
      modifies this
      ensures var (writes, next) := TurnWrites(old(Now()), row, answers, maxAttempts);
        && written == old(written) + writes
        && ok == next.Some?
        && (ok ==> Now() == next.value)
        && Now() == LastOf(writes, old(Now()))
    {
      hide HasPassed, MayVisit, VisitWrites;
      var passed := PassedBefore(row);
      if passed { return true; }
      var allowed := Allowed(row);
      if !allowed { return false; }
      ok := CarryOut(row, answers, maxAttempts);
    }

    method PassedBefore(row: Row) returns (passed: bool)
      ensures passed == HasPassed(Now(), row)
    {
      passed := row.cell.loss in LOSS_TARGETS && Id(row) in manifests && manifests[Id(row)] == Pass;
    }

    method Allowed(row: Row) returns (allowed: bool)
      ensures allowed == MayVisit(Now(), row)
    {
      if row.cell.loss !in LOSS_TARGETS || Id(row) in manifests { return false; }
      var priorAccepted := PriorAccepted(row.id);
      return priorAccepted == row.runStart - 1;
    }
  }

  // ---------- bookkeeping for the visit loop ----------

  /** The process is what has been written so far and the loop from visit i on. */
  ghost predicate Visiting(start: Disk, a: Arguments, world: World, done: seq<Disk>, d: Disk, i: nat, before: seq<Disk>,
                           written: seq<Disk>)
  {
    && Admissible(a) && i <= Limit(a)
    && Process(start, a, world) ==
        Then(done, Visits(d, a.schedule, i, Limit(a), a.maxVisits.Some?, a.maxAttempts, world))
    && written == before + done && d == LastOf(done, start)
  }

  /** The process has ended and everything it wrote is on disk. */
  ghost predicate Visited(start: Disk, a: Arguments, world: World, d: Disk, before: seq<Disk>, written: seq<Disk>,
                          failed: bool)
  {
    var session := Process(start, a, world);
    failed == session.failed && written == before + session.disks && d == LastOf(session.disks, start)
  }

  lemma {:induction false} ProcessIsVisits(start: Disk, a: Arguments, world: World)
    requires Admissible(a)
    ensures a.maxAttempts >= 0
    ensures Process(start, a, world) == Visits(start, a.schedule, 0, Limit(a), a.maxVisits.Some?, a.maxAttempts, world)
  {
    hide Visits, IsValid;
  }

  lemma NothingWritten(rest: Session, start: Disk, before: seq<Disk>)
    ensures Then([], rest) == rest && LastOf([], start) == start && before + [] == before
  {
  }

  lemma VisitingStarts(start: Disk, a: Arguments, world: World, before: seq<Disk>)
    requires Admissible(a)
    ensures Visiting(start, a, world, [], start, 0, before, before)
  {
    ProcessIsVisits(start, a, world);
    hide TurnWrites, Visits, Process, Limit, Admissible, Then, LastOf;
    NothingWritten(Process(start, a, world), start, before);
  }

  lemma VisitingTurn(start: Disk, a: Arguments, world: World, done: seq<Disk>, d: Disk, i: nat, before: seq<Disk>,
                     logged: seq<Disk>)
    requires Visiting(start, a, world, done, d, i, before, logged) && i < Limit(a) && a.maxAttempts >= 0
    ensures var (writes, next) := TurnWrites(d, a.schedule[i], AnswersAt(world, i), a.maxAttempts);
      var h := LastOf(writes, d);
      && (next.Some? && next.value == h ==> Visiting(start, a, world, done + writes, h, i + 1, before, logged + writes))
      && (next.None? ==> Visited(start, a, world, h, before, logged + writes, true))
  {
    hide TurnWrites, Admissible, AnswersAt;
    var (writes, next) := TurnWrites(d, a.schedule[i], AnswersAt(world, i), a.maxAttempts);
    VisitsTurn(done, d, a.schedule, i, Limit(a), a.maxVisits.Some?, a.maxAttempts, world);
    hide Visits, Process, Limit;
    LastOfTwo(done, writes, start);
    Appended(before, done, writes);
  }

  lemma VisitingEnds(start: Disk, a: Arguments, world: World, done: seq<Disk>, d: Disk, before: seq<Disk>,
                     written: seq<Disk>)
    requires Admissible(a) && Visiting(start, a, world, done, d, Limit(a), before, written)
    ensures a.maxVisits.Some? ==> Visited(start, a, world, d, before, written, false)
    ensures a.maxVisits.None? ==> Limit(a) == |a.schedule|
    ensures a.maxVisits.None? ==>
        Visited(start, a, world, d.(complete := true), before, written + [d.(complete := true)], false)
  {
    hide TurnWrites;
    var marked := if a.maxVisits.Some? then [] else [d.(complete := true)];
    VisitsEnd(done, d, a.schedule, Limit(a), a.maxVisits.Some?, a.maxAttempts, world);
    hide Visits, Process, Admissible;
    LastOfTwo(done, marked, start);
    Appended(before, done, marked);
  }
}
