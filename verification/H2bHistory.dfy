/** What every history of the per-message campaign keeps, through crashes and restarts. */
module H2bHistory {
  import opened Prelude
  import opened Ordering
  import opened H2bDesign
  import opened H2bRunner

  /** A started process and the number of its writes that reach the disk before it is killed. */
  datatype Launch = Launch(arguments: Arguments, world: World, survives: nat)

  /** The disk after a series of processes, each of them killed at some write or left to finish. */
  function History(launches: seq<Launch>): Disk {
    if launches == [] then EMPTY
    else
      var n := |launches| - 1;
      var before := History(launches[..n]);
      CutOff(before, Process(before, launches[n].arguments, launches[n].world).disks, launches[n].survives)
  }

  // ---------- accepted ordinals ----------

  /** The accepted ordinals of a cell, in the order they were appended. */
  function Ordinals(ledger: seq<LedgerRow>, c: Cell): seq<int> {
    Map(Filter(ledger, AcceptedOf(c)), OrdinalOf())
  }

  predicate CountsFromOne(xs: seq<int>) {
    forall i :: 0 <= i < |xs| ==> xs[i] == i + 1
  }

  ghost predicate Contiguous(ledger: seq<LedgerRow>) {
    forall c: Cell :: CountsFromOne(Ordinals(ledger, c))
  }

  lemma RecordKeepsContiguous(ledger: seq<LedgerRow>, row: Row, accepted: bool, got: nat)
    requires Contiguous(ledger) && Count(ledger, AcceptedOf(row.id)) == row.runStart - 1 + got
    ensures var longer := ledger + [Record(row, accepted, got)];
      Contiguous(longer) && Count(longer, AcceptedOf(row.id)) == row.runStart - 1 + got + (if accepted then 1 else 0)
  {
    hide Filter;
    var record := Record(row, accepted, got);
    FilterSnoc(ledger, record, AcceptedOf(row.id));
    forall c: Cell ensures CountsFromOne(Ordinals(ledger + [record], c)) {
      FilterSnoc(ledger, record, AcceptedOf(c));
      assert CountsFromOne(Ordinals(ledger, c));
    }
  }

  lemma {:induction false} AttemptsKeepContiguous(row: Row, ledger: seq<LedgerRow>, answers: nat -> Outcome,
                                                  attempt: nat, maxAttempts: nat, got: nat)
    requires Contiguous(ledger) && Count(ledger, AcceptedOf(row.id)) == row.runStart - 1 + got
    ensures forall l :: l in Attempts(row, ledger, answers, attempt, maxAttempts, got).ledgers ==> Contiguous(l)
    decreases maxAttempts + 1 - attempt
  {
    hide Contiguous, Count;
    if attempt <= maxAttempts && got < RUNS_PER_VISIT && answers(attempt) != Abort {
      if answers(attempt) == NoRow {
        AttemptsKeepContiguous(row, ledger, answers, attempt + 1, maxAttempts, got);
      } else {
        var accepted := answers(attempt) == Accepted;
        RecordKeepsContiguous(ledger, row, accepted, got);
        AttemptsKeepContiguous(row, ledger + [Record(row, accepted, got)], answers, attempt + 1, maxAttempts,
                               got + if accepted then 1 else 0);
      }
    }
  }

  lemma TurnKeepsContiguous(d: Disk, row: Row, answers: nat -> Outcome, maxAttempts: nat)
    requires Contiguous(d.ledger)
    ensures var (writes, next) := TurnWrites(d, row, answers, maxAttempts);
      (forall w :: w in writes ==> Contiguous(w.ledger)) && (next.Some? ==> Contiguous(next.value.ledger))
  {
    hide Contiguous, Attempts, Count;
    if MayVisit(d, row) {
      AttemptsKeepContiguous(row, d.ledger, answers, 1, maxAttempts, 0);
    }
  }

  lemma {:induction false} VisitsKeepContiguous(d: Disk, schedule: seq<Row>, i: nat, limit: nat, bounded: bool,
                                                maxAttempts: nat, world: World)
    requires limit <= |schedule| && Contiguous(d.ledger)
    ensures forall w :: w in Visits(d, schedule, i, limit, bounded, maxAttempts, world).disks ==> Contiguous(w.ledger)
    decreases |schedule| - i
  {
    hide Contiguous, TurnWrites;
    if i < limit {
      TurnKeepsContiguous(d, schedule[i], AnswersAt(world, i), maxAttempts);
      var (writes, next) := TurnWrites(d, schedule[i], AnswersAt(world, i), maxAttempts);
      if next.Some? {
        VisitsKeepContiguous(next.value, schedule, i + 1, limit, bounded, maxAttempts, world);
      }
    }
  }

  /** In every history, every cell's accepted ordinals are 1, 2, 3, ... in append order. */
  lemma {:induction false} OrdinalsNeverSkipOrRepeat(launches: seq<Launch>)
    ensures Contiguous(History(launches).ledger)
  {
    if launches == [] {
    } else {
      var n := |launches| - 1;
      OrdinalsNeverSkipOrRepeat(launches[..n]);
      var before, a := History(launches[..n]), launches[n].arguments;
      if Admissible(a) {
        hide Contiguous, Visits, Admissible;
        VisitsKeepContiguous(before, a.schedule, 0, Limit(a), a.maxVisits.Some?, a.maxAttempts, launches[n].world);
      }
    }
  }

  // ---------- progress through a schedule ----------

  function AcceptedRows(ledger: seq<LedgerRow>): seq<LedgerRow> {
    Filter(ledger, IsAccepted())
  }

  /** The accepted rows that a passed visit leaves. */
  function Runs(row: Row): seq<LedgerRow> {
    [Record(row, true, 0), Record(row, true, 1), Record(row, true, 2)]
  }

  function Expected(schedule: seq<Row>): seq<LedgerRow> {
    if schedule == [] then [] else Expected(schedule[..|schedule| - 1]) + Runs(schedule[|schedule| - 1])
  }

  /** The ordinal gate of visit m finds exactly the runs of the earlier visits. */
  predicate GateFits(schedule: seq<Row>, m: nat)
    requires m < |schedule|
  {
    Count(Expected(schedule[..m]), AcceptedOf(schedule[m].id)) == schedule[m].runStart - 1
  }

  ghost predicate DistinctVisits(schedule: seq<Row>) {
    forall i, j :: 0 <= i < j < |schedule| ==> Id(schedule[i]) != Id(schedule[j])
  }

  predicate Passed(d: Disk, id: VisitId) {
    id in d.manifests && d.manifests[id] == Pass
  }

  /** The first m visits have passed and left their runs; visit m has t accepted runs; later ones nothing. */
  ghost predicate At(schedule: seq<Row>, d: Disk, m: nat, t: nat) {
    && m <= |schedule| && t <= RUNS_PER_VISIT
    && (forall i :: 0 <= i < m ==> Passed(d, Id(schedule[i])))
    && (forall i :: m < i < |schedule| ==> Id(schedule[i]) !in d.manifests)
    && (d.complete ==> m == |schedule|)
    && (if m == |schedule| then
          t == 0 && AcceptedRows(d.ledger) == Expected(schedule)
        else
          && !Passed(d, Id(schedule[m]))
          && AcceptedRows(d.ledger) == Expected(schedule[..m]) + Runs(schedule[m])[..t]
          && (t > 0 ==> GateFits(schedule, m)))
  }

  ghost predicate Sound(schedule: seq<Row>, d: Disk) {
    exists m, t :: At(schedule, d, m, t)
  }

  lemma EmptyIsAtStart(schedule: seq<Row>)
    ensures At(schedule, EMPTY, 0, 0)
  {
  }

  lemma {:induction false} AcceptedFiltered(ledger: seq<LedgerRow>, c: Cell)
    ensures Filter(AcceptedRows(ledger), AcceptedOf(c)) == Filter(ledger, AcceptedOf(c))
  {
    if ledger != [] {
      AcceptedFiltered(ledger[1..], c);
      FilterConcat(if ledger[0].accepted then [ledger[0]] else [], AcceptedRows(ledger[1..]), AcceptedOf(c));
    }
  }

  lemma CountRuns(row: Row, t: nat)
    requires t <= RUNS_PER_VISIT
    ensures Count(Runs(row)[..t], AcceptedOf(row.id)) == t
  {
    var runs := Runs(row)[..t];
    FilterEverything(runs, AcceptedOf(row.id));
  }

  /** The gate of visit m sees the earlier visits' runs and the visit's own. */
  lemma GateSees(schedule: seq<Row>, d: Disk, m: nat, t: nat)
    requires At(schedule, d, m, t) && m < |schedule|
    ensures Count(d.ledger, AcceptedOf(schedule[m].id)) ==
        Count(Expected(schedule[..m]), AcceptedOf(schedule[m].id)) + t
  {
    hide Filter, Expected;
    var c := schedule[m].id;
    AcceptedFiltered(d.ledger, c);
    FilterConcat(Expected(schedule[..m]), Runs(schedule[m])[..t], AcceptedOf(c));
    CountRuns(schedule[m], t);
  }

  /** A logged run moves the visit in progress on by its verdict. */
  lemma RecordAdvances(schedule: seq<Row>, d: Disk, m: nat, got: nat, accepted: bool)
    requires At(schedule, d, m, got) && m < |schedule| && GateFits(schedule, m) && got < RUNS_PER_VISIT
    ensures At(schedule, d.(ledger := d.ledger + [Record(schedule[m], accepted, got)]), m,
        got + if accepted then 1 else 0)
  {
    hide Filter, Expected, GateFits;
    var row := schedule[m];
    FilterSnoc(d.ledger, Record(row, accepted, got), IsAccepted());
    assert Runs(row)[..got + 1] == Runs(row)[..got] + [Record(row, true, got)];
  }

  ghost predicate AllSound(schedule: seq<Row>, d: Disk, ledgers: seq<seq<LedgerRow>>) {
    forall l :: l in ledgers ==> Sound(schedule, d.(ledger := l))
  }

  lemma OneMoreSound(schedule: seq<Row>, d: Disk, m: nat, t: nat, ledger: seq<LedgerRow>, rest: seq<seq<LedgerRow>>)
    requires At(schedule, d.(ledger := ledger), m, t) && AllSound(schedule, d.(ledger := ledger), rest)
    ensures AllSound(schedule, d, [ledger] + rest)
    ensures d.(ledger := LastOf([ledger] + rest, d.ledger)) == d.(ledger := LastOf(rest, ledger))
  {
  }

  lemma NothingLogged(schedule: seq<Row>, d: Disk, m: nat, got: nat)
    requires At(schedule, d, m, got)
    ensures got <= RUNS_PER_VISIT && AllSound(schedule, d, []) && d.(ledger := LastOf([], d.ledger)) == d
  {
  }

  lemma {:induction false} AttemptsAdvance(schedule: seq<Row>, d: Disk, m: nat, answers: nat -> Outcome,
                                           attempt: nat, maxAttempts: nat, got: nat)
    requires At(schedule, d, m, got) && m < |schedule| && GateFits(schedule, m)
    ensures var visit := Attempts(schedule[m], d.ledger, answers, attempt, maxAttempts, got);
      && AllSound(schedule, d, visit.ledgers)
      && visit.got <= RUNS_PER_VISIT
      && At(schedule, d.(ledger := LastOf(visit.ledgers, d.ledger)), m, visit.got)
    decreases maxAttempts + 1 - attempt
  {
    hide At, GateFits, Record, AllSound, LastOf;
    NothingLogged(schedule, d, m, got);
    if attempt <= maxAttempts && got < RUNS_PER_VISIT && answers(attempt) != Abort {
      if answers(attempt) == NoRow {
        AttemptsAdvance(schedule, d, m, answers, attempt + 1, maxAttempts, got);
      } else {
        var accepted := answers(attempt) == Accepted;
        var more: nat := got + if accepted then 1 else 0;
        RecordAdvances(schedule, d, m, got, accepted);
        var next := d.(ledger := d.ledger + [Record(schedule[m], accepted, got)]);
        AttemptsAdvance(schedule, next, m, answers, attempt + 1, maxAttempts, more);
        OneMoreSound(schedule, d, m, more, next.ledger,
                     Attempts(schedule[m], next.ledger, answers, attempt + 1, maxAttempts, more).ledgers);
      }
    }
  }

  lemma ManifestKeepsAt(schedule: seq<Row>, d: Disk, m: nat, t: nat, manifest: Manifest)
    requires At(schedule, d, m, t) && m < |schedule| && DistinctVisits(schedule) && manifest != Pass
    ensures At(schedule, d.(manifests := d.manifests[Id(schedule[m]) := manifest]), m, t)
  {
  }

  lemma PassAdvances(schedule: seq<Row>, d: Disk, m: nat)
    requires At(schedule, d, m, RUNS_PER_VISIT) && m < |schedule| && DistinctVisits(schedule)
    ensures At(schedule, d.(manifests := d.manifests[Id(schedule[m]) := Pass]), m + 1, 0)
  {
    hide AcceptedRows, GateFits;
    assert schedule[..m + 1][..m] == schedule[..m] && schedule[..m + 1][m] == schedule[m];
    assert Runs(schedule[m])[..RUNS_PER_VISIT] == Runs(schedule[m]);
    assert Expected(schedule[..m + 1]) == Expected(schedule[..m]) + Runs(schedule[m]);
    assert m + 1 == |schedule| ==> schedule[..m + 1] == schedule;
    assert forall r :: Runs(r)[..0] == [];
  }

  lemma VisitAdvances(schedule: seq<Row>, d: Disk, m: nat, answers: nat -> Outcome, maxAttempts: nat)
    requires At(schedule, d, m, 0) && m < |schedule| && GateFits(schedule, m) && DistinctVisits(schedule)
    ensures var (writes, next) := VisitWrites(d, schedule[m], answers, maxAttempts);
      (forall w :: w in writes ==> Sound(schedule, w)) && (next.Some? ==> At(schedule, next.value, m + 1, 0))
  {
    hide At, GateFits, DistinctVisits, Attempts;
    var row := schedule[m];
    var visit := Attempts(row, d.ledger, answers, 1, maxAttempts, 0);
    var logged := WithLedgers(d, visit.ledgers);
    AttemptsAdvance(schedule, d, m, answers, 1, maxAttempts, 0);
    forall w | w in logged ensures Sound(schedule, w) {
      var k :| 0 <= k < |logged| && logged[k] == w;
      assert visit.ledgers[k] in visit.ledgers;
    }
    var full := d.(ledger := LastOf(visit.ledgers, d.ledger));
    assert full == LastOf(logged, d);
    ManifestKeepsAt(schedule, full, m, visit.got, Torn);
    ManifestKeepsAt(schedule, full, m, visit.got, Fail);
    if visit.got == RUNS_PER_VISIT {
      PassAdvances(schedule, full, m);
    }
  }

  /** A turn at position i keeps the disk sound, and goes on only past a passed visit. */
  lemma TurnAdvances(schedule: seq<Row>, d: Disk, m: nat, t: nat, i: nat, answers: nat -> Outcome, maxAttempts: nat)
    returns (m1: nat, t1: nat)
    requires At(schedule, d, m, t) && i <= m && i < |schedule| && DistinctVisits(schedule)
    ensures var (writes, next) := TurnWrites(d, schedule[i], answers, maxAttempts);
      && (forall w :: w in writes ==> Sound(schedule, w))
      && (next.Some? ==> At(schedule, next.value, m1, t1) && i + 1 <= m1)
  {
    hide VisitWrites, Expected, Count, AcceptedRows;
    m1, t1 := m, t;
    if !HasPassed(d, schedule[i]) && MayVisit(d, schedule[i]) {
      assert i == m;
      GateSees(schedule, d, m, t);
      assert t == 0 && GateFits(schedule, m);
      VisitAdvances(schedule, d, m, answers, maxAttempts);
      m1, t1 := m + 1, 0;
    }
  }

  lemma {:induction false} VisitsAdvance(schedule: seq<Row>, d: Disk, m: nat, t: nat, i: nat, limit: nat, bounded: bool,
                                         maxAttempts: nat, world: World)
    requires At(schedule, d, m, t) && i <= m && i <= limit <= |schedule| && DistinctVisits(schedule)
    requires !bounded ==> limit == |schedule|
    ensures forall w :: w in Visits(d, schedule, i, limit, bounded, maxAttempts, world).disks ==> Sound(schedule, w)
    decreases |schedule| - i
  {
    hide TurnWrites, DistinctVisits;
    if i < limit {
      hide At;
      var m1, t1 := TurnAdvances(schedule, d, m, t, i, AnswersAt(world, i), maxAttempts);
      var (writes, next) := TurnWrites(d, schedule[i], AnswersAt(world, i), maxAttempts);
      if next.Some? {
        VisitsAdvance(schedule, next.value, m1, t1, i + 1, limit, bounded, maxAttempts, world);
      }
    } else if !bounded {
      assert At(schedule, d.(complete := true), m, t);
    }
  }

  lemma ValidIsDistinct(schedule: seq<Row>)
    requires IsValid(schedule)
    ensures DistinctVisits(schedule)
  {
    hide IsValid;
    forall i, j | 0 <= i < j < |schedule| ensures Id(schedule[i]) != Id(schedule[j]) {
      ValidVisitsAreDistinct(schedule, i, j);
    }
  }

  ghost predicate AllUse(launches: seq<Launch>, schedule: seq<Row>) {
    forall k :: 0 <= k < |launches| ==> launches[k].arguments.schedule == schedule
  }

  /** Every history over one frozen schedule leaves whole passed visits, at most one partial one, and nothing else. */
  lemma {:induction false} HistoryIsSound(schedule: seq<Row>, launches: seq<Launch>)
    requires AllUse(launches, schedule)
    ensures Sound(schedule, History(launches))
  {
    if launches == [] {
      EmptyIsAtStart(schedule);
    } else {
      var n := |launches| - 1;
      HistoryIsSound(schedule, launches[..n]);
      var before, a := History(launches[..n]), launches[n].arguments;
      if Admissible(a) {
        var m, t :| At(schedule, before, m, t);
        hide At, Visits, IsValid, Filter;
        ValidIsDistinct(schedule);
        VisitsAdvance(schedule, before, m, t, 0, Limit(a), a.maxVisits.Some?, a.maxAttempts, launches[n].world);
      }
    }
  }

  /** Only a process that accepted the schedule can have marked the campaign complete. */
  lemma {:induction false} CompleteScheduleIsValid(schedule: seq<Row>, launches: seq<Launch>)
    requires AllUse(launches, schedule) && History(launches).complete
    ensures IsValid(schedule)
  {
    hide Visits, IsValid;
    if launches != [] {
      var n := |launches| - 1;
      if !Admissible(launches[n].arguments) || !IsValid(schedule) {
        CompleteScheduleIsValid(schedule, launches[..n]);
      }
    }
  }

  /** A campaign marked complete holds exactly three accepted runs per scheduled visit, in schedule order. */
  lemma {:induction false} CompleteLedgerIsExpected(schedule: seq<Row>, launches: seq<Launch>)
    requires AllUse(launches, schedule) && History(launches).complete
    ensures AcceptedRows(History(launches).ledger) == Expected(schedule)
    ensures forall row :: row in schedule ==> Passed(History(launches), Id(row))
  {
    HistoryIsSound(schedule, launches);
    hide Filter, Expected, History, AcceptedRows;
    var m, t :| At(schedule, History(launches), m, t);
  }

  /** A visit limit below one, fewer attempts than runs, or a schedule that fails the check: an error and no write. */
  lemma BadArgumentsAreRefused(d: Disk, a: Arguments, world: World)
    requires (a.maxVisits.Some? && a.maxVisits.value < 1) || a.maxAttempts < 3 || !IsValid(a.schedule)
    ensures Process(d, a, world).failed && Process(d, a, world).disks == []
  {
    hide IsValid;
  }

  // ---------- interrupted visits ----------

  /** Visit m was begun and not finished: it has accepted runs, or a manifest that is not PASS. */
  predicate Interrupted(schedule: seq<Row>, d: Disk, m: nat, t: nat)
    requires m < |schedule|
  {
    t > 0 || Id(schedule[m]) in d.manifests
  }

  lemma InterruptedIsRefused(schedule: seq<Row>, d: Disk, m: nat, t: nat)
    requires At(schedule, d, m, t) && m < |schedule| && Interrupted(schedule, d, m, t)
    ensures !HasPassed(d, schedule[m]) && !MayVisit(d, schedule[m])
  {
    GateSees(schedule, d, m, t);
    hide Filter, Expected, Runs;
  }

  lemma {:induction false} VisitsRefuse(schedule: seq<Row>, d: Disk, m: nat, t: nat, i: nat, limit: nat, bounded: bool,
                                        maxAttempts: nat, world: World)
    requires At(schedule, d, m, t) && m < |schedule| && Interrupted(schedule, d, m, t)
    requires i <= m && i <= limit <= |schedule|
    requires !bounded ==> limit == |schedule|
    ensures Visits(d, schedule, i, limit, bounded, maxAttempts, world).disks == []
    decreases |schedule| - i
  {
    hide At, Interrupted, MayVisit, VisitWrites;
    if i < limit {
      if i == m {
        InterruptedIsRefused(schedule, d, m, t);
      } else {
        PassedBelow(schedule, d, m, t, i);
        VisitsRefuse(schedule, d, m, t, i + 1, limit, bounded, maxAttempts, world);
      }
    }
  }

  lemma PassedBelow(schedule: seq<Row>, d: Disk, m: nat, t: nat, i: nat)
    requires At(schedule, d, m, t) && i < m
    ensures Passed(d, Id(schedule[i])) && !MayVisit(d, schedule[i])
  {
  }

  /** Once a visit is interrupted, no later process writes anything: it waits for review. */
  lemma InterruptedVisitIsRefused(schedule: seq<Row>, d: Disk, m: nat, t: nat, a: Arguments, world: World)
    requires At(schedule, d, m, t) && m < |schedule| && Interrupted(schedule, d, m, t)
    requires a.schedule == schedule
    ensures Process(d, a, world).disks == []
  {
    if Admissible(a) {
      hide At, Visits, IsValid;
      VisitsRefuse(schedule, d, m, t, 0, Limit(a), a.maxVisits.Some?, a.maxAttempts, world);
    }
  }

  // ---------- what a visit leaves, by the hardware's answers ----------

  /** The accepted runs among the first n attempts. */
  function AcceptedUpTo(answers: nat -> Outcome, n: nat): nat {
    if n == 0 then 0 else AcceptedUpTo(answers, n - 1) + if answers(n) == Accepted then 1 else 0
  }

  /** The rows that the first n attempts log: accepted runs take the next ordinals, rejected ones ordinal 0. */
  function RowsUpTo(row: Row, answers: nat -> Outcome, n: nat): seq<LedgerRow> {
    if n == 0 then []
    else
      RowsUpTo(row, answers, n - 1) +
      match answers(n)
      case Accepted =>
        [LedgerRow(row.block, row.visit, row.id, row.cell, true, row.runStart + AcceptedUpTo(answers, n - 1))]
      case Rejected => [LedgerRow(row.block, row.visit, row.id, row.cell, false, 0)]
      case _ => []
  }

  /** A visit makes n attempts: up to the third accepted run, an abort, or the last one allowed. */
  ghost predicate Makes(answers: nat -> Outcome, maxAttempts: nat, n: nat) {
    && 1 <= n <= maxAttempts
    && (forall j :: 1 <= j < n ==> answers(j) != Abort && AcceptedUpTo(answers, j) < RUNS_PER_VISIT)
    && (n == maxAttempts || answers(n) == Abort || AcceptedUpTo(answers, n) == RUNS_PER_VISIT)
  }

  lemma {:induction false} AcceptedBefore(answers: nat -> Outcome, maxAttempts: nat, n: nat, k: nat)
    requires Makes(answers, maxAttempts, n) && k < n
    ensures AcceptedUpTo(answers, k) < RUNS_PER_VISIT
  {
  }

  lemma {:induction false} AttemptsMade(row: Row, ledger: seq<LedgerRow>, answers: nat -> Outcome, k: nat,
                                        maxAttempts: nat, n: nat)
    requires Makes(answers, maxAttempts, n) && k <= n && (k == n ==> answers(n) != Abort)
    ensures var now := ledger + RowsUpTo(row, answers, k);
      var visit := Attempts(row, now, answers, k + 1, maxAttempts, AcceptedUpTo(answers, k));
      && LastOf(visit.ledgers, now) == ledger + RowsUpTo(row, answers, n)
      && visit.got == AcceptedUpTo(answers, n) && visit.aborted == (answers(n) == Abort)
    decreases n - k
  {
    var now := ledger + RowsUpTo(row, answers, k);
    if k == n {
    } else if answers(k + 1) == Abort {
      AcceptedBefore(answers, maxAttempts, n, k);
      assert n == k + 1;
    } else {
      AcceptedBefore(answers, maxAttempts, n, k);
      AttemptsMade(row, ledger, answers, k + 1, maxAttempts, n);
      if answers(k + 1) != NoRow {
        var longer := now + [Record(row, answers(k + 1) == Accepted, AcceptedUpTo(answers, k))];
        assert longer == ledger + RowsUpTo(row, answers, k + 1);
        LastOfTwo([longer], Attempts(row, longer, answers, k + 2, maxAttempts, AcceptedUpTo(answers, k + 1)).ledgers,
                  now);
        LastOfOne(longer, now);
      } else {
        assert RowsUpTo(row, answers, k + 1) == RowsUpTo(row, answers, k);
      }
    }
  }

  /** The manifests after a visit of n attempts: none after an abort, else PASS exactly for three accepted runs. */
  function ManifestsAfter(manifests: map<VisitId, Manifest>, row: Row, answers: nat -> Outcome, n: nat):
      map<VisitId, Manifest>
  {
    if answers(n) == Abort then manifests
    else if AcceptedUpTo(answers, n) == RUNS_PER_VISIT then manifests[Id(row) := Pass]
    else manifests[Id(row) := Fail]
  }

  /** What a visit of n attempts leaves on disk. */
  function DiskAfter(d: Disk, row: Row, answers: nat -> Outcome, n: nat): Disk {
    Disk(d.ledger + RowsUpTo(row, answers, n), ManifestsAfter(d.manifests, row, answers, n), d.complete)
  }

  /** Whether a visit of n attempts lets its process go on to the next one. */
  predicate Delivers(answers: nat -> Outcome, n: nat) {
    answers(n) != Abort && AcceptedUpTo(answers, n) == RUNS_PER_VISIT
  }

  lemma VisitLeaves(d: Disk, row: Row, answers: nat -> Outcome, maxAttempts: nat, n: nat)
    requires Makes(answers, maxAttempts, n)
    ensures var (writes, next) := VisitWrites(d, row, answers, maxAttempts);
      && LastOf(writes, d) == DiskAfter(d, row, answers, n)
      && next == if Delivers(answers, n) then Some(DiskAfter(d, row, answers, n)) else None
  {
    hide Attempts, RowsUpTo, AcceptedUpTo;
    NothingMade(row, answers, d.ledger);
    AttemptsMade(row, d.ledger, answers, 0, maxAttempts, n);
    var visit := Attempts(row, d.ledger, answers, 1, maxAttempts, 0);
    var logged := WithLedgers(d, visit.ledgers);
    assert LastOf(logged, d) == d.(ledger := LastOf(visit.ledgers, d.ledger));
  }

  lemma {:induction false} NothingMade(row: Row, answers: nat -> Outcome, ledger: seq<LedgerRow>)
    ensures AcceptedUpTo(answers, 0) == 0 && ledger + RowsUpTo(row, answers, 0) == ledger
  {
  }

  /** Every judged run is on disk before the next attempt is made. */
  lemma {:induction false} AttemptsLogOneByOne(row: Row, ledger: seq<LedgerRow>, answers: nat -> Outcome, k: nat,
                                               maxAttempts: nat, n: nat)
    requires Makes(answers, maxAttempts, n) && k <= n && (k == n ==> answers(n) != Abort)
    ensures var had, all := RowsUpTo(row, answers, k), RowsUpTo(row, answers, n);
      var logged := Attempts(row, ledger + had, answers, k + 1, maxAttempts, AcceptedUpTo(answers, k)).ledgers;
      && |had| + |logged| == |all|
      && forall i :: 0 <= i < |logged| ==> logged[i] == ledger + all[..|had| + i + 1]
    decreases n - k
  {
    RowsGrow(row, answers, k, n);
    if k < n {
      AcceptedBefore(answers, maxAttempts, n, k);
      if answers(k + 1) == Abort {
        assert n == k + 1;
      } else {
        AttemptsLogOneByOne(row, ledger, answers, k + 1, maxAttempts, n);
        RowsGrow(row, answers, k + 1, n);
        LogsNext(row, ledger, answers, k, maxAttempts, n);
      }
    }
  }

  lemma {:induction false} RowsGrow(row: Row, answers: nat -> Outcome, k: nat, n: nat)
    requires k <= n
    ensures RowsUpTo(row, answers, k) <= RowsUpTo(row, answers, n)
  {
    if k < n {
      RowsGrow(row, answers, k, n - 1);
    }
  }

  lemma {:induction false} LogsNext(row: Row, ledger: seq<LedgerRow>, answers: nat -> Outcome, k: nat, maxAttempts: nat,
                                    n: nat)
    requires k < n <= maxAttempts && AcceptedUpTo(answers, k) < RUNS_PER_VISIT && answers(k + 1) != Abort
    ensures var now, next := ledger + RowsUpTo(row, answers, k), ledger + RowsUpTo(row, answers, k + 1);
      Attempts(row, now, answers, k + 1, maxAttempts, AcceptedUpTo(answers, k)).ledgers
        == (if answers(k + 1) == NoRow then [] else [next])
           + Attempts(row, next, answers, k + 2, maxAttempts, AcceptedUpTo(answers, k + 1)).ledgers
  {
    var now, next := ledger + RowsUpTo(row, answers, k), ledger + RowsUpTo(row, answers, k + 1);
    if answers(k + 1) == NoRow {
      assert next == now;
    } else {
      assert next == now + [Record(row, answers(k + 1) == Accepted, AcceptedUpTo(answers, k))];
    }
  }

  /** The states of a visit: one more row each, and for its manifest a torn file before the whole one. */
  lemma {:induction false} VisitStates(d: Disk, row: Row, answers: nat -> Outcome, maxAttempts: nat, n: nat)
    requires Makes(answers, maxAttempts, n)
    ensures var rows, disks := RowsUpTo(row, answers, n), VisitWrites(d, row, answers, maxAttempts).0;
      && |disks| == |rows| + (if answers(n) == Abort then 0 else 2)
      && (forall i :: 0 <= i < |rows| ==> disks[i] == Disk(d.ledger + rows[..i + 1], d.manifests, d.complete))
      && (answers(n) != Abort ==>
            disks[|rows|] == Disk(d.ledger + rows, d.manifests[Id(row) := Torn], d.complete))
  {
    hide Attempts, RowsUpTo, AcceptedUpTo;
    NothingMade(row, answers, d.ledger);
    AttemptsMade(row, d.ledger, answers, 0, maxAttempts, n);
    AttemptsLogOneByOne(row, d.ledger, answers, 0, maxAttempts, n);
    NoRowsYet(row, answers);
    var visit := Attempts(row, d.ledger, answers, 1, maxAttempts, 0);
    var logged := WithLedgers(d, visit.ledgers);
    assert LastOf(logged, d) == d.(ledger := LastOf(visit.ledgers, d.ledger));
  }

  lemma {:induction false} NoRowsYet(row: Row, answers: nat -> Outcome)
    ensures RowsUpTo(row, answers, 0) == []
  {
  }

  predicate KnownLoss(row: Row) {
    row.cell.loss in {0, 1, 5, 10, 15}
  }

  /** Visit m is the next one and nothing keeps it from starting. */
  ghost predicate IsNext(schedule: seq<Row>, d: Disk, m: nat) {
    && m < |schedule| && At(schedule, d, m, 0) && GateFits(schedule, m) && Id(schedule[m]) !in d.manifests
    && forall i :: 0 <= i <= m ==> KnownLoss(schedule[i])
  }

  lemma {:induction false} SkipPassed(schedule: seq<Row>, d: Disk, m: nat, i: nat, limit: nat, bounded: bool,
                                      maxAttempts: nat, world: World)
    requires i <= m < limit <= |schedule|
    requires forall j :: i <= j < m ==> HasPassed(d, schedule[j])
    ensures Visits(d, schedule, i, limit, bounded, maxAttempts, world)
         == Visits(d, schedule, m, limit, bounded, maxAttempts, world)
    decreases m - i
  {
    if i < m {
      SkipPassed(schedule, d, m, i + 1, limit, bounded, maxAttempts, world);
      ThenTwice([], [], Visits(d, schedule, i + 1, limit, bounded, maxAttempts, world));
    }
  }

  lemma NextOpens(schedule: seq<Row>, d: Disk, m: nat)
    requires IsNext(schedule, d, m)
    ensures forall j :: 0 <= j < m ==> HasPassed(d, schedule[j])
    ensures !HasPassed(d, schedule[m]) && MayVisit(d, schedule[m])
  {
    hide Count, Expected;
    GateSees(schedule, d, m, 0);
  }

  /** A process comes to the next visit at once, and carries it out. */
  lemma {:induction false} ProcessVisits(schedule: seq<Row>, d: Disk, m: nat, a: Arguments, world: World)
    requires IsNext(schedule, d, m) && Admissible(a) && a.schedule == schedule && m < Limit(a)
    ensures var (writes, next) := VisitWrites(d, schedule[m], AnswersAt(world, m), a.maxAttempts);
      Process(d, a, world) == if next.None? then Session(writes, true)
        else Then(writes, Visits(next.value, schedule, m + 1, Limit(a), a.maxVisits.Some?, a.maxAttempts, world))
  {
    hide IsValid, IsNext, HasPassed, MayVisit, VisitWrites;
    NextOpens(schedule, d, m);
    SkipPassed(schedule, d, m, 0, Limit(a), a.maxVisits.Some?, a.maxAttempts, world);
  }

  /**
   * A visit that uses up its attempts with fewer than three accepted runs fails its process and leaves its
   * runs and a FAIL manifest; no later process over the schedule writes anything, whatever its hardware answers.
   */
  lemma {:induction false} FailedVisitIsRefused(schedule: seq<Row>, d: Disk, m: nat, a: Arguments, world: World)
    requires IsValid(schedule) && IsNext(schedule, d, m)
    requires Admissible(a) && a.schedule == schedule && m < Limit(a)
    requires forall j :: 1 <= j <= a.maxAttempts ==> world(m, j) != Abort
    requires AcceptedUpTo(AnswersAt(world, m), a.maxAttempts) < RUNS_PER_VISIT
    ensures var session := Process(d, a, world);
      var e := LastOf(session.disks, d);
      && session.failed
      && e.manifests == d.manifests[Id(schedule[m]) := Fail]
      && e.ledger == d.ledger + RowsUpTo(schedule[m], AnswersAt(world, m), a.maxAttempts)
      && NothingMoreIsWritten(schedule, e)
  {
    hide IsValid, Process, VisitWrites, Admissible, Limit, GateFits, KnownLoss, Makes, RowsUpTo, AcceptedUpTo, At,
         NothingMoreIsWritten;
    SomeAttempts(a);
    var answers, n: nat := AnswersAt(world, m), a.maxAttempts;
    FewMakesAll(answers, n);
    ProcessVisits(schedule, d, m, a, world);
    VisitLeaves(d, schedule[m], answers, n, n);
    VisitStaysAt(schedule, d, m, answers, n, n);
    StuckVisitStops(schedule, DiskAfter(d, schedule[m], answers, n), m, AcceptedUpTo(answers, n));
  }

  lemma SomeAttempts(a: Arguments)
    requires Admissible(a)
    ensures a.maxAttempts >= 1
  {
    hide IsValid;
  }

  /** No process over the schedule writes anything, whatever its other arguments and its hardware's answers. */
  ghost predicate NothingMoreIsWritten(schedule: seq<Row>, d: Disk) {
    forall later: Arguments, world: World :: later.schedule == schedule ==> Process(d, later, world).disks == []
  }

  lemma {:induction false} StuckVisitStops(schedule: seq<Row>, d: Disk, m: nat, t: nat)
    requires At(schedule, d, m, t) && m < |schedule| && Interrupted(schedule, d, m, t)
    ensures NothingMoreIsWritten(schedule, d)
  {
    hide At, Interrupted, Process;
    forall later: Arguments, world: World | later.schedule == schedule ensures Process(d, later, world).disks == [] {
      InterruptedVisitIsRefused(schedule, d, m, t, later, world);
    }
  }

  lemma {:induction false} AcceptedGrows(answers: nat -> Outcome, j: nat, n: nat)
    requires j <= n
    ensures AcceptedUpTo(answers, j) <= AcceptedUpTo(answers, n)
  {
    if j < n {
      AcceptedGrows(answers, j, n - 1);
    }
  }

  lemma {:induction false} FewMakesAll(answers: nat -> Outcome, maxAttempts: nat)
    requires maxAttempts >= 1 && AcceptedUpTo(answers, maxAttempts) < RUNS_PER_VISIT
    requires forall j :: 1 <= j <= maxAttempts ==> answers(j) != Abort
    ensures Makes(answers, maxAttempts, maxAttempts)
  {
    forall j | 1 <= j < maxAttempts ensures answers(j) != Abort && AcceptedUpTo(answers, j) < RUNS_PER_VISIT {
      AcceptedGrows(answers, j, maxAttempts);
    }
  }

  /** A visit that does not deliver stays the one in progress. */
  lemma {:induction false} VisitStaysAt(schedule: seq<Row>, d: Disk, m: nat, answers: nat -> Outcome, maxAttempts: nat,
                                        n: nat)
    requires IsValid(schedule) && IsNext(schedule, d, m) && Makes(answers, maxAttempts, n) && !Delivers(answers, n)
    ensures At(schedule, DiskAfter(d, schedule[m], answers, n), m, AcceptedUpTo(answers, n))
  {
    hide At, GateFits, Attempts, Makes, IsValid, KnownLoss, RowsUpTo, AcceptedUpTo;
    ValidIsDistinct(schedule);
    var row := schedule[m];
    MadeSome(answers, maxAttempts, n);
    NothingMade(row, answers, d.ledger);
    AttemptsMade(row, d.ledger, answers, 0, maxAttempts, n);
    AttemptsAdvance(schedule, d, m, answers, 1, maxAttempts, 0);
    var full := d.(ledger := d.ledger + RowsUpTo(row, answers, n));
    ManifestKeepsAt(schedule, full, m, AcceptedUpTo(answers, n), Fail);
  }

  lemma MadeSome(answers: nat -> Outcome, maxAttempts: nat, n: nat)
    requires Makes(answers, maxAttempts, n)
    ensures 1 <= n <= maxAttempts
  {
  }

  /**
   * A process limited to the next visit leaves exactly what the hardware's answers say: the rows of its n attempts,
   * and PASS, FAIL or no manifest. It ends without an error exactly when three runs were accepted.
   */
  lemma {:induction false} OneVisit(schedule: seq<Row>, d: Disk, m: nat, a: Arguments, world: World, n: nat)
    requires IsValid(schedule) && IsNext(schedule, d, m)
    requires Admissible(a) && a.schedule == schedule && a.maxVisits == Some(m + 1)
    requires Makes(AnswersAt(world, m), a.maxAttempts, n)
    ensures var session := Process(d, a, world);
      && (session.failed <==> !Delivers(AnswersAt(world, m), n))
      && LastOf(session.disks, d) == DiskAfter(d, schedule[m], AnswersAt(world, m), n)
  {
    var answers, maxAttempts: nat := AnswersAt(world, m), a.maxAttempts;
    hide IsValid, Process, VisitWrites, Admissible, IsNext, Makes, DiskAfter, Delivers;
    LimitIs(schedule, d, m, a);
    ProcessVisits(schedule, d, m, a, world);
    VisitLeaves(d, schedule[m], answers, maxAttempts, n);
    if Delivers(answers, n) {
      var e := DiskAfter(d, schedule[m], answers, n);
      VisitsEnd([], e, schedule, m + 1, true, maxAttempts, world);
      ThenNothing(VisitWrites(d, schedule[m], answers, maxAttempts).0,
                  Visits(e, schedule, m + 1, m + 1, true, maxAttempts, world));
    }
  }

  lemma LimitIs(schedule: seq<Row>, d: Disk, m: nat, a: Arguments)
    requires IsNext(schedule, d, m) && Admissible(a) && a.schedule == schedule && a.maxVisits == Some(m + 1)
    ensures m < |schedule| && Limit(a) == m + 1
  {
    hide IsValid, At;
  }

  lemma ThenNothing(writes: seq<Disk>, rest: Session)
    requires Then([], rest) == Session([], false)
    ensures Then(writes, rest) == Session(writes, false)
  {
  }

  /**
   * A visit that an exception ends may be made again exactly when it has no accepted run yet; otherwise no later
   * process over the schedule writes anything.
   */
  lemma {:induction false} AbortedVisit(schedule: seq<Row>, d: Disk, m: nat, a: Arguments, world: World, n: nat)
    requires IsValid(schedule) && IsNext(schedule, d, m)
    requires Admissible(a) && a.schedule == schedule && m < Limit(a)
    requires Makes(AnswersAt(world, m), a.maxAttempts, n) && world(m, n) == Abort
    ensures var session := Process(d, a, world);
      var e := LastOf(session.disks, d);
      && session.failed && e == DiskAfter(d, schedule[m], AnswersAt(world, m), n)
      && (IsNext(schedule, e, m) <==> AcceptedUpTo(AnswersAt(world, m), n) == 0)
      && (AcceptedUpTo(AnswersAt(world, m), n) > 0 ==> NothingMoreIsWritten(schedule, e))
  {
    var answers, maxAttempts: nat := AnswersAt(world, m), a.maxAttempts;
    hide IsValid, Process, VisitWrites, Admissible, Limit, Makes, AcceptedUpTo, At, GateFits, KnownLoss, RowsUpTo,
         NothingMoreIsWritten;
    ProcessVisits(schedule, d, m, a, world);
    VisitLeaves(d, schedule[m], answers, maxAttempts, n);
    VisitStaysAt(schedule, d, m, answers, maxAttempts, n);
    var e, t := DiskAfter(d, schedule[m], answers, n), AcceptedUpTo(answers, n);
    if t > 0 {
      OneProgress(schedule, e, m, t);
      StuckVisitStops(schedule, e, m, t);
    }
  }

  /** A disk shows how many accepted runs the visit in progress has. */
  lemma OneProgress(schedule: seq<Row>, d: Disk, m: nat, t: nat)
    requires m < |schedule| && At(schedule, d, m, t) && t > 0
    ensures !At(schedule, d, m, 0)
  {
    hide Expected, AcceptedRows, GateFits;
  }

  // ---------- when an undisturbed campaign completes ----------

  /** Each cell's visits come in block order. */
  ghost predicate CellsInBlockOrder(schedule: seq<Row>) {
    forall i, j :: 0 <= i < j < |schedule| && schedule[i].id == schedule[j].id ==> schedule[i].block < schedule[j].block
  }

  /** Every scheduled visit stands for three accepted rows. */
  lemma {:induction false} CountExpected(schedule: seq<Row>, p: LedgerRow -> bool, q: Row -> bool)
    requires forall row, got :: row in schedule && 0 <= got < RUNS_PER_VISIT ==> p(Record(row, true, got)) == q(row)
    ensures Count(Expected(schedule), p) == RUNS_PER_VISIT * Count(schedule, q)
  {
    if schedule != [] {
      var n := |schedule| - 1;
      var front, row := schedule[..n], schedule[n];
      CountExpected(front, p, q);
      assert schedule == front + [row];
      FilterSnoc(front, row, q);
      FilterConcat(Expected(front), Runs(row), p);
      if q(row) {
        FilterEverything(Runs(row), p);
      } else {
        CountNone(Runs(row), p);
      }
    }
  }

  lemma ValidRunStart(schedule: seq<Row>, i: nat)
    requires IsValid(schedule) && i < |schedule|
    ensures schedule[i].runStart == FirstRun(schedule[i].block)
  {
    hide Filter, SortBy, Ids, Elements, CELLS;
    var row := schedule[i];
    ValidRowsAreInBlocks(schedule);
    assert ValidBlock(schedule, row.block);
    var inBlock, sorted := Filter(schedule, InBlock(row.block)), BlockRows(schedule, row.block);
    assert row in inBlock;
    SameElements(sorted, inBlock);
    var k :| 0 <= k < |sorted| && sorted[k] == row;
  }

  lemma NoneEarlierAfter(schedule: seq<Row>, j: nat)
    requires j < |schedule| && CellsInBlockOrder(schedule) && 1 <= schedule[j].block
    ensures Count(schedule[j..], Within(HasId(schedule[j].id), schedule[j].block - 1)) == 0
  {
    var within := Within(HasId(schedule[j].id), schedule[j].block - 1);
    forall r | r in schedule[j..] ensures !within(r) {
      var k :| j <= k < |schedule| && schedule[k] == r;
    }
    CountNone(schedule[j..], within);
  }

  lemma AllEarlierBefore(schedule: seq<Row>, j: nat)
    requires j < |schedule| && CellsInBlockOrder(schedule) && forall r :: r in schedule ==> 1 <= r.block
    ensures Count(schedule[..j], Within(HasId(schedule[j].id), schedule[j].block - 1))
      == Count(schedule[..j], HasId(schedule[j].id))
  {
    var p := HasId(schedule[j].id);
    var within := Within(p, schedule[j].block - 1);
    forall r | r in schedule[..j] ensures within(r) == p(r) {
      var k :| 0 <= k < j && schedule[k] == r;
    }
    CountSame(schedule[..j], within, p);
  }

  /** The visits of a cell before its j-th row are those of earlier blocks, when its visits are in block order. */
  lemma EarlierVisits(schedule: seq<Row>, j: nat)
    requires IsValid(schedule) && j < |schedule| && CellsInBlockOrder(schedule)
    ensures Count(schedule[..j], HasId(schedule[j].id)) == schedule[j].block - 1
  {
    hide Filter, IsValid, CELLS, CellsInBlockOrder;
    var c, b := schedule[j].id, schedule[j].block;
    ValidVisitsEachCellOnce(schedule);
    assert c in CELLS && 1 <= b;
    CountUpTo(schedule, HasId(c), b - 1, 1);
    NoneEarlierAfter(schedule, j);
    AllEarlierBefore(schedule, j);
    assert schedule == schedule[..j] + schedule[j..];
    FilterConcat(schedule[..j], schedule[j..], Within(HasId(c), b - 1));
  }

  /** Every ordinal gate fits exactly when each cell's visits come in block order. */
  lemma GatesFitExactlyInBlockOrder(schedule: seq<Row>)
    requires IsValid(schedule)
    ensures (forall j :: 0 <= j < |schedule| ==> GateFits(schedule, j)) <==> CellsInBlockOrder(schedule)
  {
    hide Filter, IsValid, Expected;
    forall j | 0 <= j < |schedule|
      ensures GateFits(schedule, j) <==> Count(schedule[..j], HasId(schedule[j].id)) == schedule[j].block - 1
    {
      CountExpected(schedule[..j], AcceptedOf(schedule[j].id), HasId(schedule[j].id));
      ValidRunStart(schedule, j);
    }
    if CellsInBlockOrder(schedule) {
      forall j | 0 <= j < |schedule| ensures GateFits(schedule, j) {
        EarlierVisits(schedule, j);
      }
    }
    if forall j :: 0 <= j < |schedule| ==> GateFits(schedule, j) {
      forall i, j | 0 <= i < j < |schedule| && schedule[i].id == schedule[j].id
        ensures schedule[i].block < schedule[j].block
      {
        assert GateFits(schedule, i) && GateFits(schedule, j);
        var p := HasId(schedule[j].id);
        assert schedule[..j] == schedule[..i] + schedule[i..j];
        FilterConcat(schedule[..i], schedule[i..j], p);
        assert schedule[i] in schedule[i..j];
        assert schedule[i] in Filter(schedule[i..j], p);
      }
    }
  }

  /** Every visit gets its three accepted runs without an exception. */
  ghost predicate Succeeds(schedule: seq<Row>, maxAttempts: nat, world: World) {
    forall i, ledger :: 0 <= i < |schedule| ==>
      Attempts(schedule[i], ledger, AnswersAt(world, i), 1, maxAttempts, 0).got == RUNS_PER_VISIT
      && !Attempts(schedule[i], ledger, AnswersAt(world, i), 1, maxAttempts, 0).aborted
  }

  /** Nothing keeps visit m from starting when it is its turn. */
  predicate Opens(schedule: seq<Row>, m: nat)
    requires m < |schedule|
  {
    KnownLoss(schedule[m]) && GateFits(schedule, m)
  }

  lemma MayVisitWhenOpen(schedule: seq<Row>, d: Disk, i: nat)
    requires At(schedule, d, i, 0) && i < |schedule| && Id(schedule[i]) !in d.manifests
    ensures !HasPassed(d, schedule[i]) && (MayVisit(d, schedule[i]) <==> Opens(schedule, i))
  {
    hide Count, Expected, At, CELLS;
    GateSees(schedule, d, i, 0);
  }

  lemma VisitSucceeds(schedule: seq<Row>, d: Disk, i: nat, maxAttempts: nat, world: World) returns (next: Disk)
    requires DistinctVisits(schedule) && Succeeds(schedule, maxAttempts, world)
    requires At(schedule, d, i, 0) && i < |schedule| && GateFits(schedule, i)
    ensures VisitWrites(d, schedule[i], AnswersAt(world, i), maxAttempts).1 == Some(next)
    ensures At(schedule, next, i + 1, 0)
    ensures i + 1 < |schedule| ==> Id(schedule[i + 1]) !in next.manifests
  {
    VisitAdvances(schedule, d, i, AnswersAt(world, i), maxAttempts);
    hide Expected, Runs, AcceptedRows, GateFits, Attempts;
    next := VisitWrites(d, schedule[i], AnswersAt(world, i), maxAttempts).1.value;
  }

  /** From visit i on, the process goes through and completes exactly when every visit opens in its turn. */
  ghost predicate CompletesWhenOpen(session: Session, schedule: seq<Row>, i: nat) {
    && (!session.failed <==> forall j :: i <= j < |schedule| ==> Opens(schedule, j))
    && (!session.failed ==> session.disks != [] && session.disks[|session.disks| - 1].complete)
  }

  lemma CompletesThen(writes: seq<Disk>, rest: Session, schedule: seq<Row>, i: nat)
    requires i < |schedule| && Opens(schedule, i) && CompletesWhenOpen(rest, schedule, i + 1)
    ensures CompletesWhenOpen(Then(writes, rest), schedule, i)
  {
    hide Opens;
  }

  lemma {:induction false} VisitsSucceed(schedule: seq<Row>, d: Disk, i: nat, maxAttempts: nat, world: World)
    requires DistinctVisits(schedule) && Succeeds(schedule, maxAttempts, world)
    requires At(schedule, d, i, 0) && i <= |schedule| && (i < |schedule| ==> Id(schedule[i]) !in d.manifests)
    ensures CompletesWhenOpen(Visits(d, schedule, i, |schedule|, false, maxAttempts, world), schedule, i)
    decreases |schedule| - i
  {
    hide At, DistinctVisits, Succeeds, Opens, HasPassed, MayVisit, VisitWrites, Then;
    if i < |schedule| {
      MayVisitWhenOpen(schedule, d, i);
      if Opens(schedule, i) {
        GateFitsWhenOpen(schedule, i);
        var next := VisitSucceeds(schedule, d, i, maxAttempts, world);
        VisitsSucceed(schedule, next, i + 1, maxAttempts, world);
        CompletesThen(VisitWrites(d, schedule[i], AnswersAt(world, i), maxAttempts).0,
                      Visits(next, schedule, i + 1, |schedule|, false, maxAttempts, world), schedule, i);
      }
    }
  }

  lemma GateFitsWhenOpen(schedule: seq<Row>, i: nat)
    requires i < |schedule| && Opens(schedule, i)
    ensures GateFits(schedule, i)
  {
  }

  /**
   * With hardware that delivers, one process over a valid schedule ends without an error, and then
   * with the campaign marked complete, exactly when every loss is known and each cell's visits come
   * in block order.
   */
  lemma CompletesExactlyInBlockOrder(schedule: seq<Row>, maxAttempts: nat, world: World)
    requires IsValid(schedule) && maxAttempts >= RUNS_PER_VISIT && Succeeds(schedule, maxAttempts, world)
    ensures var session := Process(EMPTY, Arguments(schedule, None, maxAttempts), world);
      && (!session.failed <==> CellsInBlockOrder(schedule) && forall row :: row in schedule ==> KnownLoss(row))
      && (!session.failed ==> session.disks != [] && session.disks[|session.disks| - 1].complete)
  {
    hide At, IsValid, Visits, DistinctVisits, Succeeds, GateFits, CellsInBlockOrder, KnownLoss;
    ValidIsDistinct(schedule);
    EmptyIsAtStart(schedule);
    VisitsSucceed(schedule, EMPTY, 0, maxAttempts, world);
    GatesFitExactlyInBlockOrder(schedule);
    assert forall j :: 0 <= j < |schedule| ==>
        (Opens(schedule, j) <==> KnownLoss(schedule[j]) && GateFits(schedule, j));
  }

  ghost predicate Named(schedule: seq<Row>) {
    forall row :: row in schedule ==> row.cell == row.id
  }

  lemma NamedLossesAreKnown(schedule: seq<Row>)
    requires IsValid(schedule) && Named(schedule)
    ensures forall row :: row in schedule ==> KnownLoss(row)
  {
    hide IsValid, CELLS, KnownLoss;
    ValidVisitsEachCellOnce(schedule);
    forall row | row in schedule ensures KnownLoss(row) {
      CellLossIsKnown(row);
    }
  }

  lemma CellLossIsKnown(row: Row)
    requires row.cell in CELLS
    ensures KnownLoss(row)
  {
  }

  lemma {:induction false} BuiltBlocksGrow(shuffles: seq<seq<Cell>>)
    ensures forall r :: r in Built(shuffles) ==> r.block <= |shuffles|
    ensures forall i, j :: 0 <= i < j < |Built(shuffles)| ==> Built(shuffles)[i].block <= Built(shuffles)[j].block
    ensures Named(Built(shuffles))
  {
    if shuffles != [] {
      BuiltBlocksGrow(shuffles[..|shuffles| - 1]);
    }
  }

  lemma {:induction false} BuiltInBlockOrder(shuffles: seq<seq<Cell>>)
    requires IsValid(Built(shuffles))
    ensures CellsInBlockOrder(Built(shuffles))
  {
    hide Built, IsValid;
    BuiltBlocksGrow(shuffles);
    var schedule := Built(shuffles);
    forall i, j | 0 <= i < j < |schedule| && schedule[i].id == schedule[j].id
      ensures schedule[i].block < schedule[j].block
    {
      ValidVisitsAreDistinct(schedule, i, j);
    }
  }

  /** A built schedule that passes the check never gets stuck at an ordinal gate. */
  lemma {:induction false} BuiltScheduleCompletes(shuffles: seq<seq<Cell>>, maxAttempts: nat, world: World)
    requires AreShuffles(shuffles) && (exists b :: 0 <= b < BLOCKS && shuffles[b] != shuffles[0])
    requires maxAttempts >= RUNS_PER_VISIT && Succeeds(Built(shuffles), maxAttempts, world)
    ensures var session := Process(EMPTY, Arguments(Built(shuffles), None, maxAttempts), world);
      !session.failed && session.disks != [] && session.disks[|session.disks| - 1].complete
  {
    hide Built, IsValid, Process, Succeeds, AreShuffles, CellsInBlockOrder, KnownLoss, Named;
    BuiltIsValid(shuffles);
    BuiltBlocksGrow(shuffles);
    BuiltInBlockOrder(shuffles);
    NamedLossesAreKnown(Built(shuffles));
    CompletesExactlyInBlockOrder(Built(shuffles), maxAttempts, world);
  }

  // ---------- a valid schedule that cannot be completed ----------

  /** The hardware whose every attempt is accepted. */
  function Delivering(): World {
    (i: nat, attempt: nat) => Accepted
  }

  lemma DeliveringSucceeds(schedule: seq<Row>, maxAttempts: nat)
    requires maxAttempts >= RUNS_PER_VISIT
    ensures Succeeds(schedule, maxAttempts, Delivering())
  {
    forall i, ledger | 0 <= i < |schedule|
      ensures var visit := Attempts(schedule[i], ledger, AnswersAt(Delivering(), i), 1, maxAttempts, 0);
        visit.got == RUNS_PER_VISIT && !visit.aborted
    {
      DeliveringVisit(schedule[i], ledger, AnswersAt(Delivering(), i), 1, maxAttempts, 0);
    }
  }

  lemma {:induction false} DeliveringVisit(row: Row, ledger: seq<LedgerRow>, answers: nat -> Outcome,
                                           attempt: nat, maxAttempts: nat, got: nat)
    requires got <= RUNS_PER_VISIT <= maxAttempts && attempt == got + 1
    requires forall k :: answers(k) == Accepted
    ensures var visit := Attempts(row, ledger, answers, attempt, maxAttempts, got);
      visit.got == RUNS_PER_VISIT && !visit.aborted
    decreases RUNS_PER_VISIT - got
  {
    if got < RUNS_PER_VISIT {
      DeliveringVisit(row, ledger + [Record(row, true, got)], answers, attempt + 1, maxAttempts, got + 1);
    }
  }

  lemma {:induction false} FirstBlockFirst(shuffles: seq<seq<Cell>>)
    requires |shuffles| > 0
    ensures |Built(shuffles)| >= |shuffles[0]|
    ensures forall i :: 0 <= i < |shuffles[0]| ==> Built(shuffles)[i].block == 1
    ensures forall i :: |shuffles[0]| <= i < |Built(shuffles)| ==> Built(shuffles)[i].block > 1
  {
    var n := |shuffles| - 1;
    if n == 0 {
      assert Built(shuffles[..0]) == [];
    } else {
      FirstBlockFirst(shuffles[..n]);
    }
  }

  /** A built schedule with its first block moved to the end of the file. */
  function FirstBlockLast(shuffles: seq<seq<Cell>>): seq<Row>
    requires |Built(shuffles)| >= CELL_COUNT
  {
    Rotated(Built(shuffles), CELL_COUNT)
  }

  lemma {:induction false} FirstBlockLastIsValid(shuffles: seq<seq<Cell>>)
    requires AreShuffles(shuffles) && IsValid(Built(shuffles))
    ensures |Built(shuffles)| >= CELL_COUNT && IsValid(FirstBlockLast(shuffles))
    ensures !CellsInBlockOrder(FirstBlockLast(shuffles))
  {
    hide IsValid, Built, CELLS;
    ShufflesAreTen(shuffles);
    FirstBlockFirst(shuffles);
    var schedule := Built(shuffles);
    ValidityIgnoresBlockOrder(schedule, CELL_COUNT);
    ValidVisitsEachCellOnce(schedule);
    var c := schedule[0].id;
    assert schedule[0] in schedule;
    SomeRow(schedule, Both(HasId(c), 2));
    var j :| 0 <= j < |schedule| && Both(HasId(c), 2)(schedule[j]);
    var rotated := FirstBlockLast(shuffles);
    assert rotated[j - CELL_COUNT] == schedule[j] && rotated[|schedule| - CELL_COUNT] == schedule[0];
  }

  lemma SomeRow(schedule: seq<Row>, p: Row -> bool)
    requires Count(schedule, p) > 0
    ensures exists j :: 0 <= j < |schedule| && p(schedule[j])
  {
    var row := Filter(schedule, p)[0];
    assert row in schedule;
  }

  lemma {:induction false} ExpectedConcat(a: seq<Row>, b: seq<Row>)
    ensures Expected(a + b) == Expected(a) + Expected(b)
    decreases |b|
  {
    if b == [] {
      assert a + b == a;
    } else {
      assert (a + b)[..|a + b| - 1] == a + b[..|b| - 1];
      ExpectedConcat(a, b[..|b| - 1]);
    }
  }

  lemma {:induction false} ExpectedAround(schedule: seq<Row>, j: nat)
    requires j < |schedule|
    ensures Expected(schedule) == Expected(schedule[..j]) + (Runs(schedule[j]) + Expected(schedule[j + 1..]))
  {
    var row := schedule[j];
    assert schedule == schedule[..j] + ([row] + schedule[j + 1..]);
    ExpectedConcat(schedule[..j], [row] + schedule[j + 1..]);
    ExpectedConcat([row], schedule[j + 1..]);
    assert [row][..0] == [];
    assert Expected([row]) == Runs(row);
  }

  /** The accepted ledger rows of a cell: those before visit j, the runs of visit j, those after it. */
  lemma {:induction false} LedgerAround(schedule: seq<Row>, ledger: seq<LedgerRow>, j: nat)
    requires AcceptedRows(ledger) == Expected(schedule) && j < |schedule|
    ensures var p := AcceptedOf(schedule[j].id);
      Filter(ledger, p)
        == Filter(Expected(schedule[..j]), p) + (Runs(schedule[j]) + Filter(Expected(schedule[j + 1..]), p))
  {
    hide Filter, Expected;
    var p := AcceptedOf(schedule[j].id);
    var first, rest := Expected(schedule[..j]), Expected(schedule[j + 1..]);
    ExpectedAround(schedule, j);
    FilterConcat(first, Runs(schedule[j]) + rest, p);
    FilterConcat(Runs(schedule[j]), rest, p);
    FilterEverything(Runs(schedule[j]), p);
    AcceptedFiltered(ledger, schedule[j].id);
  }

  /** In a ledger that holds the runs of the whole schedule, the first run of visit j shows that its gate fitted. */
  lemma {:induction false} LedgerShowsGate(schedule: seq<Row>, ledger: seq<LedgerRow>, j: nat)
    requires Contiguous(ledger) && AcceptedRows(ledger) == Expected(schedule) && j < |schedule|
    ensures GateFits(schedule, j)
  {
    hide Filter, Expected, AcceptedRows;
    var p := AcceptedOf(schedule[j].id);
    LedgerAround(schedule, ledger, j);
    var k := |Filter(Expected(schedule[..j]), p)|;
    assert Filter(ledger, p)[k] == Runs(schedule[j])[0];
    assert CountsFromOne(Ordinals(ledger, schedule[j].id));
  }

  /** No history completes a campaign whose cells are out of block order, whatever crashes and restarts it sees. */
  lemma {:induction false} CompleteMeansBlockOrder(schedule: seq<Row>, launches: seq<Launch>)
    requires AllUse(launches, schedule) && History(launches).complete
    ensures CellsInBlockOrder(schedule)
  {
    hide History, IsValid, AcceptedRows, Expected, Contiguous, GateFits, AllUse;
    CompleteScheduleIsValid(schedule, launches);
    CompleteLedgerIsExpected(schedule, launches);
    OrdinalsNeverSkipOrRepeat(launches);
    forall j | 0 <= j < |schedule| ensures GateFits(schedule, j) {
      LedgerShowsGate(schedule, History(launches).ledger, j);
    }
    GatesFitExactlyInBlockOrder(schedule);
  }

  /** The check accepts a built schedule with its first block last, but no history completes it. */
  lemma {:induction false} OutOfOrderScheduleFails(shuffles: seq<seq<Cell>>, maxAttempts: nat, world: World)
    requires AreShuffles(shuffles) && (exists b :: 0 <= b < BLOCKS && shuffles[b] != shuffles[0])
    requires maxAttempts >= RUNS_PER_VISIT
    ensures |Built(shuffles)| >= CELL_COUNT && IsValid(FirstBlockLast(shuffles))
    ensures Succeeds(FirstBlockLast(shuffles), maxAttempts, world) ==>
      Process(EMPTY, Arguments(FirstBlockLast(shuffles), None, maxAttempts), world).failed
    ensures forall launches :: AllUse(launches, FirstBlockLast(shuffles)) ==> !History(launches).complete
  {
    hide IsValid, Built, Process, Succeeds, AreShuffles, CellsInBlockOrder, FirstBlockLast, AllUse, History;
    BuiltIsValid(shuffles);
    FirstBlockLastIsValid(shuffles);
    if Succeeds(FirstBlockLast(shuffles), maxAttempts, world) {
      CompletesExactlyInBlockOrder(FirstBlockLast(shuffles), maxAttempts, world);
    }
    forall launches | AllUse(launches, FirstBlockLast(shuffles)) ensures !History(launches).complete {
      if History(launches).complete {
        CompleteMeansBlockOrder(FirstBlockLast(shuffles), launches);
      }
    }
  }

  /** A valid schedule on which one process fails although every visit would get its three runs. */
  ghost predicate FailsThough(schedule: seq<Row>, world: World) {
    && IsValid(schedule) && Succeeds(schedule, RUNS_PER_VISIT, world)
    && Process(EMPTY, Arguments(schedule, None, RUNS_PER_VISIT), world).failed
  }

  /** Such a schedule exists, and it fails even on hardware that accepts every run. */
  lemma ValidScheduleCanFail()
    ensures exists schedule, world :: FailsThough(schedule, world)
  {
    hide IsValid, Built, Process, Succeeds, AreShuffles, FirstBlockLast;
    SomeShufflesDiffer();
    OutOfOrderScheduleFails(SomeShuffles(), RUNS_PER_VISIT, Delivering());
    DeliveringSucceeds(FirstBlockLast(SomeShuffles()), RUNS_PER_VISIT);
    assert FailsThough(FirstBlockLast(SomeShuffles()), Delivering());
  }
}
