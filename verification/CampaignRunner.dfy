/** The campaign process itself: its loops over cases and attempts, writing the disk step by step. */
module CampaignRunner {
  import opened Prelude
  import opened MechanismCampaign

  /** What is left of the budget after some new attempts. */
  function Left(budget: Option<nat>, newAttempts: nat): Option<nat> {
    if budget.None? then None else if newAttempts >= budget.value then Some(0) else Some(budget.value - newAttempts)
  }

  function WithAttempt(run: Run, number: nat, content: Attempt): Run {
    run[number := content]
  }

  predicate ShowsFatal(run: Run) {
    exists k :: k in run && Fatal(run[k])
  }

  lemma PutHolds(f: Files, c: nat, content: Attempt)
    requires c < |f.runs|
    ensures var g := PutAttempt(f, c, content);
      |g.runs| == |f.runs| && |f.runs[c]| + 1 in g.runs[c] && g.runs[c][|f.runs[c]| + 1] == content
  {
  }

  lemma KeptByRun(f: Files, c: nat, child: Child)
    requires c < |f.runs|
    ensures var g := PutAttempt(f, c, Final(child));
      |g.runs| == |f.runs| && g.runs == f.runs[c := g.runs[c]] && g.runs[c] == f.runs[c][|f.runs[c]| + 1 := Kept(child)]
  {
    FinalIsKept(child);
  }

  lemma WithStatusConcat(first: seq<Files>, second: seq<Files>, status: Status)
    ensures WithStatus(first + second, status) == WithStatus(first, status) + WithStatus(second, status)
  {
  }

  lemma PutAllSnoc(f: Files, c: nat, contents: seq<Attempt>, content: Attempt)
    requires c < |f.runs|
    ensures PutAll(f, c, contents + [content]) == PutAll(f, c, contents) + [PutAttempt(f, c, content)]
  {
  }

  /** Contents replace one another: only the last one stays. */
  lemma PutTwice(f: Files, c: nat, g: Files, content: Attempt)
    requires c < |f.runs| && (g == f || exists x :: g == PutAttempt(f, c, x))
    ensures |g.runs| == |f.runs|
    ensures g.(runs := g.runs[c := WithAttempt(g.runs[c], |f.runs[c]| + 1, content)]) == PutAttempt(f, c, content)
  {
    if g != f {
      var x :| g == PutAttempt(f, c, x);
      assert WithAttempt(g.runs[c], |f.runs[c]| + 1, content) == Extended(f.runs[c], content);
    }
    assert g.runs[c := Extended(f.runs[c], content)] == f.runs[c := Extended(f.runs[c], content)];
  }

  class Campaign {
    var runs: seq<Run>
    var receipts: map<nat, Receipt>
    var status: Status
    var outputExists: bool
    ghost var written: seq<Disk>

    ghost function Now(): Files
      reads this
    {
      Files(runs, receipts)
    }

    constructor ()
      ensures Disk(Now(), status) == Empty() && !outputExists && written == []
    {
      runs, receipts, status, outputExists, written := NoRuns(CASES), map[], NotStarted, false, [];
    }

    method AcceptedAttemptOf(c: nat) returns (accepted: Lookup)
      requires c < |runs|
      ensures accepted == AcceptedAttempt(runs[c])
    {
      var passing: seq<nat> := [];
      for k := 0 to |runs[c]|
        invariant passing == Passing(runs[c], k)
      {
        if k + 1 in runs[c] && Passed(runs[c][k + 1]) {
          passing := passing + [k + 1];
        }
      }
      if |passing| > 1 { return Multiple; }
      return if passing == [] then Nobody else One(passing[0]);
    }

    /** Keeps a receipt that is already there, and refuses an attempt that has not passed. */
    method RecordReceipt(c: nat, k: nat) returns (ok: bool)
      requires c < |runs| && k in runs[c]
      modifies this`receipts, this`written
      ensures ok <==> c in old(receipts) || Passed(runs[c][k])
      ensures Now() == if ok then WithReceipt(old(Now()), c, k) else old(Now())
      ensures written == old(written) + if !ok || c in old(receipts) then [] else [Disk(Now(), status)]
    {
      if c in receipts { return true; }
      if !Passed(runs[c][k]) { return false; }
      receipts := receipts[c := Receipt(k, runs[c][k])];
      written := written + [Disk(Files(runs, receipts), status)];
      return true;
    }

    /** Accepts and verifies one case: an error when it has several passes or a receipt that does not match. */
    method RebuildOne(c: nat) returns (ok: bool, accepted: bool)
      requires c < |runs|
      modifies this`receipts, this`written
      ensures CaseRebuilt(old(Now()), c, ok, Now(), old(written), written, status) && runs == old(runs)
      ensures ok ==> accepted == AcceptedAttempt(runs[c]).One?
    {
      var lookup := AcceptedAttemptOf(c);
      if lookup == Multiple { return false, false; }
      if lookup == Nobody { return true, false; }
      PassingFacts(runs[c], |runs[c]|);
      var recorded := RecordReceipt(c, lookup.attempt);
      return receipts[c] == Receipt(lookup.attempt, runs[c][lookup.attempt]), true;
    }

    method FatalSeen(c: nat) returns (fatal: bool)
      requires c < |runs|
      ensures fatal == ShowsFatal(runs[c])
    {
      fatal := exists k :: k in runs[c] && Fatal(runs[c][k]);
    }

    /** Goes through all cases, records missing receipts and verifies every receipt. */
    method RebuildLedgers() returns (ok: bool, acceptedUnit: nat, acceptedHardware: nat, fatal: bool)
      requires |runs| == CASES
      modifies this`receipts, this`written
      ensures var rebuilt := RebuildFrom(old(Now()), 0);
        && ok == rebuilt.ok && Now() == LastOf(rebuilt.writes, old(Now()))
        && written == old(written) + WithStatus(rebuilt.writes, status)
      ensures ok ==> acceptedUnit == AcceptedBetween(runs, 0, UNIT_CASES)
      ensures ok ==> acceptedHardware == AcceptedBetween(runs, UNIT_CASES, CASES)
      ensures ok ==> fatal == AnyFatal(Now())
    {
      ok, acceptedUnit, acceptedHardware, fatal := true, 0, 0, false;
      ghost var start, done := Now(), [];
      RebuildStarts(start, old(written), status);
      hide RebuildCase, RebuildFrom, WithStatus, LastOf, AcceptedAttempt, ShowsFatal, Tracks, Counted, AcceptedBetween,
           AnyFatal, CaseRebuilt;
      for c := 0 to CASES
        invariant Tracks(start, done, Now(), c, old(written), written, status)
        invariant |runs| == CASES && Counted(runs, c, acceptedUnit, acceptedHardware, fatal)
      {
        ghost var f, before := Now(), written;
        var accepted;
        ok, accepted := RebuildOne(c);
        RebuildTurn(start, done, f, c, old(written), before, status, ok, Now(), written);
        done := done + RebuildCase(f, c).writes;
        if !ok { return; }
        var seen := FatalSeen(c);
        CountsGrow(runs, c, acceptedUnit, acceptedHardware, fatal);
        fatal := fatal || seen;
        acceptedUnit := acceptedUnit + if accepted && c < UNIT_CASES then 1 else 0;
        acceptedHardware := acceptedHardware + if accepted && c >= UNIT_CASES then 1 else 0;
      }
      RebuildEnds(start, done, Now(), old(written), written, status);
      CountsEnd(Now(), acceptedUnit, acceptedHardware, fatal);
    }

    /** One attempt of case c: what the child writes, a directory if it made none, its log and the frozen row. */
    method RunAttempt(c: nat, child: Child)
      requires c < |runs| && |runs[c]| + 1 !in runs[c]
      modifies this`runs, this`written
      ensures Now() == PutAttempt(old(Now()), c, Final(child)) && receipts == old(receipts)
      ensures |runs| == |old(runs)| && runs == old(runs)[c := runs[c]]
      ensures runs[c] == old(runs[c])[|old(runs[c])| + 1 := Kept(child)]
      ensures written == old(written) + WithStatus(AttemptWrites(old(Now()), c, child), status)
    {
      var number := |runs[c]| + 1;
      ghost var f := Now();
      ghost var contents := WriteStages(c, number, child.stages);
      if number !in runs[c] {
        contents := WriteContent(c, number, BLANK, f, old(written), contents);
      }
      PutHolds(f, c, contents[|contents| - 1]);
      hide PutAll, WithStatus, PutAttempt;
      var content := runs[c][number].(runnerLog := Some(child.fatalOutput));
      contents := WriteContent(c, number, content, f, old(written), contents);
      contents := WriteContent(c, number, content.(rowFrozen := true), f, old(written), contents);
      assert contents == Contents(child);
      KeptByRun(f, c, child);
    }

    /** The child's own writes into its attempt directory. */
    method WriteStages(c: nat, number: nat, stages: seq<Attempt>) returns (ghost contents: seq<Attempt>)
      requires c < |runs| && number == |runs[c]| + 1 && number !in runs[c]
      modifies this`runs, this`written
      ensures contents == stages && c < |runs| == |old(runs)|
      ensures Now() == if stages == [] then old(Now()) else PutAttempt(old(Now()), c, stages[|stages| - 1])
      ensures number in runs[c] <==> stages != []
      ensures written == old(written) + WithStatus(PutAll(old(Now()), c, contents), status)
    {
      ghost var f := Now();
      contents := [];
      assert WithStatus(PutAll(f, c, []), status) == [];
      Appended(old(written), [], []);
      hide PutAll, WithStatus;
      for i := 0 to |stages|
        invariant c < |runs| && contents == stages[..i]
        invariant Now() == if i == 0 then f else PutAttempt(f, c, stages[i - 1])
        invariant written == old(written) + WithStatus(PutAll(f, c, contents), status)
      {
        contents := WriteContent(c, number, stages[i], f, old(written), contents);
      }
    }

    /** Replaces the contents of an attempt directory. */
    method WriteContent(c: nat, number: nat, content: Attempt, ghost f: Files, ghost before: seq<Disk>,
                        ghost contents: seq<Attempt>)
      returns (ghost more: seq<Attempt>)
      requires c < |f.runs| && number == |f.runs[c]| + 1
      requires Now() == f || exists x :: Now() == PutAttempt(f, c, x)
      requires written == before + WithStatus(PutAll(f, c, contents), status)
      modifies this`runs, this`written
      ensures Now() == PutAttempt(f, c, content) && more == contents + [content]
      ensures written == before + WithStatus(PutAll(f, c, more), status)
    {
      PutAllSnoc(f, c, contents, content);
      WithStatusConcat(PutAll(f, c, contents), [PutAttempt(f, c, content)], status);
      more := contents + [content];
      runs := runs[c := WithAttempt(runs[c], number, content)];
      PutTwice(f, c, old(Now()), content);
      written := written + [Disk(Files(runs, receipts), status)];
      Appended(before, WithStatus(PutAll(f, c, contents), status), [Disk(Now(), status)]);
    }

    /** Makes one attempt and accepts it when it passes; a failing attempt may be fatal. */
    method TryCase(c: nat, child: Child) returns (passed: bool, fatal: bool)
      requires Inv(Now()) && c < |runs| && IsReady(Now(), c)
      modifies this`runs, this`receipts, this`written
      ensures Took(old(Now()), c, child, Now(), passed, fatal)
      ensures written == old(written) + WithStatus(TakeTurn(old(Now()), c, child).writes, status)
    {
      ghost var f := Now();
      NextIsNew(f, c, child);
      var number := |runs[c]| + 1;
      RunAttempt(c, child);
      passed := Passed(runs[c][number]);
      fatal := false;
      if passed {
        var recorded := RecordReceipt(c, number);
        TurnWrites(f, c, child, old(written), status);
      } else {
        fatal := Fatal(runs[c][number]);
      }
    }

    /** One turn of the retry loop: the next attempt of case c. */
    method TryOnce(c: nat, budget: Option<nat>, attempts: nat, world: World,
                   ghost f: Files, ghost left: Option<nat>, ghost done: seq<Files>, ghost before: seq<Disk>)
      returns (passed: bool, fatal: bool, ghost more: seq<Files>)
      requires Running(f, c, left, world, done, Now(), Left(budget, attempts), before, written, status)
      requires c < |runs| && |runs[c]| < MAX_ATTEMPTS && (budget.Some? ==> attempts < budget.value)
      modifies this`runs, this`receipts, this`written
      ensures c < |runs| && 0 <= Remaining(runs) < old(Remaining(runs))
      ensures passed ==>
          Ended(Accepts, f, c, left, world, more, Now(), Left(budget, attempts + 1), before, written, status)
      ensures !passed && fatal ==>
          Ended(IsFatal, f, c, left, world, more, Now(), Left(budget, attempts + 1), before, written, status)
      ensures !passed && !fatal ==>
          Running(f, c, left, world, more, Now(), Left(budget, attempts + 1), before, written, status)
    {
      hide Running, Ended, Inv, HasPass, AcceptedBelow, Left, TakeTurn, WithStatus, Final, Remaining, IsReady, Passed,
           Fatal, Took;
      var child := world(c, |runs[c]| + 1);
      ghost var g, logged := Now(), written;
      RunningIsReady(f, c, left, world, done, g, Left(budget, attempts), before, logged, status);
      passed, fatal := TryCase(c, child);
      RunningTurn(f, c, left, world, done, g, budget, attempts, before, logged, status, Now(), passed, fatal);
      more := done + TakeTurn(g, c, child).writes;
    }

    /** The retry loop of one case, until it passes, is fatal, exhausts its attempts or the budget. */
    method RunCase(c: nat, budget: Option<nat>, newAttempts: nat, world: World)
      returns (how: CaseEnd, attempts: nat, ghost done: seq<Files>)
      requires Inv(Now()) && c < CASES && |runs| == CASES && AcceptedBelow(Now(), c) && !HasPass(runs[c])
      modifies this`runs, this`receipts, this`written
      ensures Ended(how, old(Now()), c, Left(budget, newAttempts), world, done, Now(), Left(budget, attempts),
          old(written), written, status)
    {
      attempts, done := newAttempts, [];
      ghost var f, left, before := Now(), Left(budget, newAttempts), written;
      RunningStarts(f, c, left, world, written, status);
      hide Running, Ended, Inv, HasPass, AcceptedBelow, Left, TakeTurn, WithStatus, Final, Remaining, IsReady, Passed,
           Fatal, Took;
      RunningFacts(f, c, left, world, done, Now(), left, written, written, status);
      while |runs[c]| < MAX_ATTEMPTS
        invariant c < |runs| && Running(f, c, left, world, done, Now(), Left(budget, attempts), before, written, status)
        invariant Remaining(runs) >= 0
        decreases Remaining(runs)
      {
        if budget.Some? && attempts >= budget.value {
          RunningStops(f, c, left, world, done, Now(), budget.value, attempts, before, written, status);
          return Stops, attempts, done;
        }
        var passed, fatal;
        passed, fatal, done := TryOnce(c, budget, attempts, world, f, left, done, before);
        attempts := attempts + 1;
        if passed { return Accepts, attempts, done; }
        if fatal { return IsFatal, attempts, done; }
      }
      RunningExhausts(f, c, left, world, done, Now(), Left(budget, attempts), before, written, status);
      return Exhausts, attempts, done;
    }

    /** Rebuilds the ledgers a last time and writes the manifest. */
    method Close(verdict: Verdict)
      requires Inv(Now())
      modifies this`receipts, this`status, this`written
      ensures Now() == Mended(old(Now())) && status == ClosingStatus(Now(), verdict)
      ensures written == old(written) + WithStatus(Mending(old(Now())), old(status)) + [Disk(Now(), status)]
    {
      ghost var f := Now();
      InvLength(f);
      RebuildMends(f);
      hide Inv, RebuildFrom, AnyFatal;
      var ok, acceptedUnit, acceptedHardware, fatal := RebuildLedgers();
      if verdict == FatalAttempt || verdict == Exhausted {
        status := Failed;
      } else {
        var complete := acceptedUnit == UNIT_CASES && acceptedHardware == HARDWARE_CASES && !fatal;
        status := if complete then Complete else InProgress;
      }
      written := written + [Disk(Files(runs, receipts), status)];
    }

    /** The loop over all cases, until the budget stops it or a case ends the campaign. */
    method RunCases(budget: Option<nat>, world: World) returns (verdict: Verdict, ghost done: seq<Files>)
      requires Inv(Now())
      modifies this`runs, this`receipts, this`written
      ensures |old(runs)| == CASES
      ensures Inv(Now()) && Now() == LastOf(done, old(Now())) && written == old(written) + WithStatus(done, status)
      ensures Work(old(Now()), 0, budget, world) == Outcome(done, verdict)
    {
      done := [];
      ghost var f := Now();
      LoopingStarts(f, budget, world, written, status);
      var newAttempts := 0;
      hide Looping, Ended, Inv, HasPass, AcceptedBelow, WithStatus, Work, LastOf, AcceptedAttempt, Left;
      for c := 0 to CASES
        invariant Looping(f, budget, world, done, Now(), c, Left(budget, newAttempts), old(written), written, status)
      {
        LoopingFacts(f, budget, world, done, Now(), c, Left(budget, newAttempts), old(written), written, status);
        var accepted := AcceptedAttemptOf(c);
        if accepted.One? {
          LoopingPast(f, budget, world, done, Now(), c, Left(budget, newAttempts), old(written), written, status);
        } else {
          ghost var g, left, before := Now(), Left(budget, newAttempts), written;
          var how;
          ghost var more;
          how, newAttempts, more := RunCase(c, budget, newAttempts, world);
          LoopingCase(f, budget, world, done, g, c, left, how, more, Now(), Left(budget, newAttempts), old(written),
                      before, written, status);
          done := done + more;
          if how == Stops { return Stopped, done; }
          if how == IsFatal { return FatalAttempt, done; }
          if how == Exhausts { return Exhausted, done; }
        }
      }
      LoopingFinished(f, budget, world, done, Now(), Left(budget, newAttempts), old(written), written, status);
      return Finished, done;
    }

    /** The rebuild that opens a process, on an orderly disk. */
    method Open() returns (fatal: bool)
      requires Inv(Now())
      modifies this`receipts, this`written
      ensures Now() == Mended(old(Now())) && fatal == AnyFatal(Now())
      ensures written == old(written) + WithStatus(Mending(old(Now())), status)
    {
      InvLength(Now());
      RebuildMends(Now());
      hide Inv, RebuildFrom, AnyFatal;
      var ok, acceptedUnit, acceptedHardware;
      ok, acceptedUnit, acceptedHardware, fatal := RebuildLedgers();
    }

    /**
     * One process. It starts unless the budget is zero, the environment differs from the frozen one, it
     * is a dry run, or the output exists and is not to be resumed; then the states it writes are exactly
     * those of Process, whatever the world answers.
     */
    method Run(budget: Option<nat>, resume: bool, dryRun: bool, environmentHolds: bool, world: World)
      returns (started: bool)
      requires Inv(Now())
      modifies this
      ensures started <==> budget != Some(0) && environmentHolds && !dryRun && (old(outputExists) ==> resume)
      ensures !started ==> Disk(Now(), status) == old(Disk(Now(), status)) && written == old(written)
      ensures started ==> written == old(written) + Process(old(Disk(Now(), status)), budget, world)
      ensures started ==> written != [] && Disk(Now(), status) == written[|written| - 1]
      ensures Inv(Now()) && outputExists == (old(outputExists) || started)
    {
      if budget == Some(0) || !environmentHolds || dryRun { return false; }
      if outputExists && !resume { return false; }
      outputExists, started := true, true;
      hide Inv, AnyFatal, Work, WithStatus, LastOf, ClosingStatus, Mended, Mending, Session;
      ghost var start, first := Now(), status;
      var fatal := Open();
      if fatal {
        status := Failed;
        written := written + [Disk(Files(runs, receipts), status)];
        Appended(old(written), WithStatus(Mending(start), first), [Disk(Now(), status)]);
        return;
      }
      RunSession(budget, world);
      Appended(old(written), WithStatus(Mending(start), first), Session(Mended(start), first, budget, world));
    }

    /** The attempts, the closing rebuild and the manifest. */
    method RunSession(budget: Option<nat>, world: World)
      requires Inv(Now())
      modifies this`runs, this`receipts, this`status, this`written
      ensures written == old(written) + Session(old(Now()), old(status), budget, world)
      ensures written != [] && Disk(Now(), status) == written[|written| - 1] && Inv(Now())
    {
      ghost var f, first := Now(), status;
      InvLength(f);
      hide Inv, AnyFatal, Work, WithStatus, LastOf, ClosingStatus, Mended, Mending, Session;
      var verdict;
      ghost var done;
      verdict, done := RunCases(budget, world);
      Close(verdict);
      SessionAppends(f, first, budget, world, done, verdict, old(written));
    }
  }

  // ---------- bookkeeping for the attempts ----------

  datatype CaseEnd = Accepts | IsFatal | Exhausts | Stops

  /** The loop from case c of f is what has been written and the loop from case next of g. */
  ghost predicate Goes(f: Files, c: nat, left: Option<nat>, world: World, done: seq<Files>, g: Files, next: nat,
                       leftNow: Option<nat>)
  {
    && Inv(f) && c <= CASES && |f.runs| == CASES && AcceptedBelow(f, c)
    && Inv(g) && next <= CASES && |g.runs| == CASES && AcceptedBelow(g, next)
    && LastOf(done, f) == g
    && Work(f, c, left, world) == Then(done, Work(g, next, leftNow, world))
  }

  /** How the loop over one case leaves the whole loop. */
  ghost predicate Ends(f: Files, c: nat, left: Option<nat>, world: World, how: CaseEnd, done: seq<Files>, g: Files,
                       leftNow: Option<nat>)
  {
    && Inv(f) && c < CASES && |f.runs| == CASES && AcceptedBelow(f, c)
    && Inv(g) && |g.runs| == CASES && LastOf(done, f) == g
    && match how
       case Accepts => Goes(f, c, left, world, done, g, c + 1, leftNow)
       case IsFatal => Work(f, c, left, world) == Outcome(done, FatalAttempt)
       case Exhausts => Work(f, c, left, world) == Outcome(done, Exhausted)
       case Stops => Work(f, c, left, world) == Outcome(done, Stopped)
  }

  /** An attempt has been carried out, with this verdict. */
  ghost predicate Took(g: Files, c: nat, child: Child, h: Files, passed: bool, fatal: bool)
    requires c < |g.runs|
  {
    TakeTurn(g, c, child).files == h && TakeTurn(g, c, child).fatal == fatal && passed == Passed(Final(child))
  }

  /** In the middle of the retry loop: case c is not accepted and everything so far is on disk. */
  ghost predicate Running(f: Files, c: nat, left: Option<nat>, world: World, done: seq<Files>, g: Files,
                          leftNow: Option<nat>, before: seq<Disk>, written: seq<Disk>, status: Status)
  {
    c < CASES && Goes(f, c, left, world, done, g, c, leftNow) && !HasPass(g.runs[c]) &&
      written == before + WithStatus(done, status)
  }

  /** After the retry loop. */
  ghost predicate Ended(how: CaseEnd, f: Files, c: nat, left: Option<nat>, world: World, done: seq<Files>, g: Files,
                        leftNow: Option<nat>, before: seq<Disk>, written: seq<Disk>, status: Status)
  {
    Ends(f, c, left, world, how, done, g, leftNow) && written == before + WithStatus(done, status)
  }

  lemma RunningStarts(f: Files, c: nat, left: Option<nat>, world: World, written: seq<Disk>, status: Status)
    requires Inv(f) && c < CASES && |f.runs| == CASES && AcceptedBelow(f, c) && !HasPass(f.runs[c])
    ensures Running(f, c, left, world, [], f, left, written, written, status)
  {
  }

  lemma RunningFacts(f: Files, c: nat, left: Option<nat>, world: World, done: seq<Files>, g: Files,
                     leftNow: Option<nat>, before: seq<Disk>, written: seq<Disk>, status: Status)
    requires Running(f, c, left, world, done, g, leftNow, before, written, status)
    ensures Inv(g) && c < |g.runs| && Remaining(g.runs) >= 0
  {
    InvLength(g);
    hide Inv, HasPass, Work;
  }

  lemma RunningStops(f: Files, c: nat, left: Option<nat>, world: World, done: seq<Files>, g: Files, budget: nat,
                     attempts: nat, before: seq<Disk>, written: seq<Disk>, status: Status)
    requires attempts >= budget
    requires Running(f, c, left, world, done, g, Left(Some(budget), attempts), before, written, status)
    requires c < |g.runs| && |g.runs[c]| < MAX_ATTEMPTS
    ensures Ended(Stops, f, c, left, world, done, g, Left(Some(budget), attempts), before, written, status)
  {
  }

  lemma RunningExhausts(f: Files, c: nat, left: Option<nat>, world: World, done: seq<Files>, g: Files,
                        leftNow: Option<nat>, before: seq<Disk>, written: seq<Disk>, status: Status)
    requires Running(f, c, left, world, done, g, leftNow, before, written, status)
    requires c < |g.runs| && |g.runs[c]| >= MAX_ATTEMPTS
    ensures Ended(Exhausts, f, c, left, world, done, g, leftNow, before, written, status)
  {
  }

  lemma RunningIsReady(f: Files, c: nat, left: Option<nat>, world: World, done: seq<Files>, g: Files,
                       leftNow: Option<nat>, before: seq<Disk>, written: seq<Disk>, status: Status)
    requires Running(f, c, left, world, done, g, leftNow, before, written, status)
    requires c < |g.runs| && |g.runs[c]| < MAX_ATTEMPTS
    ensures Inv(g) && IsReady(g, c)
  {
  }

  /** One attempt takes the retry loop on, or ends it. */
  lemma RunningTurn(f: Files, c: nat, left: Option<nat>, world: World, done: seq<Files>, g: Files, budget: Option<nat>,
                    attempts: nat, before: seq<Disk>, written: seq<Disk>, status: Status, h: Files, passed: bool,
                    fatal: bool)
    requires Running(f, c, left, world, done, g, Left(budget, attempts), before, written, status)
    requires c < |g.runs| && |g.runs[c]| < MAX_ATTEMPTS && (budget.Some? ==> attempts < budget.value)
    requires Took(g, c, world(c, |g.runs[c]| + 1), h, passed, fatal)
    ensures var writes, leftNow := TakeTurn(g, c, world(c, |g.runs[c]| + 1)).writes, Left(budget, attempts + 1);
      var more := written + WithStatus(writes, status);
      && c < |h.runs| && 0 <= Remaining(h.runs) < Remaining(g.runs)
      && (passed ==> Ended(Accepts, f, c, left, world, done + writes, h, leftNow, before, more, status))
      && (!passed && fatal ==> Ended(IsFatal, f, c, left, world, done + writes, h, leftNow, before, more, status))
      && (!passed && !fatal ==> Running(f, c, left, world, done + writes, h, leftNow, before, more, status))
  {
    hide Inv, HasPass, Final, TakeTurn, WithStatus, Goes, Ends, Left, Passed, Remaining;
    OneTurn(f, c, left, world, done, g, budget, attempts);
    var writes := TakeTurn(g, c, world(c, |g.runs[c]| + 1)).writes;
    WithStatusConcat(done, writes, status);
    Appended(before, WithStatus(done, status), WithStatus(writes, status));
  }

  /** One more attempt at case c. */
  lemma OneTurn(f: Files, c: nat, left: Option<nat>, world: World, done: seq<Files>, g: Files, budget: Option<nat>,
                attempts: nat)
    requires c < CASES && Goes(f, c, left, world, done, g, c, Left(budget, attempts)) && !HasPass(g.runs[c])
    requires |g.runs[c]| < MAX_ATTEMPTS && (budget.Some? ==> attempts < budget.value)
    ensures IsReady(g, c)
    ensures var child := world(c, |g.runs[c]| + 1);
      var turn, leftNow := TakeTurn(g, c, child), Left(budget, attempts + 1);
      && Inv(turn.files) && |turn.files.runs| == CASES && 0 <= Remaining(turn.files.runs) < Remaining(g.runs)
      && (turn.fatal ==> Ends(f, c, left, world, IsFatal, done + turn.writes, turn.files, leftNow))
      && (!turn.fatal ==> Goes(f, c, left, world, done + turn.writes, turn.files, turn.next, leftNow))
      && (Passed(Final(child)) ==> Ends(f, c, left, world, Accepts, done + turn.writes, turn.files, leftNow))
      && (!Passed(Final(child)) ==> turn.next == c && !HasPass(turn.files.runs[c]) && AcceptedBelow(turn.files, c))
  {
    assert IsReady(g, c);
    var child := world(c, |g.runs[c]| + 1);
    hide Inv, HasPass, Final, TakeTurn, Work, LastOf, Remaining, Passed, Goes, Ends, AcceptedBelow;
    var turn := TakeTurn(g, c, child);
    TurnNext(g, c, child);
    ReadyTurn(g, c, child);
    TurnGoes(f, c, left, world, done, g, budget, attempts);
    if !turn.fatal && turn.next == c + 1 {
      GoesAccepts(f, c, left, world, done + turn.writes, turn.files, Left(budget, attempts + 1));
    }
  }

  lemma ReadyTurn(g: Files, c: nat, child: Child)
    requires IsReady(g, c)
    ensures var turn := TakeTurn(g, c, child);
      && Inv(turn.files) && |turn.files.runs| == CASES && 0 <= Remaining(turn.files.runs) < Remaining(g.runs)
      && c <= turn.next <= CASES && AcceptedBelow(turn.files, turn.next)
  {
    TurnFacts(g, c, child);
  }

  lemma GoesAccepts(f: Files, c: nat, left: Option<nat>, world: World, done: seq<Files>, g: Files, leftNow: Option<nat>)
    requires c < CASES && Goes(f, c, left, world, done, g, c + 1, leftNow)
    ensures Ends(f, c, left, world, Accepts, done, g, leftNow)
  {
  }

  lemma TurnGoes(f: Files, c: nat, left: Option<nat>, world: World, done: seq<Files>, g: Files, budget: Option<nat>,
                 attempts: nat)
    requires c < CASES && Goes(f, c, left, world, done, g, c, Left(budget, attempts)) && IsReady(g, c)
    requires budget.Some? ==> attempts < budget.value
    ensures var turn, leftNow := TakeTurn(g, c, world(c, |g.runs[c]| + 1)), Left(budget, attempts + 1);
      && (turn.fatal ==> Ends(f, c, left, world, IsFatal, done + turn.writes, turn.files, leftNow))
      && (!turn.fatal ==> Goes(f, c, left, world, done + turn.writes, turn.files, turn.next, leftNow))
  {
    hide Inv, HasPass, TakeTurn, Work, LastOf, Remaining;
    var turn := TakeTurn(g, c, world(c, |g.runs[c]| + 1));
    TurnFacts(g, c, world(c, |g.runs[c]| + 1));
    WorkTakesTurn(g, c, Left(budget, attempts), world);
    LastOfTwo(done, turn.writes, f);
    if turn.fatal {
      ThenOutcome(done, turn.writes, FatalAttempt);
    } else {
      ThenTwice(done, turn.writes, Work(turn.files, turn.next, Left(budget, attempts + 1), world));
    }
  }

  lemma ThenOutcome(first: seq<Files>, second: seq<Files>, verdict: Verdict)
    ensures Then(first, Outcome(second, verdict)) == Outcome(first + second, verdict)
  {
  }

  /** Only a pass moves the loop to the next case. */
  lemma TurnNext(g: Files, c: nat, child: Child)
    requires IsReady(g, c)
    ensures var turn := TakeTurn(g, c, child);
      if Passed(Final(child)) then turn.next == c + 1 && !turn.fatal
        else turn.next == c && |turn.files.runs| == CASES && !HasPass(turn.files.runs[c])
  {
  }

  lemma NextIsNew(f: Files, c: nat, child: Child)
    requires IsReady(f, c)
    ensures |f.runs[c]| + 1 !in f.runs[c]
    ensures var g := PutAttempt(f, c, Final(child));
      && |g.runs[c]| == |f.runs[c]| + 1 && |g.runs[c]| in g.runs[c] && g.runs[c][|g.runs[c]|] == Final(child)
      && c !in g.receipts
  {
  }

  lemma TurnWrites(f: Files, c: nat, child: Child, before: seq<Disk>, status: Status)
    requires IsReady(f, c) && Passed(Final(child))
    ensures var turn := TakeTurn(f, c, child);
      before + WithStatus(AttemptWrites(f, c, child), status) + [Disk(turn.files, status)] ==
        before + WithStatus(turn.writes, status)
  {
  }

  // ---------- bookkeeping for the loop over cases ----------

  /** In the middle of the loop over cases: all cases below c are accepted and everything so far is on disk. */
  ghost predicate Looping(f: Files, left: Option<nat>, world: World, done: seq<Files>, g: Files, c: nat,
                          leftNow: Option<nat>, before: seq<Disk>, written: seq<Disk>, status: Status)
  {
    Goes(f, 0, left, world, done, g, c, leftNow) && written == before + WithStatus(done, status)
  }

  lemma LoopingStarts(f: Files, budget: Option<nat>, world: World, written: seq<Disk>, status: Status)
    requires Inv(f)
    ensures |f.runs| == CASES && Looping(f, budget, world, [], f, 0, Left(budget, 0), written, written, status)
  {
  }

  lemma LoopingFacts(f: Files, left: Option<nat>, world: World, done: seq<Files>, g: Files, c: nat,
                     leftNow: Option<nat>, before: seq<Disk>, written: seq<Disk>, status: Status)
    requires c < CASES && Looping(f, left, world, done, g, c, leftNow, before, written, status)
    ensures Inv(g) && |g.runs| == CASES && AcceptedBelow(g, c)
    ensures HasPass(g.runs[c]) <==> AcceptedAttempt(g.runs[c]).One?
  {
    AcceptedIsLast(g.runs[c]);
    hide Work, AcceptedAttempt;
  }

  lemma LoopingPast(f: Files, left: Option<nat>, world: World, done: seq<Files>, g: Files, c: nat, leftNow: Option<nat>,
                    before: seq<Disk>, written: seq<Disk>, status: Status)
    requires c < CASES && Looping(f, left, world, done, g, c, leftNow, before, written, status)
    requires |g.runs| == CASES && HasPass(g.runs[c])
    ensures Looping(f, left, world, done, g, c + 1, leftNow, before, written, status)
  {
  }

  /** The retry loop of one case, put behind what has been written before it. */
  lemma {:induction false} LoopingCase(f: Files, left: Option<nat>, world: World, done: seq<Files>, g: Files, c: nat,
                                       leftNow: Option<nat>, how: CaseEnd, more: seq<Files>, h: Files,
                                       leftThen: Option<nat>, before: seq<Disk>, middle: seq<Disk>, written: seq<Disk>,
                                       status: Status)
    requires c < CASES && Looping(f, left, world, done, g, c, leftNow, before, middle, status)
    requires Ended(how, g, c, leftNow, world, more, h, leftThen, middle, written, status)
    ensures |f.runs| == CASES && Inv(f) && Inv(h) && h == LastOf(done + more, f)
    ensures written == before + WithStatus(done + more, status)
    ensures how == Accepts ==> Looping(f, left, world, done + more, h, c + 1, leftThen, before, written, status)
    ensures how == IsFatal ==> Work(f, 0, left, world) == Outcome(done + more, FatalAttempt)
    ensures how == Exhausts ==> Work(f, 0, left, world) == Outcome(done + more, Exhausted)
    ensures how == Stops ==> Work(f, 0, left, world) == Outcome(done + more, Stopped)
  {
    hide Inv, HasPass, Work, WithStatus;
    WithStatusConcat(done, more, status);
    Appended(before, WithStatus(done, status), WithStatus(more, status));
    LastOfTwo(done, more, f);
    hide LastOf;
    if how == Accepts {
      ThenTwice(done, more, Work(h, c + 1, leftThen, world));
    } else {
      ThenOutcome(done, more, Work(g, c, leftNow, world).verdict);
    }
  }

  lemma {:induction false} LoopingFinished(f: Files, left: Option<nat>, world: World, done: seq<Files>, g: Files,
                                           leftNow: Option<nat>, before: seq<Disk>, written: seq<Disk>, status: Status)
    requires Looping(f, left, world, done, g, CASES, leftNow, before, written, status)
    ensures |f.runs| == CASES && Inv(f) && Work(f, 0, left, world) == Outcome(done, Finished)
    ensures Inv(g) && g == LastOf(done, f) && written == before + WithStatus(done, status)
  {
  }

  lemma {:induction false} SessionAppends(f: Files, status: Status, budget: Option<nat>, world: World, done: seq<Files>,
                                          verdict: Verdict, before: seq<Disk>)
    requires Inv(f) && |f.runs| == CASES && Work(f, 0, budget, world) == Outcome(done, verdict)
    ensures Inv(LastOf(done, f))
    ensures var h := Mended(LastOf(done, f));
      && |h.runs| == CASES
      && before + WithStatus(done, status) + WithStatus(Mending(LastOf(done, f)), status) +
          [Disk(h, ClosingStatus(h, verdict))]
           == before + Session(f, status, budget, world)
  {
    WorkKeepsInv(f, 0, budget, world);
    hide Inv, Work, WithStatus, LastOf, ClosingStatus, Mending, Mended;
    var g := LastOf(done, f);
    InvLength(Mended(g));
    var last := [Disk(Mended(g), ClosingStatus(Mended(g), verdict))];
    Appended(before, WithStatus(done, status), WithStatus(Mending(g), status));
    Appended(before, WithStatus(done, status) + WithStatus(Mending(g), status), last);
  }

  // ---------- bookkeeping for the rebuild loop ----------

  /** The whole rebuild is what has been written so far and the rebuild from case c on. */
  ghost predicate Tracks(start: Files, done: seq<Files>, now: Files, c: nat, before: seq<Disk>, written: seq<Disk>,
                         status: Status)
  {
    && |start.runs| == |now.runs| == CASES && c <= CASES
    && RebuildFrom(start, 0) == Rebuilt(done + RebuildFrom(now, c).writes, RebuildFrom(now, c).ok)
    && written == before + WithStatus(done, status)
    && now == LastOf(done, start)
  }

  /** The counts over the cases below c. */
  ghost predicate Counted(runs: seq<Run>, c: nat, units: nat, hardware: nat, fatal: bool)
    requires |runs| == CASES && c <= CASES
  {
    && units == AcceptedBetween(runs, 0, if c < UNIT_CASES then c else UNIT_CASES)
    && hardware == (if c < UNIT_CASES then 0 else AcceptedBetween(runs, UNIT_CASES, c))
    && fatal == exists b :: 0 <= b < c && ShowsFatal(runs[b])
  }

  lemma CountsGrow(runs: seq<Run>, c: nat, units: nat, hardware: nat, fatal: bool)
    requires |runs| == CASES && c < CASES && Counted(runs, c, units, hardware, fatal)
    ensures var accepted := AcceptedAttempt(runs[c]).One?;
      Counted(runs, c + 1, units + if accepted && c < UNIT_CASES then 1 else 0,
              hardware + if accepted && c >= UNIT_CASES then 1 else 0, fatal || ShowsFatal(runs[c]))
  {
  }

  lemma CountsEnd(f: Files, units: nat, hardware: nat, fatal: bool)
    requires |f.runs| == CASES && Counted(f.runs, CASES, units, hardware, fatal)
    ensures units == AcceptedBetween(f.runs, 0, UNIT_CASES) && hardware == AcceptedBetween(f.runs, UNIT_CASES, CASES)
    ensures fatal == AnyFatal(f)
  {
  }

  lemma RebuildStarts(start: Files, before: seq<Disk>, status: Status)
    requires |start.runs| == CASES
    ensures Tracks(start, [], start, 0, before, before, status)
    ensures Counted(start.runs, 0, 0, 0, false)
  {
  }

  /** One case has been rebuilt, and its receipt written when it was missing. */
  ghost predicate CaseRebuilt(f: Files, c: nat, ok: bool, g: Files, before: seq<Disk>, written: seq<Disk>,
                              status: Status)
    requires c < |f.runs|
  {
    var one := RebuildCase(f, c);
    ok == one.ok && g == LastOf(one.writes, f) && written == before + WithStatus(one.writes, status)
  }

  /** One more case: either the rebuild ends here with an error, or it goes on. */
  lemma {:induction false} RebuildTurn(start: Files, done: seq<Files>, f: Files, c: nat, before: seq<Disk>,
                                       middle: seq<Disk>, status: Status, ok: bool, g: Files, written: seq<Disk>)
    requires c < CASES && Tracks(start, done, f, c, before, middle, status)
    requires c < |f.runs| && CaseRebuilt(f, c, ok, g, middle, written, status)
    ensures var more := done + RebuildCase(f, c).writes;
      if ok then Tracks(start, more, g, c + 1, before, written, status)
      else |start.runs| == CASES && RebuildFrom(start, 0) == Rebuilt(more, false)
           && written == before + WithStatus(more, status) && g == LastOf(more, start)
  {
    var one := RebuildCase(f, c);
    assert LastOf(one.writes, f).runs == f.runs;
    hide RebuildCase, WithStatus;
    LastOfTwo(done, one.writes, start);
    WithStatusConcat(done, one.writes, status);
    Appended(before, WithStatus(done, status), WithStatus(one.writes, status));
    hide LastOf;
    if one.ok {
      Appended(done, one.writes, RebuildFrom(LastOf(one.writes, f), c + 1).writes);
    }
  }

  lemma {:induction false} RebuildEnds(start: Files, done: seq<Files>, f: Files, before: seq<Disk>, written: seq<Disk>,
                                       status: Status)
    requires Tracks(start, done, f, CASES, before, written, status)
    ensures RebuildFrom(start, 0) == Rebuilt(done, true)
    ensures written == before + WithStatus(done, status) && f == LastOf(done, start)
  {
  }
}
