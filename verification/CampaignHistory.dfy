/** What every history of the mechanism campaign keeps, and why resuming in chunks changes nothing. */
module CampaignHistory {
  import opened Prelude
  import opened MechanismCampaign

  /** A started process and the number of its writes that reach the disk before it is killed. */
  datatype Launch = Launch(budget: Option<nat>, world: World, survives: nat)

  /** COMPLETE is on disk only when every case is accepted and no attempt shows a fatal marker. */
  ghost predicate StatusSound(d: Disk) {
    d.status == Complete ==> (forall c :: 0 <= c < |d.files.runs| ==> HasPass(d.files.runs[c])) && !AnyFatal(d.files)
  }

  ghost predicate Sound(d: Disk) {
    Inv(d.files) && StatusSound(d)
  }

  lemma EmptyIsSound()
    ensures Sound(Empty())
  {
  }

  lemma {:induction false} NoWorkLeft(f: Files, c: nat, budget: Option<nat>, world: World)
    requires Inv(f) && c <= CASES && AcceptedBelow(f, c) && forall b :: 0 <= b < CASES ==> HasPass(f.runs[b])
    ensures Work(f, c, budget, world) == Outcome([], Finished)
    decreases CASES - c
  {
    if c < CASES {
      hide Inv, HasPass;
      NoWorkLeft(f, c + 1, budget, world);
    }
  }

  lemma {:induction false} AllCounted(runs: seq<Run>, first: nat, end: nat)
    requires first <= end <= |runs| && forall c :: first <= c < end ==> OrderlyRun(runs[c])
    ensures AcceptedBetween(runs, first, end) <= end - first
    ensures AcceptedBetween(runs, first, end) == end - first <==> forall c :: first <= c < end ==> HasPass(runs[c])
  {
    hide HasPass, OrderlyRun, AcceptedAttempt;
    if first < end {
      AcceptedIsLast(runs[end - 1]);
      AllCounted(runs, first, end - 1);
    }
  }

  /** The closing status is COMPLETE exactly when all 59 cases are accepted without any fatal marker. */
  lemma ClosingStatusIs(f: Files, verdict: Verdict)
    requires Inv(f)
    ensures |f.runs| == CASES
    ensures ClosingStatus(f, verdict)
      == if verdict == FatalAttempt || verdict == Exhausted then Failed
         else if (forall c :: 0 <= c < 59 ==> HasPass(f.runs[c])) && !AnyFatal(f) then Complete
         else InProgress
  {
    hide HasPass, AnyFatal, OrderlyRun;
    AllCounted(f.runs, 0, UNIT_CASES);
    AllCounted(f.runs, UNIT_CASES, CASES);
  }

  /** Only the runs matter for AnyFatal and for who is accepted. */
  lemma SameRunsSameStatus(d: Disk, f: Files)
    requires StatusSound(d) && f.runs == d.files.runs
    ensures StatusSound(Disk(f, d.status))
  {
  }

  /** A rebuild's states are sound under the status on disk. */
  lemma MendingIsSound(d: Disk)
    requires Sound(d)
    ensures forall w :: w in WithStatus(Mending(d.files), d.status) ==> Sound(w)
    ensures Sound(Disk(Mended(d.files), d.status)) && Sound(Disk(Mended(d.files), Failed))
  {
    RebuildMends(d.files);
    hide Inv, HasPass, AnyFatal, RebuildFrom, StatusSound, LastOf, ReceiptsFull;
    forall w | w in WithStatus(Mending(d.files), d.status) ensures Sound(w) {
      SameRunsSameStatus(d, w.files);
    }
    SameRunsSameStatus(d, Mended(d.files));
    FailedIsSound(Mended(d.files));
  }

  lemma FailedIsSound(f: Files)
    ensures StatusSound(Disk(f, Failed)) && StatusSound(Disk(f, InProgress))
  {
  }

  /** The states of the attempt loop are sound under the status the process started with. */
  lemma {:induction false} WorkIsSound(f: Files, status: Status, budget: Option<nat>, world: World)
    requires Sound(Disk(f, status))
    ensures |f.runs| == CASES && AcceptedBelow(f, 0)
    ensures var writes := Work(f, 0, budget, world).writes;
      (forall w :: w in WithStatus(writes, status) ==> Sound(w)) && Sound(Disk(LastOf(writes, f), status))
  {
    InvLength(f);
    hide Inv, HasPass, AnyFatal, Work, RebuildFrom;
    WorkKeepsInv(f, 0, budget, world);
    if status == Complete {
      NoWorkLeft(f, 0, budget, world);
    }
  }

  lemma ClosingIsSound(f: Files, verdict: Verdict)
    requires Inv(f)
    ensures |f.runs| == CASES && Sound(Disk(f, ClosingStatus(f, verdict)))
  {
    InvLength(f);
    hide Inv, HasPass, AnyFatal, ClosingStatus;
    ClosingStatusIs(f, verdict);
  }

  lemma SessionKeepsSound(f: Files, status: Status, budget: Option<nat>, world: World)
    requires Sound(Disk(f, status))
    ensures forall w :: w in Session(f, status, budget, world) ==> Sound(w)
  {
    hide Inv, HasPass, Work, ClosingStatus, LastOf, Sound, Mending, Mended;
    SoundHasInv(Disk(f, status));
    WorkIsSound(f, status, budget, world);
    var work := Work(f, 0, budget, world);
    var g := LastOf(work.writes, f);
    SoundHasInv(Disk(g, status));
    MendingIsSound(Disk(g, status));
    ClosingIsSound(Mended(g), work.verdict);
  }

  /** Every state a process writes is sound. */
  lemma ProcessKeepsSound(d: Disk, budget: Option<nat>, world: World)
    requires Sound(d)
    ensures forall w :: w in Process(d, budget, world) ==> Sound(w)
    ensures Process(d, budget, world) != []
  {
    SoundHasInv(d);
    var f := Mended(d.files);
    assert Session(f, d.status, budget, world) != [];
    hide Inv, AnyFatal, Sound, Mending, Mended, Session;
    MendingIsSound(d);
    if !AnyFatal(f) {
      SessionKeepsSound(f, d.status, budget, world);
    }
  }

  lemma SoundHasInv(d: Disk)
    requires Sound(d)
    ensures Inv(d.files) && |d.files.runs| == CASES
  {
  }

  /** The disk after a series of processes, each killed at some write or left to finish. */
  function History(launches: seq<Launch>): (d: Disk)
    ensures Sound(d)
  {
    if launches == [] then
      EmptyIsSound();
      Empty()
    else
      var n := |launches| - 1;
      var before, launch := History(launches[..n]), launches[n];
      ProcessKeepsSound(before, launch.budget, launch.world);
      CutOff(before, Process(before, launch.budget, launch.world), launch.survives)
  }

  /** The attempts of a case that passed. */
  ghost function PassingSet(run: Run): set<nat> {
    set k | k in run && Passed(run[k])
  }

  /**
   * In every history, interruptions included: attempts are numbered from one without gaps and
   * never exceed three, a case with any attempt has every earlier case accepted with exactly
   * one passing attempt, and no rebuild can meet an error.
   */
  lemma {:induction false} CampaignOrderInvariant(launches: seq<Launch>)
    ensures var runs := History(launches).files.runs;
      && |runs| == 59
      && (forall c :: 0 <= c < 59 ==> |runs[c]| <= 3 && forall k :: k in runs[c] <==> 1 <= k <= |runs[c]|)
      && (forall b, c :: 0 <= b < c < CASES && |runs[c]| > 0 ==> |PassingSet(runs[b])| == 1)
      && (forall c :: 0 <= c < CASES ==> AcceptedAttempt(runs[c]) != Multiple)
      && RebuildFrom(History(launches).files, 0).ok
  {
    hide RebuildFrom, AnyFatal, History, AcceptedAttempt;
    var f := History(launches).files;
    RebuildMends(f);
    forall c | 0 <= c < CASES
      ensures AcceptedAttempt(f.runs[c]) != Multiple && (HasPass(f.runs[c]) ==> |PassingSet(f.runs[c])| == 1)
    {
      AcceptedIsLast(f.runs[c]);
      if HasPass(f.runs[c]) {
        assert OrderlyRun(f.runs[c]);
        assert PassingSet(f.runs[c]) == {|f.runs[c]|};
      }
    }
  }

  // ---------- chunks ----------

  /** The disk a process leaves when nothing interrupts it. */
  function End(d: Disk, budget: Option<nat>, world: World): (e: Disk)
    requires Sound(d)
    ensures Sound(e)
  {
    ProcessKeepsSound(d, budget, world);
    var disks := Process(d, budget, world);
    disks[|disks| - 1]
  }

  lemma {:induction false} SkipAccepted(f: Files, c: nat, budget: Option<nat>, world: World)
    requires Inv(f) && c <= CASES && AcceptedBelow(f, c)
    ensures Work(f, 0, budget, world) == Work(f, c, budget, world)
  {
    if c > 0 {
      InvLength(f);
      assert HasPass(f.runs[c - 1]);
      hide Inv, HasPass;
      SkipAccepted(f, c - 1, budget, world);
    }
  }

  /** A bounded loop is the unbounded one, or its beginning. */
  ghost predicate Resumes(f: Files, bounded: Outcome, whole: Outcome, world: World) {
    var g := LastOf(bounded.writes, f);
    && Inv(g)
    && (if bounded.verdict == Stopped then whole == Then(bounded.writes, Work(g, 0, None, world)) else whole == bounded)
  }

  lemma ResumesThen(f: Files, writes: seq<Files>, g: Files, bounded: Outcome, whole: Outcome, world: World)
    requires LastOf(writes, f) == g && Resumes(g, bounded, whole, world)
    ensures Resumes(f, Then(writes, bounded), Then(writes, whole), world)
  {
    hide Inv, Work;
    LastOfTwo(writes, bounded.writes, f);
    if bounded.verdict == Stopped {
      ThenTwice(writes, bounded.writes, Work(LastOf(bounded.writes, g), 0, None, world));
    }
    hide LastOf;
  }

  lemma {:induction false} WorkResumes(f: Files, c: nat, k: nat, world: World)
    requires Inv(f) && c <= CASES && AcceptedBelow(f, c)
    ensures Resumes(f, Work(f, c, Some(k), world), Work(f, c, None, world), world)
    decreases Remaining(f.runs), CASES - c
  {
    hide Inv, HasPass, TakeTurn, Remaining;
    InvLength(f);
    if c == CASES {
    } else if HasPass(f.runs[c]) {
      hide Resumes;
      WorkResumes(f, c + 1, k, world);
    } else if |f.runs[c]| >= MAX_ATTEMPTS {
    } else if k == 0 {
      SkipAccepted(f, c, None, world);
      ThenTwice([], [], Work(f, c, None, world));
    } else {
      hide Work, Resumes, Then, LastOf;
      var turn := TakeTurn(f, c, world(c, |f.runs[c]| + 1));
      var g, next := turn.files, turn.next;
      WorkTakesTurn(f, c, Some(k), world);
      WorkTakesTurn(f, c, None, world);
      TurnFacts(f, c, world(c, |f.runs[c]| + 1));
      if turn.fatal {
        ResumesFatal(f, turn.writes, g, world);
      } else {
        WorkResumes(g, next, k - 1, world);
        ResumesThen(f, turn.writes, g, Work(g, next, Some(k - 1), world), Work(g, next, None, world), world);
      }
    }
  }

  lemma ResumesFatal(f: Files, writes: seq<Files>, g: Files, world: World)
    requires LastOf(writes, f) == g && Inv(g)
    ensures Resumes(f, Outcome(writes, FatalAttempt), Outcome(writes, FatalAttempt), world)
  {
  }

  lemma MendedIsFixed(f: Files)
    requires Inv(f) && ReceiptsFull(f)
    ensures Mended(f) == f && Mending(f) == []
  {
    InvLength(f);
    hide Inv, ReceiptsFull, RebuildFrom;
    FullNeedsNoRebuild(f, 0);
  }

  /** The files after the attempt loop; every accepted case has its receipt. */
  function Worked(f: Files, budget: Option<nat>, world: World): (g: Files)
    requires Inv(f) && ReceiptsFull(f)
    ensures Inv(g) && ReceiptsFull(g) && Mended(g) == g && |g.runs| == CASES
  {
    InvLength(f);
    WorkKeepsInv(f, 0, budget, world);
    var g := LastOf(Work(f, 0, budget, world).writes, f);
    MendedIsFixed(g);
    InvLength(g);
    g
  }

  function VerdictOf(f: Files, budget: Option<nat>, world: World): Verdict
    requires Inv(f)
  {
    InvLength(f);
    Work(f, 0, budget, world).verdict
  }

  lemma EndIs(d: Disk, budget: Option<nat>, world: World)
    requires Sound(d)
    ensures var f := Mended(d.files);
      End(d, budget, world)
        == if AnyFatal(f) then Disk(f, Failed)
           else Disk(Worked(f, budget, world), ClosingStatus(Worked(f, budget, world), VerdictOf(f, budget, world)))
  {
  }

  /** A process changes the status on disk only with the last state it writes. */
  lemma StatusChangesLast(d: Disk, budget: Option<nat>, world: World)
    requires Inv(d.files)
    ensures var disks := Process(d, budget, world);
      disks != [] && forall i :: 0 <= i < |disks| - 1 ==> disks[i].status == d.status
  {
    hide Inv, Work, Mending, Mended, ClosingStatus, AnyFatal, LastOf, HasPass;
    SessionStatusChangesLast(Mended(d.files), d.status, budget, world);
  }

  lemma SessionStatusChangesLast(f: Files, status: Status, budget: Option<nat>, world: World)
    requires Inv(f)
    ensures var disks := Session(f, status, budget, world);
      disks != [] && forall i :: 0 <= i < |disks| - 1 ==> disks[i].status == status
  {
    hide Inv, Work, Mending, Mended, ClosingStatus, AnyFatal, LastOf, HasPass;
  }

  // ---------- what is on disk stays there ----------

  /** Every attempt and every receipt of f is still in g, unchanged. */
  ghost predicate Retains(f: Files, g: Files) {
    && |g.runs| == |f.runs|
    && (forall c, k :: 0 <= c < |f.runs| && k in f.runs[c] ==> k in g.runs[c] && g.runs[c][k] == f.runs[c][k])
    && (forall c :: c in f.receipts ==> c in g.receipts && g.receipts[c] == f.receipts[c])
  }

  ghost predicate AllRetain(f: Files, writes: seq<Files>) {
    forall w :: w in writes ==> Retains(f, w)
  }

  lemma RetainsOn(f: Files, g: Files, writes: seq<Files>)
    requires Retains(f, g) && AllRetain(g, writes)
    ensures AllRetain(f, writes)
  {
    hide Retains;
    forall w | w in writes ensures Retains(f, w) {
      RetainsTwice(f, g, w);
    }
  }

  lemma PutRetains(f: Files, c: nat, content: Attempt)
    requires c < |f.runs| && |f.runs[c]| + 1 !in f.runs[c]
    ensures Retains(f, PutAttempt(f, c, content))
  {
  }

  lemma TurnRetains(f: Files, c: nat, child: Child)
    requires IsReady(f, c)
    ensures AllRetain(f, TakeTurn(f, c, child).writes) && Retains(f, TakeTurn(f, c, child).files)
  {
    var turn := TakeTurn(f, c, child);
    var g := PutAttempt(f, c, Final(child));
    hide Retains, Final, HasPass, Contents;
    PutRetains(f, c, Final(child));
    forall w | w in AttemptWrites(f, c, child) ensures Retains(f, w) {
      var i :| 0 <= i < |Contents(child)| && w == PutAttempt(f, c, Contents(child)[i]);
      PutRetains(f, c, Contents(child)[i]);
    }
    if |g.runs[c]| in g.runs[c] {
      ReceiptRetains(f, g, c, |g.runs[c]|);
    }
  }

  lemma ReceiptRetains(f: Files, g: Files, c: nat, k: nat)
    requires Retains(f, g) && c < |g.runs| && k in g.runs[c]
    ensures Retains(f, WithReceipt(g, c, k))
  {
  }

  lemma RetainsItself(f: Files)
    ensures Retains(f, f) && AllRetain(f, [])
  {
  }

  lemma RetainsTwice(f: Files, g: Files, h: Files)
    requires Retains(f, g) && Retains(g, h)
    ensures Retains(f, h)
  {
  }

  /** Where the loop does not make an attempt. */
  lemma {:induction false} WorkWithoutTurn(f: Files, c: nat, budget: Option<nat>, world: World)
    requires Inv(f) && c <= CASES && AcceptedBelow(f, c) && !(IsReady(f, c) && budget != Some(0))
    ensures |f.runs| == CASES && (c < CASES && HasPass(f.runs[c]) ==> AcceptedBelow(f, c + 1))
    ensures if c < CASES && HasPass(f.runs[c]) then Work(f, c, budget, world) == Work(f, c + 1, budget, world)
            else Work(f, c, budget, world).writes == []
  {
    InvLength(f);
    hide Inv, HasPass;
  }

  lemma {:induction false} WorkRetains(f: Files, c: nat, budget: Option<nat>, world: World)
    requires Inv(f) && c <= CASES && AcceptedBelow(f, c)
    ensures AllRetain(f, Work(f, c, budget, world).writes)
    decreases Remaining(f.runs), CASES - c
  {
    hide Inv, HasPass, Remaining, AllRetain, Retains, TakeTurn, Work, Then, AcceptedBelow;
    InvLength(f);
    RetainsItself(f);
    if IsReady(f, c) && budget != Some(0) {
      var child := world(c, |f.runs[c]| + 1);
      var turn := TakeTurn(f, c, child);
      TurnAdvances(f, c, child);
      TurnRetains(f, c, child);
      WorkTakesTurn(f, c, budget, world);
      if !turn.fatal {
        WorkRetains(turn.files, turn.next, Less(budget), world);
        RetainsThen(f, turn.writes, turn.files, Work(turn.files, turn.next, Less(budget), world));
      }
    } else {
      WorkWithoutTurn(f, c, budget, world);
      if c < CASES && HasPass(f.runs[c]) {
        WorkRetains(f, c + 1, budget, world);
      }
    }
  }

  lemma RetainsThen(f: Files, writes: seq<Files>, g: Files, rest: Outcome)
    requires AllRetain(f, writes) && Retains(f, g) && AllRetain(g, rest.writes)
    ensures AllRetain(f, Then(writes, rest).writes)
  {
    hide Retains;
    RetainsOn(f, g, rest.writes);
  }

  lemma {:induction false} RebuildRetains(f: Files, c: nat)
    requires Inv(f) && |f.runs| == CASES && c <= CASES
    ensures AllRetain(f, RebuildFrom(f, c).writes)
    decreases CASES - c
  {
    hide Inv, HasPass, RebuildFrom, Retains;
    if c == CASES {
      NothingRebuilt(f);
    } else {
      RebuildStep(f, c);
      if HasPass(f.runs[c]) && c !in f.receipts {
        WithReceiptFacts(f, c);
        var g := WithReceipt(f, c, |f.runs[c]|);
        RetainsItself(f);
        ReceiptRetains(f, f, c, |f.runs[c]|);
        RebuildRetains(g, c + 1);
        RetainsOn(f, g, RebuildFrom(g, c + 1).writes);
      } else {
        RebuildRetains(f, c + 1);
      }
    }
  }

  lemma {:induction false} NothingRebuilt(f: Files)
    requires |f.runs| == CASES
    ensures RebuildFrom(f, CASES) == Rebuilt([], true)
  {
  }

  lemma MendingRetains(f: Files)
    requires Inv(f)
    ensures AllRetain(f, Mending(f)) && Retains(f, Mended(f))
  {
    InvLength(f);
    hide Inv, RebuildFrom, Retains;
    RetainsItself(f);
    RebuildRetains(f, 0);
  }

  lemma {:induction false} LoopRetains(f: Files, budget: Option<nat>, world: World)
    requires Inv(f)
    ensures |f.runs| == CASES && AcceptedBelow(f, 0)
    ensures var writes := Work(f, 0, budget, world).writes;
      AllRetain(f, writes) && Inv(LastOf(writes, f)) && Retains(f, LastOf(writes, f))
  {
    InvLength(f);
    hide Inv, HasPass, Work, Retains;
    WorkRetains(f, 0, budget, world);
    WorkKeepsInv(f, 0, budget, world);
    RetainsItself(f);
  }

  lemma MendingStillRetains(f: Files, g: Files)
    requires Inv(g) && Retains(f, g)
    ensures AllRetain(f, Mending(g)) && Retains(f, Mended(g))
  {
    hide Inv, Retains, Mending, Mended;
    MendingRetains(g);
    RetainsOn(f, g, Mending(g));
    RetainsTwice(f, g, Mended(g));
  }

  lemma SessionRetains(f: Files, status: Status, budget: Option<nat>, world: World)
    requires Inv(f)
    ensures forall w :: w in Session(f, status, budget, world) ==> Retains(f, w.files)
  {
    hide Inv, HasPass, Work, Retains, Mending, Mended, ClosingStatus, LastOf;
    LoopRetains(f, budget, world);
    MendingStillRetains(f, LastOf(Work(f, 0, budget, world).writes, f));
  }

  /** No process ever changes or removes an attempt or a receipt that was on disk when it started. */
  lemma ProcessRetains(d: Disk, budget: Option<nat>, world: World)
    requires Inv(d.files)
    ensures forall w :: w in Process(d, budget, world) ==> Retains(d.files, w.files)
  {
    var f := Mended(d.files);
    MendingRetains(d.files);
    hide Inv, Retains, Mending, Mended, Session, AnyFatal;
    if !AnyFatal(f) {
      SessionRetains(f, d.status, budget, world);
      forall w | w in Session(f, d.status, budget, world) ensures Retains(d.files, w.files) {
        RetainsTwice(d.files, f, w.files);
      }
    }
  }

  // ---------- where the loop can be stopped ----------

  /** What the state looks like when the loop ends, by verdict. */
  ghost predicate EndsAs(g: Files, verdict: Verdict) {
    match verdict
    case Stopped => exists c :: 0 <= c < CASES && IsFrontier(g, c) && |g.runs[c]| < MAX_ATTEMPTS
    case Exhausted => exists c :: 0 <= c < CASES && IsFrontier(g, c) && |g.runs[c]| >= MAX_ATTEMPTS
    case Finished => forall c :: 0 <= c < |g.runs| ==> HasPass(g.runs[c])
    case FatalAttempt => AnyFatal(g)
  }

  lemma {:induction false} WorkEndsAs(f: Files, c: nat, budget: Option<nat>, world: World)
    requires Inv(f) && c <= CASES && AcceptedBelow(f, c)
    ensures EndsAs(LastOf(Work(f, c, budget, world).writes, f), Work(f, c, budget, world).verdict)
    decreases Remaining(f.runs), CASES - c
  {
    hide Inv, HasPass, TakeTurn, Remaining;
    InvLength(f);
    if c == CASES {
    } else if HasPass(f.runs[c]) {
      hide EndsAs, LastOf;
      WorkEndsAs(f, c + 1, budget, world);
    } else if |f.runs[c]| >= MAX_ATTEMPTS || budget == Some(0) {
      assert IsFrontier(f, c);
    } else {
      var turn := TakeTurn(f, c, world(c, |f.runs[c]| + 1));
      TurnFacts(f, c, world(c, |f.runs[c]| + 1));
      if !turn.fatal {
        hide EndsAs, LastOf;
        WorkEndsAs(turn.files, turn.next, Less(budget), world);
        LastOfTwo(turn.writes, Work(turn.files, turn.next, Less(budget), world).writes, f);
      }
    }
  }

  /** Starting again where a loop ended otherwise than by its budget ends at once, and the same way. */
  lemma {:induction false} WorkEndsAgain(g: Files, verdict: Verdict, budget: Option<nat>, world: World)
    requires Inv(g) && |g.runs| == CASES && EndsAs(g, verdict) && (verdict == Exhausted || verdict == Finished)
    ensures Work(g, 0, budget, world) == Outcome([], verdict)
  {
    if verdict == Finished {
      hide Inv, HasPass;
      NoWorkLeft(g, 0, budget, world);
    } else {
      var c :| 0 <= c < CASES && IsFrontier(g, c) && |g.runs[c]| >= MAX_ATTEMPTS;
      hide Inv, HasPass;
      SkipAccepted(g, c, budget, world);
    }
  }

  /** Starting again where a budget stopped the loop makes at least one attempt. */
  lemma {:induction false} WorkGoesOn(g: Files, world: World)
    requires Inv(g) && |g.runs| == CASES && EndsAs(g, Stopped)
    ensures LastOf(Work(g, 0, None, world).writes, g) != g
  {
    var c :| 0 <= c < CASES && IsFrontier(g, c) && |g.runs[c]| < MAX_ATTEMPTS;
    hide HasPass, Inv, Final, AttemptWrites, PutAttempt, Remaining, LastOf;
    SkipAccepted(g, c, None, world);
    WorkLowersRemaining(g, c, None, world);
  }

  /** No attempt ever comes back: the attempts still possible only go down. */
  lemma {:induction false} WorkLowersRemaining(f: Files, c: nat, budget: Option<nat>, world: World)
    requires Inv(f) && c <= CASES && AcceptedBelow(f, c)
    ensures |f.runs| == CASES
    ensures var g := LastOf(Work(f, c, budget, world).writes, f);
      && Remaining(g.runs) <= Remaining(f.runs)
      && (c < CASES && !HasPass(f.runs[c]) && |f.runs[c]| < MAX_ATTEMPTS && budget != Some(0) ==>
          Remaining(g.runs) < Remaining(f.runs))
      && (Work(f, c, budget, world).verdict == Stopped && budget.Some? ==>
          Remaining(g.runs) == Remaining(f.runs) - budget.value)
    decreases Remaining(f.runs), CASES - c
  {
    hide Inv, HasPass, TakeTurn, Remaining, LastOf;
    InvLength(f);
    LastOfOne(f, f);
    if c < CASES && HasPass(f.runs[c]) {
      WorkLowersRemaining(f, c + 1, budget, world);
    } else if c < CASES && |f.runs[c]| < MAX_ATTEMPTS && budget != Some(0) {
      var turn := TakeTurn(f, c, world(c, |f.runs[c]| + 1));
      TurnFacts(f, c, world(c, |f.runs[c]| + 1));
      if !turn.fatal {
        WorkLowersRemaining(turn.files, turn.next, Less(budget), world);
        LastOfTwo(turn.writes, Work(turn.files, turn.next, Less(budget), world).writes, f);
      }
    }
  }

  // ---------- what one attempt does to a process ----------

  /** The only difference is a next attempt of case c, with what is retained of this child. */
  ghost predicate OnlyAdds(f: Files, g: Files, c: nat, child: Child)
    requires c < |f.runs|
  {
    && |g.runs| == |f.runs| && g.runs == f.runs[c := g.runs[c]]
    && g.runs[c] == f.runs[c][|f.runs[c]| + 1 := Kept(child)]
  }

  lemma TurnOutcome(f: Files, c: nat, child: Child)
    requires IsReady(f, c)
    ensures var turn := TakeTurn(f, c, child);
      && OnlyAdds(f, turn.files, c, child)
      && (turn.fatal <==> LastReport(child) != Pass && ShowsMarker(child))
      && turn.next == (if LastReport(child) == Pass then c + 1 else c)
      && (HasPass(turn.files.runs[c]) <==> LastReport(child) == Pass)
      && (c in turn.files.receipts <==> LastReport(child) == Pass)
  {
    FinalIsKept(child);
    hide Final, ShowsMarker, Kept, Inv, HasPass, Remaining;
    PutKeepsInv(f, c, Final(child));
    assert |f.runs[c]| + 1 in PutAttempt(f, c, Final(child)).runs[c];
    PutLength(f, c, Final(child));
  }

  lemma PutLength(f: Files, c: nat, content: Attempt)
    requires IsReady(f, c)
    ensures |PutAttempt(f, c, content).runs[c]| == |f.runs[c]| + 1
  {
    assert OrderlyRun(f.runs[c]);
    hide HasPass;
    ExtendedIsOrderly(f.runs[c], content);
  }

  lemma AddedMarker(f: Files, g: Files, c: nat, child: Child)
    requires c < |f.runs| && OnlyAdds(f, g, c, child) && |f.runs[c]| + 1 !in f.runs[c]
    ensures AnyFatal(g) <==> AnyFatal(f) || ShowsMarker(child)
  {
    assert Fatal(Kept(child)) == ShowsMarker(child);
    assert g.runs[c][|f.runs[c]| + 1] == Kept(child);
    if AnyFatal(f) {
      var b, k :| 0 <= b < |f.runs| && k in f.runs[b] && Fatal(f.runs[b][k]);
      assert k in g.runs[b] && g.runs[b][k] == f.runs[b][k];
    }
  }

  lemma ReadyFacts(f: Files, c: nat)
    requires IsReady(f, c)
    ensures |f.runs[c]| + 1 !in f.runs[c]
    ensures forall b :: c < b < CASES ==> f.runs[b] == map[]
  {
  }

  lemma MendedIsReady(d: Disk, c: nat)
    requires Sound(d) && IsReady(d.files, c)
    ensures IsReady(Mended(d.files), c) && Mended(d.files).runs == d.files.runs
    ensures AnyFatal(Mended(d.files)) == AnyFatal(d.files)
  {
    InvLength(d.files);
    hide Inv, HasPass, Mended, Sound;
  }

  /** The loop from the first case on is the attempt at the case in turn and what follows it. */
  lemma {:induction false} WorkStarts(f: Files, c: nat, budget: Option<nat>, world: World)
    requires IsReady(f, c) && budget != Some(0)
    ensures var turn := TakeTurn(f, c, world(c, |f.runs[c]| + 1));
      && Inv(turn.files) && turn.next <= CASES && turn.next <= |turn.files.runs| && AcceptedBelow(turn.files, turn.next)
      && LastOf(turn.writes, f) == turn.files
      && Work(f, 0, budget, world)
           == if turn.fatal then Outcome(turn.writes, FatalAttempt)
              else Then(turn.writes, Work(turn.files, turn.next, Less(budget), world))
  {
    hide HasPass, Inv, TakeTurn, Remaining, Work;
    SkipAccepted(f, c, budget, world);
    WorkTakesTurn(f, c, budget, world);
    TurnFacts(f, c, world(c, |f.runs[c]| + 1));
  }

  /**
   * An attempt that does not pass and prints or leaves a fatal marker is the only one of its process:
   * the campaign is FAILED, and the attempt is retained with its marker.
   */
  lemma FatalAttemptStops(d: Disk, c: nat, budget: Option<nat>, world: World)
    requires Sound(d) && IsReady(d.files, c) && !AnyFatal(d.files) && budget != Some(0)
    requires var child := world(c, |d.files.runs[c]| + 1); LastReport(child) != Pass && ShowsMarker(child)
    ensures var e := End(d, budget, world);
      e.status == Failed && OnlyAdds(d.files, e.files, c, world(c, |d.files.runs[c]| + 1))
  {
    hide Sound, End, Inv, HasPass, AnyFatal, TakeTurn, Work, LastOf, ReceiptsFull, Mended, ShowsMarker, OnlyAdds;
    MendedIsReady(d, c);
    var f := Mended(d.files);
    var child := world(c, |f.runs[c]| + 1);
    EndIs(d, budget, world);
    WorkStarts(f, c, budget, world);
    TurnOutcome(f, c, child);
    SameAddition(d.files, f, TakeTurn(f, c, child).files, c, child);
  }

  lemma SameAddition(d: Files, f: Files, g: Files, c: nat, child: Child)
    requires c < |f.runs| && d.runs == f.runs && OnlyAdds(f, g, c, child)
    ensures OnlyAdds(d, g, c, child)
  {
  }

  /** How the loop goes on, or ends, right after one attempt. */
  function VerdictAfter(f: Files, c: nat, child: Child): Verdict
    requires c < |f.runs|
  {
    if LastReport(child) == Pass then (if c == CASES - 1 then Finished else Stopped)
    else if ShowsMarker(child) then FatalAttempt
    else if |f.runs[c]| + 1 == MAX_ATTEMPTS then Exhausted else Stopped
  }

  lemma {:induction false} BudgetUsedUp(f: Files, c: nat, world: World)
    requires IsReady(f, c)
    ensures Inv(f) && AcceptedBelow(f, 0)
    ensures var child := world(c, |f.runs[c]| + 1);
      Work(f, 0, Some(1), world) == Outcome(TakeTurn(f, c, child).writes, VerdictAfter(f, c, child))
  {
    var child := world(c, |f.runs[c]| + 1);
    var turn := TakeTurn(f, c, child);
    hide HasPass, Inv, TakeTurn, Remaining, ShowsMarker, LastOf, Work, Then;
    WorkStarts(f, c, Some(1), world);
    TurnOutcome(f, c, child);
    ReadyFacts(f, c);
    if !turn.fatal {
      AfterTurn(f, turn.files, c, child, world);
      ThenNothing(turn.writes, VerdictAfter(f, c, child));
    }
  }

  /** Without budget, the loop ends at once at the case that comes next. */
  lemma {:induction false} AfterTurn(f: Files, g: Files, c: nat, child: Child, world: World)
    requires IsReady(f, c) && OnlyAdds(f, g, c, child) && Inv(g) && |g.runs| == CASES
    requires HasPass(g.runs[c]) <==> LastReport(child) == Pass
    requires LastReport(child) != Pass ==> !ShowsMarker(child)
    ensures var next := if LastReport(child) == Pass then c + 1 else c;
      next <= CASES && (AcceptedBelow(g, next) ==>
        Work(g, next, Some(0), world) == Outcome([], VerdictAfter(f, c, child)))
  {
    ReadyFacts(f, c);
    hide HasPass, Inv, ShowsMarker, Kept;
    var next := if LastReport(child) == Pass then c + 1 else c;
    assert |g.runs[c]| == |f.runs[c]| + 1;
    if next < CASES && next != c {
      assert g.runs[next] == map[];
      NoPassInEmpty();
    }
  }

  lemma NoPassInEmpty()
    ensures !HasPass(map[])
  {
  }

  /** The status on disk after one attempt of case c and nothing else. */
  function StatusAfter(f: Files, c: nat, child: Child): Status
    requires c < |f.runs|
  {
    if LastReport(child) == Pass then
      (if c == 58 && !ShowsMarker(child) then Complete else InProgress)
    else if ShowsMarker(child) || |f.runs[c]| == 2 then Failed
    else InProgress
  }

  lemma ClosesAs(f: Files, g: Files, c: nat, child: Child)
    requires IsReady(f, c) && !AnyFatal(f) && OnlyAdds(f, g, c, child) && Inv(g) && |g.runs| == CASES
    requires HasPass(g.runs[c]) <==> LastReport(child) == Pass
    ensures ClosingStatus(g, VerdictAfter(f, c, child)) == StatusAfter(f, c, child)
  {
    ReadyFacts(f, c);
    AddedMarker(f, g, c, child);
    hide HasPass, Inv, AnyFatal, ShowsMarker, Kept, ClosingStatus;
    ClosingStatusIs(g, VerdictAfter(f, c, child));
    NoPassInEmpty();
    assert forall b :: c < b < CASES ==> g.runs[b] == map[];
    assert forall b :: 0 <= b < c ==> g.runs[b] == f.runs[b] && HasPass(f.runs[b]);
    if c < CASES - 1 {
      assert !HasPass(g.runs[c + 1]);
    }
  }

  /**
   * A process that may make one attempt makes exactly the one in turn and retains it. A pass gets a receipt;
   * the campaign is then COMPLETE only at the last case and without a marker. A failure ends it as FAILED exactly
   * when the child printed or left a fatal marker or the attempts of the case are used up.
   */
  lemma OneAttempt(d: Disk, c: nat, world: World)
    requires Sound(d) && IsReady(d.files, c) && !AnyFatal(d.files)
    ensures var e, child := End(d, Some(1), world), world(c, |d.files.runs[c]| + 1);
      && OnlyAdds(d.files, e.files, c, child)
      && e.status == StatusAfter(d.files, c, child)
      && (c in e.files.receipts <==> LastReport(child) == Pass)
      && (c in e.files.receipts ==> e.files.receipts[c] == Receipt(|d.files.runs[c]| + 1, Kept(child)))
  {
    hide Sound, End, Inv, HasPass, AnyFatal, TakeTurn, Work, LastOf, ReceiptsFull, Mended, ShowsMarker, OnlyAdds,
         Kept, ClosingStatus, LastReport;
    MendedIsReady(d, c);
    var f := Mended(d.files);
    var child := world(c, |f.runs[c]| + 1);
    var turn := TakeTurn(f, c, child);
    EndIs(d, Some(1), world);
    BudgetUsedUp(f, c, world);
    WorkStarts(f, c, Some(1), world);
    TurnOutcome(f, c, child);
    InvLength(turn.files);
    ClosesAs(f, turn.files, c, child);
    if c in turn.files.receipts { ReceiptOfTurn(f, turn.files, c, child); }
    SameAddition(d.files, f, turn.files, c, child);
  }

  lemma ReceiptOfTurn(f: Files, g: Files, c: nat, child: Child)
    requires IsReady(f, c) && OnlyAdds(f, g, c, child) && Inv(g) && c in g.receipts
    ensures g.receipts[c] == Receipt(|f.runs[c]| + 1, Kept(child))
  {
    ReadyFacts(f, c);
    assert OrderlyReceipt(g.runs[c], g.receipts[c]);
    hide HasPass, Kept, Inv;
  }

  lemma {:induction false} TurnIsRetained(f: Files, c: nat, budget: Option<nat>, world: World)
    requires IsReady(f, c) && budget != Some(0)
    ensures Inv(f) && AcceptedBelow(f, c)
    ensures var child := world(c, |f.runs[c]| + 1);
      Retains(TakeTurn(f, c, child).files, LastOf(Work(f, c, budget, world).writes, f))
  {
    var child := world(c, |f.runs[c]| + 1);
    var turn := TakeTurn(f, c, child);
    hide HasPass, Inv, TakeTurn, Remaining, Retains, Work, LastOf;
    WorkTakesTurn(f, c, budget, world);
    TurnFacts(f, c, child);
    RetainsItself(turn.files);
    if !turn.fatal {
      var rest := Work(turn.files, turn.next, Less(budget), world);
      WorkRetains(turn.files, turn.next, Less(budget), world);
      LastOfTwo(turn.writes, rest.writes, f);
      LastRetains(turn.files, rest.writes);
    }
  }

  lemma LastRetains(f: Files, writes: seq<Files>)
    requires AllRetain(f, writes)
    ensures Retains(f, LastOf(writes, f))
  {
    RetainsItself(f);
  }

  lemma AddedIsReady(f: Files, g: Files, c: nat, child: Child)
    requires IsReady(f, c) && OnlyAdds(f, g, c, child) && Inv(g) && !HasPass(g.runs[c])
    requires |f.runs[c]| + 1 < MAX_ATTEMPTS
    ensures IsReady(g, c) && |g.runs[c]| == |f.runs[c]| + 1
  {
    ReadyFacts(f, c);
    hide HasPass, Inv, Kept;
  }

  lemma RetainsNewest(f: Files, g: Files, h: Files, e: Files, c: nat, child: Child, next: Child)
    requires c < |f.runs| && OnlyAdds(f, g, c, child) && OnlyAdds(g, h, c, next) && Retains(h, e)
    requires |g.runs[c]| == |f.runs[c]| + 1
    ensures |f.runs[c]| + 1 in e.runs[c] && e.runs[c][|f.runs[c]| + 1] == Kept(child)
    ensures |f.runs[c]| + 2 in e.runs[c] && e.runs[c][|f.runs[c]| + 2] == Kept(next)
  {
    hide Kept;
    assert |f.runs[c]| + 1 in g.runs[c] && |f.runs[c]| + 1 in h.runs[c] && |g.runs[c]| + 1 in h.runs[c];
  }

  /** A failed attempt without any marker is followed by the next one, while attempts and budget last. */
  lemma RetryFollows(d: Disk, c: nat, budget: Option<nat>, world: World)
    requires Sound(d) && IsReady(d.files, c) && !AnyFatal(d.files)
    requires (budget.Some? ==> budget.value >= 2) && |d.files.runs[c]| + 1 < MAX_ATTEMPTS
    requires var child := world(c, |d.files.runs[c]| + 1); LastReport(child) != Pass && !ShowsMarker(child)
    ensures var e, k := End(d, budget, world).files, |d.files.runs[c]| + 1;
      && |e.runs| == CASES && k in e.runs[c] && k + 1 in e.runs[c]
      && e.runs[c][k] == Kept(world(c, k)) && e.runs[c][k + 1] == Kept(world(c, k + 1))
  {
    hide Sound, End, Inv, HasPass, AnyFatal, TakeTurn, Work, LastOf, ReceiptsFull, Mended, ShowsMarker, OnlyAdds,
         Kept, ClosingStatus, LastReport, Retains;
    MendedIsReady(d, c);
    var f := Mended(d.files);
    var child := world(c, |f.runs[c]| + 1);
    var g := TakeTurn(f, c, child).files;
    EndIs(d, budget, world);
    WorkStarts(f, c, budget, world);
    TurnOutcome(f, c, child);
    AddedIsReady(f, g, c, child);
    var next := world(c, |g.runs[c]| + 1);
    var h := TakeTurn(g, c, next).files;
    TurnOutcome(g, c, next);
    TurnIsRetained(g, c, Less(budget), world);
    LastOfTwo(TakeTurn(f, c, child).writes, Work(g, c, Less(budget), world).writes, f);
    RetainsNewest(f, g, h, Worked(f, budget, world), c, child, next);
  }

  /** A marker in any retained attempt, from whichever process, keeps every later process from another attempt. */
  lemma MarkerOnDiskStops(d: Disk, c: nat, k: nat, budget: Option<nat>, world: World)
    requires Sound(d) && c < |d.files.runs| && k in d.files.runs[c]
    requires d.files.runs[c][k].childFatal || d.files.runs[c][k].runnerLog == Some(true)
    ensures End(d, budget, world).status == Failed && End(d, budget, world).files.runs == d.files.runs
  {
    assert Fatal(d.files.runs[c][k]) && AnyFatal(d.files);
    MendedShowsFatal(d);
    hide Sound, End, Inv, AnyFatal, Mended, Fatal;
    EndIs(d, budget, world);
  }

  lemma MendedShowsFatal(d: Disk)
    requires Sound(d) && AnyFatal(d.files)
    ensures AnyFatal(Mended(d.files)) && Mended(d.files).runs == d.files.runs
  {
    hide Inv, Mended, Sound;
  }

  // ---------- resuming ----------

  /** What the disk says after a chunk: a fatal marker, and yet a campaign that is still in progress. */
  ghost predicate FatalButInProgress(d: Disk) {
    AnyFatal(d.files) && d.status == InProgress
  }

  lemma WorkFacts(f: Files, budget: Option<nat>, world: World)
    requires Inv(f) && ReceiptsFull(f)
    ensures EndsAs(Worked(f, budget, world), VerdictOf(f, budget, world))
  {
    InvLength(f);
    hide Inv, ReceiptsFull, Work, EndsAs, LastOf;
    WorkEndsAs(f, 0, budget, world);
  }

  /** A chunk that ends otherwise than by its budget has done the whole work. */
  lemma UnstoppedIsWhole(f: Files, k: nat, world: World)
    requires Inv(f) && ReceiptsFull(f) && VerdictOf(f, Some(k), world) != Stopped
    ensures Worked(f, None, world) == Worked(f, Some(k), world)
    ensures VerdictOf(f, None, world) == VerdictOf(f, Some(k), world)
  {
    InvLength(f);
    hide Inv, ReceiptsFull, Work;
    WorkResumes(f, 0, k, world);
  }

  /** A chunk stopped by its budget and then continued is the whole work. */
  lemma StoppedContinues(f: Files, k: nat, world: World)
    requires Inv(f) && ReceiptsFull(f) && VerdictOf(f, Some(k), world) == Stopped
    ensures var g := Worked(f, Some(k), world);
      Worked(f, None, world) == Worked(g, None, world) && VerdictOf(f, None, world) == VerdictOf(g, None, world)
  {
    InvLength(f);
    hide Inv, ReceiptsFull, Work, LastOf;
    WorkResumes(f, 0, k, world);
    var bounded := Work(f, 0, Some(k), world);
    var g := LastOf(bounded.writes, f);
    assert Inv(g);
    InvLength(g);
    LastOfTwo(bounded.writes, Work(g, 0, None, world).writes, f);
  }

  lemma StaysEnded(g: Files, verdict: Verdict, budget: Option<nat>, world: World)
    requires Inv(g) && ReceiptsFull(g) && EndsAs(g, verdict) && (verdict == Exhausted || verdict == Finished)
    ensures Worked(g, budget, world) == g && VerdictOf(g, budget, world) == verdict
  {
    InvLength(g);
    hide Inv, ReceiptsFull, Work, EndsAs;
    WorkEndsAgain(g, verdict, budget, world);
  }

  lemma StoppedWorksOn(g: Files, world: World)
    requires Inv(g) && ReceiptsFull(g) && EndsAs(g, Stopped)
    ensures Worked(g, None, world) != g
  {
    InvLength(g);
    hide Inv, ReceiptsFull, Work, EndsAs, LastOf;
    WorkGoesOn(g, world);
  }

  /** One chunk, from a disk without a fatal marker and with its receipts in place. */
  function Chunk(f: Files, budget: Option<nat>, world: World): Disk
    requires Inv(f) && ReceiptsFull(f)
  {
    var g := Worked(f, budget, world);
    Disk(g, ClosingStatus(g, VerdictOf(f, budget, world)))
  }

  /** The disk after a chunk and an unlimited resume, against one unlimited process. */
  lemma ChunkThenRest(f: Files, k: nat, world: World)
    requires Inv(f) && ReceiptsFull(f) && !AnyFatal(f)
    ensures var g, e := Worked(f, Some(k), world), Chunk(f, Some(k), world);
      ((if AnyFatal(g) then Disk(g, Failed) else Chunk(g, None, world)) == Chunk(f, None, world))
      <==> !FatalButInProgress(e)
  {
    var g, verdict := Worked(f, Some(k), world), VerdictOf(f, Some(k), world);
    WorkFacts(f, Some(k), world);
    hide Inv, ReceiptsFull, AnyFatal, Worked, VerdictOf, ClosingStatus;
    ClosingStatusIs(g, verdict);
    if verdict == Stopped {
      StoppedContinues(f, k, world);
      StoppedWorksOn(g, world);
    } else {
      UnstoppedIsWhole(f, k, world);
      if verdict != FatalAttempt { StaysEnded(g, verdict, None, world); }
    }
  }

  /**
   * Resuming after a chunk leaves exactly the disk of one unlimited process, attempts, receipts
   * and status alike, unless the chunk left a campaign in progress with a fatal marker in it.
   */
  lemma ResumeEqualsOneShot(d: Disk, k: nat, world: World)
    requires Sound(d)
    ensures End(End(d, Some(k), world), None, world) == End(d, None, world) <==>
        !FatalButInProgress(End(d, Some(k), world))
  {
    SoundHasInv(d);
    var f := Mended(d.files);
    var e := End(d, Some(k), world);
    EndIs(d, Some(k), world);
    EndIs(d, None, world);
    EndIs(e, None, world);
    hide Inv, ReceiptsFull, Sound, End, Worked, ClosingStatus, VerdictOf;
    if AnyFatal(f) {
      MendedIsFixed(f);
    } else {
      ChunkThenRest(f, k, world);
    }
  }

  // ---------- any number of chunks ----------

  /** No attempt both passes and shows a fatal marker. */
  ghost predicate PassesAreClean(world: World) {
    forall c, n :: Passed(Final(world(c, n))) ==> !Fatal(Final(world(c, n)))
  }

  lemma CleanTurn(f: Files, c: nat, child: Child)
    requires IsReady(f, c) && !AnyFatal(f) && (Passed(Final(child)) ==> !Fatal(Final(child)))
    ensures !TakeTurn(f, c, child).fatal ==> !AnyFatal(TakeTurn(f, c, child).files)
  {
  }

  lemma CleanChild(world: World, c: nat, n: nat)
    requires PassesAreClean(world)
    ensures Passed(Final(world(c, n))) ==> !Fatal(Final(world(c, n)))
  {
  }

  /** With clean passes, only a loop that ended in a fatal attempt leaves a fatal marker. */
  lemma {:induction false} CleanWork(f: Files, c: nat, budget: Option<nat>, world: World)
    requires Inv(f) && c <= CASES && AcceptedBelow(f, c) && !AnyFatal(f) && PassesAreClean(world)
    ensures AnyFatal(LastOf(Work(f, c, budget, world).writes, f)) ==> Work(f, c, budget, world).verdict == FatalAttempt
    decreases Remaining(f.runs), CASES - c
  {
    hide Inv, HasPass, AnyFatal, PassesAreClean, LastOf, TakeTurn, Remaining, Final, Passed, Fatal;
    InvLength(f);
    LastOfOne(f, f);
    if c == CASES {
    } else if HasPass(f.runs[c]) {
      CleanWork(f, c + 1, budget, world);
    } else if |f.runs[c]| < MAX_ATTEMPTS && budget != Some(0) {
      var child := world(c, |f.runs[c]| + 1);
      var turn := TakeTurn(f, c, child);
      TurnFacts(f, c, child);
      CleanChild(world, c, |f.runs[c]| + 1);
      CleanTurn(f, c, child);
      if !turn.fatal {
        CleanWork(turn.files, turn.next, Less(budget), world);
        LastOfTwo(turn.writes, Work(turn.files, turn.next, Less(budget), world).writes, f);
      }
    }
  }

  /** A series of resumed processes with the given budgets. */
  function Chunks(d: Disk, budgets: seq<nat>, world: World): (e: Disk)
    requires Sound(d)
    ensures Sound(e)
    decreases |budgets|
  {
    if budgets == [] then d else Chunks(End(d, Some(budgets[0]), world), budgets[1..], world)
  }

  /** No further process changes anything. */
  ghost predicate Settled(d: Disk, world: World)
    requires Sound(d)
  {
    forall budget :: End(d, budget, world) == d
  }

  lemma FailedIsSettled(g: Files, world: World)
    requires Inv(g) && ReceiptsFull(g) && AnyFatal(g)
    ensures Sound(Disk(g, Failed)) && Settled(Disk(g, Failed), world)
  {
    hide Inv, ReceiptsFull, AnyFatal, End;
    FailedIsSound(g);
    MendedIsFixed(g);
    forall budget ensures End(Disk(g, Failed), budget, world) == Disk(g, Failed) {
      EndIs(Disk(g, Failed), budget, world);
    }
  }

  lemma EndedIsSettled(g: Files, verdict: Verdict, world: World)
    requires Inv(g) && ReceiptsFull(g) && EndsAs(g, verdict) && (verdict == Exhausted || verdict == Finished)
    requires !AnyFatal(g)
    ensures |g.runs| == CASES
    ensures Sound(Disk(g, ClosingStatus(g, verdict))) && Settled(Disk(g, ClosingStatus(g, verdict)), world)
  {
    InvLength(g);
    hide Inv, ReceiptsFull, AnyFatal, End, EndsAs, Worked, VerdictOf, ClosingStatus;
    ClosingIsSound(g, verdict);
    MendedIsFixed(g);
    var d := Disk(g, ClosingStatus(g, verdict));
    forall budget ensures End(d, budget, world) == d {
      EndIs(d, budget, world);
      StaysEnded(g, verdict, budget, world);
    }
  }

  lemma WorkedLowersRemaining(f: Files, k: nat, world: World)
    requires Inv(f) && ReceiptsFull(f) && VerdictOf(f, Some(k), world) == Stopped
    ensures Remaining(Worked(f, Some(k), world).runs) == Remaining(f.runs) - k
  {
    InvLength(f);
    hide Inv, ReceiptsFull, Work, LastOf, Remaining;
    WorkLowersRemaining(f, 0, Some(k), world);
  }

  lemma WorkedStaysClean(f: Files, budget: Option<nat>, world: World)
    requires Inv(f) && ReceiptsFull(f) && !AnyFatal(f) && PassesAreClean(world)
    ensures AnyFatal(Worked(f, budget, world)) ==> VerdictOf(f, budget, world) == FatalAttempt
  {
    InvLength(f);
    hide Inv, ReceiptsFull, Work, LastOf, AnyFatal, PassesAreClean;
    CleanWork(f, 0, budget, world);
  }

  /** A chunk uses up its whole budget, or nothing is left to do; either way it may be resumed. */
  lemma ChunkSettlesOrAdvances(d: Disk, k: nat, world: World)
    requires Sound(d) && PassesAreClean(world)
    ensures var e := End(d, Some(k), world);
      !FatalButInProgress(e) && (Settled(e, world) || Remaining(e.files.runs) == Remaining(d.files.runs) - k)
  {
    SoundHasInv(d);
    var f := Mended(d.files);
    EndIs(d, Some(k), world);
    hide Inv, ReceiptsFull, Sound, End, Worked, ClosingStatus, VerdictOf, AnyFatal, PassesAreClean, Settled, Remaining,
         Mended;
    if AnyFatal(f) {
      FailedIsSettled(f, world);
    } else {
      var g, verdict := Worked(f, Some(k), world), VerdictOf(f, Some(k), world);
      WorkFacts(f, Some(k), world);
      WorkedStaysClean(f, Some(k), world);
      ClosingStatusIs(g, verdict);
      if verdict == Stopped {
        WorkedLowersRemaining(f, k, world);
      } else if verdict == FatalAttempt {
        FailedIsSettled(g, world);
      } else {
        EndedIsSettled(g, verdict, world);
      }
    }
  }

  lemma {:induction false} SettledChunks(d: Disk, budgets: seq<nat>, world: World)
    requires Sound(d) && Settled(d, world)
    ensures Chunks(d, budgets, world) == d
    decreases |budgets|
  {
    hide Sound, End;
    if budgets != [] {
      assert End(d, Some(budgets[0]), world) == d;
      SettledChunks(d, budgets[1..], world);
    }
  }

  /**
   * When no passing attempt shows a fatal marker, resuming with any positive budgets ends, after
   * at most as many processes as attempts remain and one more, in the disk of one unlimited process.
   */
  lemma {:induction false} ChunksEqualOneShot(d: Disk, budgets: seq<nat>, world: World)
    requires Sound(d) && PassesAreClean(world)
    requires |budgets| > Remaining(d.files.runs) && forall i :: 0 <= i < |budgets| ==> budgets[i] >= 1
    ensures Chunks(d, budgets, world) == End(d, None, world)
    decreases |budgets|
  {
    hide Inv, Sound, End, PassesAreClean, Settled, Remaining, Chunks, FatalButInProgress;
    FirstChunk(d, budgets, world);
    var k, rest := budgets[0], budgets[1..];
    var e := End(d, Some(k), world);
    ChunkSettlesOrAdvances(d, k, world);
    ResumeEqualsOneShot(d, k, world);
    if Settled(e, world) {
      SettledAtOnce(e, world);
      SettledChunks(e, rest, world);
    } else {
      ChunksEqualOneShot(e, rest, world);
    }
  }

  lemma {:induction false} FirstChunk(d: Disk, budgets: seq<nat>, world: World)
    requires Sound(d) && (budgets != [] || Remaining(d.files.runs) < 0)
    ensures budgets != [] && Chunks(d, budgets, world) == Chunks(End(d, Some(budgets[0]), world), budgets[1..], world)
  {
    hide Inv, Sound, End, Remaining;
    SoundHasInv(d);
    InvLength(d.files);
  }

  lemma SettledAtOnce(d: Disk, world: World)
    requires Sound(d) && Settled(d, world)
    ensures End(d, None, world) == d
  {
  }

  lemma EmptyIsReady()
    ensures var f := Empty().files;
        IsReady(f, 0) && ReceiptsFull(f) && !AnyFatal(f) && |f.runs[0]| == 0 && f.runs[1] == map[]
  {
  }

  /** A passing attempt is never fatal to its process, but its marker stays on disk. */
  lemma FatalPassTurn(f: Files, child: Child)
    requires IsReady(f, 0) && f.runs[1] == map[] && Passed(Final(child)) && Fatal(Final(child))
    ensures var turn := TakeTurn(f, 0, child);
      !turn.fatal && turn.next == 1 && |turn.files.runs| == CASES && turn.files.runs[1] == map[] && AnyFatal(turn.files)
  {
  }

  lemma {:induction false} NothingWithoutBudget(f: Files, c: nat, world: World)
    requires Inv(f) && c < CASES && |f.runs| == CASES && AcceptedBelow(f, c) && f.runs[c] == map[]
    ensures Work(f, c, Some(0), world) == Outcome([], Stopped)
  {
  }

  /** The one attempt of a first process with a budget of one, when it passes with a fatal marker. */
  lemma OneFatalPass(f: Files, world: World)
    requires IsReady(f, 0) && ReceiptsFull(f) && |f.runs[0]| == 0 && f.runs[1] == map[]
    requires Passed(Final(world(0, 1))) && Fatal(Final(world(0, 1)))
    ensures Inv(f) && AnyFatal(Worked(f, Some(1), world)) && VerdictOf(f, Some(1), world) == Stopped
  {
    hide Inv, HasPass, AnyFatal, TakeTurn, Final, Fatal, Passed, ReceiptsFull, LastOf, Then, Work;
    FirstTurn(f, world);
    var turn := TakeTurn(f, 0, world(0, 1));
    NothingWithoutBudget(turn.files, 1, world);
    ThenNothing(turn.writes, Stopped);
  }

  /** The first turn of that process, and what is left to do after it. */
  lemma {:induction false} FirstTurn(f: Files, world: World)
    requires IsReady(f, 0) && |f.runs[0]| == 0 && f.runs[1] == map[]
    requires Passed(Final(world(0, 1))) && Fatal(Final(world(0, 1)))
    ensures Inv(f) && AcceptedBelow(f, 0)
    ensures var turn := TakeTurn(f, 0, world(0, 1));
      && LastOf(turn.writes, f) == turn.files
      && Inv(turn.files) && |turn.files.runs| == CASES && AcceptedBelow(turn.files, 1)
      && turn.files.runs[1] == map[] && AnyFatal(turn.files)
      && Work(f, 0, Some(1), world) == Then(turn.writes, Work(turn.files, 1, Some(0), world))
  {
    hide HasPass, AnyFatal, TakeTurn, Final, Fatal, Passed, LastOf, Then, Work, Remaining, ReceiptsFull, Inv;
    FatalPassTurn(f, world(0, 1));
    FirstTurnEnds(f, world(0, 1));
    WorkTakesTurn(f, 0, Some(1), world);
  }

  lemma FirstTurnEnds(f: Files, child: Child)
    requires IsReady(f, 0) && |f.runs[0]| == 0
    ensures LastOf(TakeTurn(f, 0, child).writes, f) == TakeTurn(f, 0, child).files
  {
    hide HasPass, AnyFatal, TakeTurn, LastOf, Remaining, ReceiptsFull, Inv;
    TurnFacts(f, 0, child);
  }

  /** A first attempt that passes with a fatal marker makes the resume stop where one process goes on. */
  lemma FatalPassBreaksResume(world: World)
    requires Passed(Final(world(0, 1))) && Fatal(Final(world(0, 1)))
    ensures Sound(Empty())
    ensures End(End(Empty(), Some(1), world), None, world) != End(Empty(), None, world)
  {
    EmptyIsSound();
    EmptyIsReady();
    OneFatalPass(Empty().files, world);
    hide Inv, Sound, End, Worked, VerdictOf, AnyFatal, ReceiptsFull, ClosingStatus, Empty;
    var f := Empty().files;
    MendedIsFixed(f);
    EndIs(Empty(), Some(1), world);
    ClosingStatusIs(Worked(f, Some(1), world), Stopped);
    ResumeEqualsOneShot(Empty(), 1, world);
  }
}
