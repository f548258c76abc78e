/**
 * The resumable campaign of scheduled unit and hardware cases: at most three retained attempts
 * per case, acceptance receipts, and a stop at the first fatal attempt. Everything the campaign
 * knows between two processes is on disk, and a process may be killed after any write.
 */
module MechanismCampaign {
  import opened Prelude

  const MAX_ATTEMPTS := 3
  const UNIT_CASES := 27
  const HARDWARE_CASES := 32
  const CASES := 59

  /** The terminal report of an attempt, as read_status tells them apart. */
  datatype Report = Missing | Unreadable | Pass | NotPass

  /** What an attempt directory holds; the runner's log records whether it shows a fatal marker. */
  datatype Attempt = Attempt(report: Report, childFatal: bool, runnerLog: Option<bool>, rowFrozen: bool)

  const BLANK := Attempt(Missing, false, None, false)

  /** The attempts of one case, by number. */
  type Run = map<nat, Attempt>

  /** Which attempt was accepted, and the files it held at that moment. */
  datatype Receipt = Receipt(attempt: nat, inventory: Attempt)

  /** Run directories by case, unit cases first, and receipts. */
  datatype Files = Files(runs: seq<Run>, receipts: map<nat, Receipt>)

  datatype Status = NotStarted | InProgress | Failed | Complete

  datatype Disk = Disk(files: Files, status: Status)

  function NoRuns(cases: nat): (runs: seq<Run>)
    ensures |runs| == cases && forall c :: 0 <= c < cases ==> runs[c] == map[]
  {
    if cases == 0 then [] else NoRuns(cases - 1) + [map[]]
  }

  /** A new output directory. */
  function Empty(): Disk {
    Disk(Files(NoRuns(CASES), map[]), NotStarted)
  }

  /** A child process: the successive contents of its directory, and whether its output shows a fatal marker. */
  datatype Child = Child(stages: seq<Attempt>, fatalOutput: bool)

  /** The outcome of every attempt, by case and attempt number. */
  type World = (nat, nat) -> Child

  predicate Passed(a: Attempt) {
    a.report == Pass
  }

  predicate Fatal(a: Attempt) {
    a.childFatal || a.runnerLog == Some(true)
  }

  predicate HasPass(run: Run) {
    exists k :: k in run && Passed(run[k])
  }

  predicate AnyFatal(f: Files) {
    exists c, k :: 0 <= c < |f.runs| && k in f.runs[c] && Fatal(f.runs[c][k])
  }

  // ---------- the invariant ----------

  /** Attempts are numbered 1, 2, 3 without gaps, and only the last one may have passed. */
  ghost predicate OrderlyRun(run: Run) {
    && |run| <= MAX_ATTEMPTS
    && (forall k :: k in run <==> 1 <= k <= |run|)
    && (forall k :: k in run && Passed(run[k]) ==> k == |run|)
  }

  ghost predicate OrderlyReceipt(run: Run, receipt: Receipt) {
    HasPass(run) && |run| in run && receipt == Receipt(|run|, run[|run|])
  }

  ghost predicate Inv(f: Files) {
    && |f.runs| == CASES
    && (forall c :: 0 <= c < CASES ==> OrderlyRun(f.runs[c]))
    && (forall b, c :: 0 <= b < c < CASES && |f.runs[c]| > 0 ==> HasPass(f.runs[b]))
    && (forall c :: c in f.receipts ==> c < CASES && OrderlyReceipt(f.runs[c], f.receipts[c]))
  }

  /** Every accepted case has its receipt. */
  ghost predicate ReceiptsFull(f: Files) {
    forall c :: 0 <= c < |f.runs| && HasPass(f.runs[c]) ==> c in f.receipts
  }

  /** Attempts that may still be made: the measure that every attempt lowers. */
  function Remaining(runs: seq<Run>): int {
    if runs == [] then 0 else Remaining(runs[..|runs| - 1]) + MAX_ATTEMPTS - |runs[|runs| - 1]|
  }

  lemma {:induction false} RemainingDrops(runs: seq<Run>, c: nat, run: Run)
    requires c < |runs|
    ensures Remaining(runs[c := run]) == Remaining(runs) + |runs[c]| - |run|
  {
    var n := |runs| - 1;
    if c == n {
      assert runs[c := run][..n] == runs[..n];
    } else {
      assert runs[c := run][..n] == runs[..n][c := run];
      RemainingDrops(runs[..n], c, run);
    }
  }

  lemma {:induction false} RemainingIsNatural(runs: seq<Run>)
    requires forall c :: 0 <= c < |runs| ==> |runs[c]| <= MAX_ATTEMPTS
    ensures 0 <= Remaining(runs) <= MAX_ATTEMPTS * |runs|
  {
    if runs != [] {
      RemainingIsNatural(runs[..|runs| - 1]);
    }
  }

  // ---------- one attempt ----------

  /** The contents the attempt directory goes through: the child's, then its log, then the frozen row. */
  function Contents(child: Child): (contents: seq<Attempt>)
    ensures contents != []
  {
    var stages := if child.stages == [] then [BLANK] else child.stages;
    var logged := stages[|stages| - 1].(runnerLog := Some(child.fatalOutput));
    stages + [logged, logged.(rowFrozen := true)]
  }

  function Final(child: Child): Attempt {
    Contents(child)[|Contents(child)| - 1]
  }

  /** The terminal report the child leaves behind. */
  function LastReport(child: Child): Report {
    if child.stages == [] then Missing else child.stages[|child.stages| - 1].report
  }

  /** Whether a log that the child leaves behind shows a fatal marker. */
  predicate LogsMarker(child: Child) {
    child.stages != [] && child.stages[|child.stages| - 1].childFatal
  }

  /** Whether a fatal marker is printed by the child or left in one of its logs. */
  predicate ShowsMarker(child: Child) {
    child.fatalOutput || LogsMarker(child)
  }

  /** What is retained of an attempt: what the child left, its output as runner.log, and the frozen row. */
  function Kept(child: Child): Attempt {
    Attempt(LastReport(child), LogsMarker(child), Some(child.fatalOutput), true)
  }

  lemma FinalIsKept(child: Child)
    ensures Final(child) == Kept(child)
    ensures Passed(Final(child)) <==> LastReport(child) == Pass
    ensures Fatal(Final(child)) <==> ShowsMarker(child)
  {
  }

  /** The run with `content` as its next attempt. */
  function Extended(run: Run, content: Attempt): Run {
    run[|run| + 1 := content]
  }

  function PutAttempt(f: Files, c: nat, content: Attempt): Files
    requires c < |f.runs|
  {
    f.(runs := f.runs[c := Extended(f.runs[c], content)])
  }

  /** The files while the next attempt of case c goes through these contents. */
  function PutAll(f: Files, c: nat, contents: seq<Attempt>): (writes: seq<Files>)
    requires c < |f.runs|
    ensures |writes| == |contents|
    ensures forall i :: 0 <= i < |writes| ==> writes[i] == PutAttempt(f, c, contents[i])
  {
    seq(|contents|, i requires 0 <= i < |contents| => PutAttempt(f, c, contents[i]))
  }

  function AttemptWrites(f: Files, c: nat, child: Child): (writes: seq<Files>)
    requires c < |f.runs|
    ensures |writes| == |Contents(child)|
    ensures forall i :: 0 <= i < |writes| ==> writes[i] == PutAttempt(f, c, Contents(child)[i])
  {
    PutAll(f, c, Contents(child))
  }

  lemma PutShows(f: Files, c: nat, content: Attempt)
    requires c < |f.runs|
    ensures var g, k := PutAttempt(f, c, content), |f.runs[c]| + 1;
      |g.runs| == |f.runs| && k in g.runs[c] && g.runs[c][k] == content
  {
  }

  lemma ContentsAre(child: Child)
    ensures var contents, n := Contents(child), if child.stages == [] then 1 else |child.stages|;
      && |contents| == n + 2
      && (forall i :: 0 <= i < |child.stages| ==> contents[i] == child.stages[i])
      && (child.stages == [] ==> contents[0] == Attempt(Missing, false, None, false))
      && contents[n] == Kept(child).(rowFrozen := contents[n - 1].rowFrozen) && contents[n + 1] == Kept(child)
  {
  }

  /**
   * The attempt directory holds each of the child's contents in turn (an empty directory if it made none), then
   * the child's output as runner.log as well, and then the frozen row.
   */
  lemma AttemptStates(f: Files, c: nat, child: Child, i: nat)
    requires c < |f.runs|
    ensures var writes, k := AttemptWrites(f, c, child), |f.runs[c]| + 1;
      var n := if child.stages == [] then 1 else |child.stages|;
      && |writes| == n + 2
      && (i < n + 2 ==> |writes[i].runs| == |f.runs| && k in writes[i].runs[c])
      && (i < |child.stages| ==> writes[i].runs[c][k] == child.stages[i])
      && (i == 0 && child.stages == [] ==> writes[0].runs[c][k] == Attempt(Missing, false, None, false))
      && (i == n && child.stages != [] ==>
            writes[n].runs[c][k] == Kept(child).(rowFrozen := child.stages[n - 1].rowFrozen))
      && (i == n && child.stages == [] ==> writes[n].runs[c][k] == Kept(child).(rowFrozen := false))
      && (i == n + 1 ==> writes[n + 1].runs[c][k] == Kept(child))
  {
    ContentsAre(child);
    hide Contents, PutAttempt, Kept;
    if i < |Contents(child)| {
      PutShows(f, c, Contents(child)[i]);
    }
  }

  /** record_receipt keeps a receipt that is already there. */
  function WithReceipt(f: Files, c: nat, k: nat): Files
    requires c < |f.runs| && k in f.runs[c]
  {
    if c in f.receipts then f else f.(receipts := f.receipts[c := Receipt(k, f.runs[c][k])])
  }

  /** Whether all earlier cases are accepted and this one is not: the only case that may be attempted. */
  ghost predicate IsFrontier(f: Files, c: nat) {
    && c < |f.runs| && !HasPass(f.runs[c])
    && forall b :: 0 <= b < c ==> HasPass(f.runs[b])
  }

  lemma ExtendedIsOrderly(run: Run, content: Attempt)
    requires OrderlyRun(run) && !HasPass(run) && |run| < MAX_ATTEMPTS
    ensures OrderlyRun(Extended(run, content)) && |Extended(run, content)| == |run| + 1
    ensures HasPass(Extended(run, content)) <==> Passed(content)
    ensures |run| + 1 in Extended(run, content) && Extended(run, content)[|run| + 1] == content
  {
    var k: nat := |run| + 1;
    var longer := Extended(run, content);
    assert forall j :: j in run ==> j != k && longer[j] == run[j];
    assert k in longer && longer[k] == content;
  }

  lemma PutKeepsInv(f: Files, c: nat, content: Attempt)
    requires Inv(f) && IsFrontier(f, c) && |f.runs[c]| < MAX_ATTEMPTS
    ensures var g := PutAttempt(f, c, content);
      && Inv(g) && Remaining(g.runs) == Remaining(f.runs) - 1
      && g.receipts == f.receipts && c !in g.receipts
      && (Passed(content) <==> HasPass(g.runs[c]))
      && (!Passed(content) ==> IsFrontier(g, c))
  {
    hide OrderlyRun, HasPass, Extended, Remaining;
    var longer := Extended(f.runs[c], content);
    RemainingDrops(f.runs, c, longer);
    ExtendedIsOrderly(f.runs[c], content);
    assert forall b :: 0 <= b < |f.runs| && b != c ==> f.runs[c := longer][b] == f.runs[b];
  }

  lemma WithReceiptFacts(f: Files, c: nat)
    requires Inv(f) && c < CASES && HasPass(f.runs[c])
    ensures |f.runs[c]| in f.runs[c]
    ensures var g := WithReceipt(f, c, |f.runs[c]|);
      Inv(g) && g.runs == f.runs && c in g.receipts && forall b :: b != c ==> (b in g.receipts <==> b in f.receipts)
  {
  }

  // ---------- rebuilding the ledgers ----------

  datatype Lookup = Nobody | One(attempt: nat) | Multiple

  /** The passing attempts among the first n, in order. */
  function Passing(run: Run, n: nat): seq<nat> {
    if n == 0 then [] else Passing(run, n - 1) + if n in run && Passed(run[n]) then [n] else []
  }

  /** accepted_attempt: the passing attempt, or the error that there are several. */
  function AcceptedAttempt(run: Run): Lookup {
    var passing := Passing(run, |run|);
    if |passing| > 1 then Multiple else if passing == [] then Nobody else One(passing[0])
  }

  lemma {:induction false} PassingFacts(run: Run, n: nat)
    ensures forall k :: k in Passing(run, n) <==> 1 <= k <= n && k in run && Passed(run[k])
  {
    if n > 0 {
      PassingFacts(run, n - 1);
    }
  }

  lemma {:induction false} NoPassing(run: Run, n: nat)
    requires forall k :: k in run && k <= n ==> !Passed(run[k])
    ensures Passing(run, n) == []
  {
    if n > 0 {
      NoPassing(run, n - 1);
    }
  }

  /** Over an orderly run there is never more than one passing attempt: the last. */
  lemma AcceptedIsLast(run: Run)
    requires OrderlyRun(run)
    ensures AcceptedAttempt(run) == if HasPass(run) then One(|run|) else Nobody
    ensures HasPass(run) ==> |run| in run && Passed(run[|run|])
  {
    PassingFacts(run, |run|);
    if |run| > 0 {
      NoPassing(run, |run| - 1);
    }
    if HasPass(run) {
      var k :| k in run && Passed(run[k]);
    }
  }

  /** The states a rebuild writes, and whether it got through without an error. */
  datatype Rebuilt = Rebuilt(writes: seq<Files>, ok: bool)

  /** At one case: its accepted attempt gets a receipt if it has none, and the receipt must match. */
  function RebuildCase(f: Files, c: nat): (r: Rebuilt)
    requires c < |f.runs|
    ensures forall w :: w in r.writes ==> w.runs == f.runs
  {
    match AcceptedAttempt(f.runs[c])
    case Multiple => Rebuilt([], false)
    case Nobody => Rebuilt([], true)
    case One(k) =>
      PassingFacts(f.runs[c], |f.runs[c]|);
      var g := WithReceipt(f, c, k);
      Rebuilt(if c in f.receipts then [] else [g], g.receipts[c] == Receipt(k, f.runs[c][k]))
  }

  /** Rebuilds the cases from c on, up to the first error. */
  function RebuildFrom(f: Files, c: nat): Rebuilt
    requires c <= |f.runs|
    decreases |f.runs| - c
  {
    if c == |f.runs| then Rebuilt([], true)
    else
      var one := RebuildCase(f, c);
      if !one.ok then one
      else
        var rest := RebuildFrom(LastOf(one.writes, f), c + 1);
        Rebuilt(one.writes + rest.writes, rest.ok)
  }

  /** No error, no change to any attempt, and at the end every accepted case has its receipt. */
  ghost predicate Mends(f: Files, r: Rebuilt) {
    && r.ok
    && (forall w :: w in r.writes ==> Inv(w) && w.runs == f.runs)
    && Inv(LastOf(r.writes, f)) && LastOf(r.writes, f).runs == f.runs && ReceiptsFull(LastOf(r.writes, f))
  }

  ghost predicate ReceiptsBelow(f: Files, c: nat)
    requires c <= |f.runs|
  {
    forall b :: 0 <= b < c && HasPass(f.runs[b]) ==> b in f.receipts
  }

  lemma MendsThen(f: Files, g: Files, rest: Rebuilt)
    requires Inv(g) && g.runs == f.runs && Mends(g, rest)
    ensures Mends(f, Rebuilt([g] + rest.writes, rest.ok))
  {
    hide Inv, ReceiptsFull;
    LastOfTwo([g], rest.writes, f);
    hide LastOf;
    LastOfOne(g, f);
  }

  /** What a rebuild does at one case of an orderly disk. */
  lemma RebuildStep(f: Files, c: nat)
    requires Inv(f) && c < CASES
    ensures |f.runs| == CASES
    ensures HasPass(f.runs[c]) ==> |f.runs[c]| in f.runs[c]
    ensures RebuildFrom(f, c)
      == if !HasPass(f.runs[c]) || c in f.receipts then RebuildFrom(f, c + 1)
         else var g := WithReceipt(f, c, |f.runs[c]|);
              Rebuilt([g] + RebuildFrom(g, c + 1).writes, RebuildFrom(g, c + 1).ok)
  {
    AcceptedIsLast(f.runs[c]);
    assert c in f.receipts ==> OrderlyReceipt(f.runs[c], f.receipts[c]);
    hide Inv, HasPass, AcceptedAttempt;
  }

  lemma {:induction false} MendsNothing(f: Files)
    requires Inv(f) && |f.runs| == CASES && ReceiptsBelow(f, CASES)
    ensures RebuildFrom(f, CASES) == Rebuilt([], true) && Mends(f, Rebuilt([], true))
  {
  }

  /** One more receipt below c, when case c has one. */
  lemma ReceiptsBelowGrow(f: Files, g: Files, c: nat)
    requires |f.runs| == CASES && c < CASES && ReceiptsBelow(f, c) && g.runs == f.runs
    requires forall b :: b in f.receipts ==> b in g.receipts
    requires HasPass(f.runs[c]) ==> c in g.receipts
    ensures ReceiptsBelow(g, c + 1)
  {
  }

  /** A rebuild of an orderly disk meets no error and only adds the missing receipts. */
  lemma {:induction false} RebuildOnlyAddsReceipts(f: Files, c: nat)
    requires Inv(f) && |f.runs| == CASES && c <= CASES && ReceiptsBelow(f, c)
    ensures Mends(f, RebuildFrom(f, c))
    decreases CASES - c
  {
    hide Inv, HasPass, Mends, RebuildFrom, WithReceipt, ReceiptsBelow;
    if c == CASES {
      MendsNothing(f);
    } else {
      RebuildStep(f, c);
      if HasPass(f.runs[c]) && c !in f.receipts {
        WithReceiptFacts(f, c);
        var g := WithReceipt(f, c, |f.runs[c]|);
        ReceiptsBelowGrow(f, g, c);
        RebuildOnlyAddsReceipts(g, c + 1);
        MendsThen(f, g, RebuildFrom(g, c + 1));
      } else {
        ReceiptsBelowGrow(f, f, c);
        RebuildOnlyAddsReceipts(f, c + 1);
      }
    }
  }

  lemma {:induction false} RebuildMends(f: Files)
    requires Inv(f)
    ensures |f.runs| == CASES && Mends(f, RebuildFrom(f, 0))
  {
    InvLength(f);
    hide Inv, RebuildFrom, Mends;
    RebuildOnlyAddsReceipts(f, 0);
  }

  /** One case as a rebuild accepts it: at most one passing attempt, and a receipt of it only with its files. */
  ghost predicate IsConsistent(f: Files, c: nat)
    requires c < |f.runs|
  {
    forall k :: k in f.runs[c] && f.runs[c][k].report == Pass ==>
      && (forall j :: j in f.runs[c] && f.runs[c][j].report == Pass ==> j == k)
      && (c in f.receipts ==> f.receipts[c] == Receipt(k, f.runs[c][k]))
  }

  ghost predicate IsNumbered(run: Run) {
    forall k :: k in run <==> 1 <= k <= |run|
  }

  lemma {:induction false} PassingIncreases(run: Run, n: nat, i: nat, j: nat)
    requires i < j < |Passing(run, n)|
    ensures Passing(run, n)[i] < Passing(run, n)[j]
  {
    if n > 0 {
      var before := Passing(run, n - 1);
      PassingFacts(run, n - 1);
      assert before[i] in before;
      if j < |before| {
        PassingIncreases(run, n - 1, i, j);
      }
    }
  }

  /** The passing attempts as a rebuild finds them: none, one, or several. */
  lemma LookupIs(run: Run)
    requires IsNumbered(run)
    ensures match AcceptedAttempt(run)
      case Nobody => forall k :: k in run ==> run[k].report != Pass
      case One(k) => k in run && forall j :: j in run && run[j].report == Pass <==> j == k
      case Multiple => exists j, k :: j in run && k in run && j != k && run[j].report == run[k].report == Pass
  {
    var passing := Passing(run, |run|);
    PassingFacts(run, |run|);
    if |passing| > 1 {
      PassingIncreases(run, |run|, 0, 1);
      assert passing[0] in passing && passing[1] in passing;
    } else if |passing| == 1 {
      assert passing[0] in passing;
      assert forall j :: j in passing ==> j == passing[0];
    }
  }

  /** The rebuild of one case, on any disk: an error exactly for a second pass or a receipt that has drifted. */
  lemma RebuildCaseChecks(f: Files, c: nat)
    requires c < |f.runs| && IsNumbered(f.runs[c])
    ensures RebuildCase(f, c).ok <==> IsConsistent(f, c)
  {
    hide AcceptedAttempt, IsNumbered;
    LookupIs(f.runs[c]);
  }

  lemma SameConsistency(f: Files, g: Files, c: nat)
    requires c < |f.runs| && g.runs == f.runs
    requires c in f.receipts <==> c in g.receipts
    requires c in f.receipts ==> f.receipts[c] == g.receipts[c]
    ensures IsConsistent(f, c) <==> IsConsistent(g, c)
  {
  }

  /** On any disk with numbered attempts a rebuild gets through exactly when every case is consistent. */
  lemma {:induction false} RebuildChecks(f: Files, c: nat)
    requires c <= |f.runs| && forall b :: 0 <= b < |f.runs| ==> IsNumbered(f.runs[b])
    ensures RebuildFrom(f, c).ok <==> forall b :: c <= b < |f.runs| ==> IsConsistent(f, b)
    decreases |f.runs| - c
  {
    hide RebuildCase, IsConsistent, IsNumbered;
    if c < |f.runs| {
      RebuildCaseChecks(f, c);
      if RebuildCase(f, c).ok {
        var g := LastOf(RebuildCase(f, c).writes, f);
        RebuildCaseKeeps(f, c);
        RebuildChecks(g, c + 1);
        forall b | c < b < |f.runs| ensures IsConsistent(f, b) <==> IsConsistent(g, b) {
          SameConsistency(f, g, b);
        }
      }
    }
  }

  lemma RebuildCaseKeeps(f: Files, c: nat)
    requires c < |f.runs|
    ensures var g := LastOf(RebuildCase(f, c).writes, f);
      && g.runs == f.runs
      && (forall b :: b != c ==> (b in f.receipts <==> b in g.receipts))
      && (forall b :: b != c && b in f.receipts ==> f.receipts[b] == g.receipts[b])
  {
    hide Passing;
  }

  lemma {:induction false} FullNeedsNoRebuild(f: Files, c: nat)
    requires Inv(f) && |f.runs| == CASES && c <= CASES && ReceiptsFull(f)
    ensures RebuildFrom(f, c) == Rebuilt([], true)
    decreases CASES - c
  {
    if c < CASES {
      RebuildStep(f, c);
      hide Inv, HasPass, RebuildFrom;
      FullNeedsNoRebuild(f, c + 1);
    }
  }

  // ---------- one process ----------

  /** Why the attempt loop ended. */
  datatype Verdict = Stopped | Finished | FatalAttempt | Exhausted

  datatype Outcome = Outcome(writes: seq<Files>, verdict: Verdict)

  function Then(writes: seq<Files>, rest: Outcome): Outcome {
    rest.(writes := writes + rest.writes)
  }

  /** --max-new-attempts after one attempt; None is no limit. */
  function Less(budget: Option<nat>): Option<nat>
    requires budget != Some(0)
  {
    if budget.None? then None else Some(budget.value - 1)
  }

  ghost predicate AcceptedBelow(f: Files, c: nat)
    requires c <= |f.runs|
  {
    forall b :: 0 <= b < c ==> HasPass(f.runs[b])
  }

  lemma AcceptKeepsInv(f: Files, c: nat, child: Child)
    requires Inv(f) && IsFrontier(f, c) && |f.runs[c]| < MAX_ATTEMPTS && Passed(Final(child))
    ensures var g := PutAttempt(f, c, Final(child));
      && |g.runs[c]| in g.runs[c]
      && (var h := WithReceipt(g, c, |g.runs[c]|);
          Inv(h) && h.runs == g.runs && AcceptedBelow(h, c + 1) && Remaining(h.runs) == Remaining(f.runs) - 1
          && h.receipts.Keys == f.receipts.Keys + {c})
  {
    hide Inv, Remaining, OrderlyRun;
    assert |f.runs| == CASES by { InvLength(f); }
    PutKeepsInv(f, c, Final(child));
    var g := PutAttempt(f, c, Final(child));
    WithReceiptFacts(g, c);
  }

  lemma InvLength(f: Files)
    requires Inv(f)
    ensures |f.runs| == CASES && 0 <= Remaining(f.runs) <= MAX_ATTEMPTS * CASES
  {
    RemainingIsNatural(f.runs);
  }

  /** One attempt at case c: what it writes, where it leaves the loop, and whether it is fatal. */
  datatype Turn = Turn(writes: seq<Files>, files: Files, next: nat, fatal: bool)

  function TakeTurn(f: Files, c: nat, child: Child): Turn
    requires c < |f.runs|
  {
    var final := Final(child);
    var g := PutAttempt(f, c, final);
    var writes := AttemptWrites(f, c, child);
    if Passed(final) && |g.runs[c]| in g.runs[c] then
      var h := WithReceipt(g, c, |g.runs[c]|);
      Turn(writes + [h], h, c + 1, false)
    else
      Turn(writes, g, c, Fatal(final))
  }

  /** A turn of an orderly loop is orderly in every state and uses up one of the attempts remaining. */
  ghost predicate IsOrderlyTurn(f: Files, c: nat, turn: Turn) {
    && (forall w :: w in turn.writes ==> Inv(w))
    && LastOf(turn.writes, f) == turn.files
    && Inv(turn.files) && |turn.files.runs| == CASES
    && 0 <= Remaining(turn.files.runs) == Remaining(f.runs) - 1
    && c <= turn.next <= CASES && AcceptedBelow(turn.files, turn.next)
    && (ReceiptsFull(f) ==> ReceiptsFull(turn.files))
    && (turn.fatal ==> AnyFatal(turn.files))
  }

  lemma FailedTurnFacts(f: Files, c: nat, child: Child)
    requires Inv(f) && |f.runs| == CASES && c < CASES && AcceptedBelow(f, c) && !HasPass(f.runs[c])
    requires |f.runs[c]| < MAX_ATTEMPTS
    requires !Passed(Final(child))
    ensures IsOrderlyTurn(f, c, TakeTurn(f, c, child))
  {
    hide Inv, Remaining, AttemptWrites, Final, HasPass, PutAttempt, LastOf, ReceiptsFull, AnyFatal;
    if Fatal(Final(child)) { FatalIsSeen(f, c, Final(child)); }
    AttemptWritesKeepInv(f, c, child);
    PutKeepsInv(f, c, Final(child));
    PutKeepsFull(f, c, Final(child));
    InvLength(PutAttempt(f, c, Final(child)));
  }

  lemma PassedTurnFacts(f: Files, c: nat, child: Child)
    requires Inv(f) && |f.runs| == CASES && c < CASES && AcceptedBelow(f, c) && !HasPass(f.runs[c])
    requires |f.runs[c]| < MAX_ATTEMPTS
    requires Passed(Final(child))
    ensures IsOrderlyTurn(f, c, TakeTurn(f, c, child))
  {
    hide Inv, Remaining, AttemptWrites, Final, HasPass, PutAttempt, LastOf, ReceiptsFull, AnyFatal;
    AttemptWritesKeepInv(f, c, child);
    PutKeepsInv(f, c, Final(child));
    var writes, g := AttemptWrites(f, c, child), PutAttempt(f, c, Final(child));
    InvLength(g);
    AcceptKeepsInv(f, c, child);
    AcceptKeepsFull(f, c, child);
    var h := WithReceipt(g, c, |g.runs[c]|);
    InvLength(h);
    LastOfTwo(writes, [h], f);
    LastOfOne(h, g);
  }

  lemma TurnFacts(f: Files, c: nat, child: Child)
    requires Inv(f) && |f.runs| == CASES && c < CASES && AcceptedBelow(f, c) && !HasPass(f.runs[c])
    requires |f.runs[c]| < MAX_ATTEMPTS
    ensures IsOrderlyTurn(f, c, TakeTurn(f, c, child))
  {
    hide Inv, Final, HasPass, TakeTurn, IsOrderlyTurn;
    if Passed(Final(child)) {
      PassedTurnFacts(f, c, child);
    } else {
      FailedTurnFacts(f, c, child);
    }
  }

  lemma FatalIsSeen(f: Files, c: nat, content: Attempt)
    requires c < |f.runs| && Fatal(content)
    ensures AnyFatal(PutAttempt(f, c, content))
  {
    var g := PutAttempt(f, c, content);
    assert |f.runs[c]| + 1 in g.runs[c] && Fatal(g.runs[c][|f.runs[c]| + 1]);
  }

  /** What the attempt loop needs of a turn. */
  lemma TurnAdvances(f: Files, c: nat, child: Child)
    requires Inv(f) && |f.runs| == CASES && c < CASES && AcceptedBelow(f, c) && !HasPass(f.runs[c])
    requires |f.runs[c]| < MAX_ATTEMPTS
    ensures var turn := TakeTurn(f, c, child);
      && Inv(turn.files) && turn.next <= CASES && turn.next <= |turn.files.runs| && AcceptedBelow(turn.files, turn.next)
      && Remaining(turn.files.runs) < Remaining(f.runs)
  {
    hide Inv, HasPass, TakeTurn, LastOf, ReceiptsFull, AnyFatal;
    TurnFacts(f, c, child);
  }

  lemma AcceptedGrows(f: Files, c: nat)
    requires c < |f.runs| && AcceptedBelow(f, c) && HasPass(f.runs[c])
    ensures AcceptedBelow(f, c + 1)
  {
  }

  /** The attempt loop from case c on, all earlier cases being accepted. */
  function Work(f: Files, c: nat, budget: Option<nat>, world: World): Outcome
    requires Inv(f) && c <= CASES && AcceptedBelow(f, c)
    decreases Remaining(f.runs), CASES - c
  {
    InvLength(f);
    if c == CASES then Outcome([], Finished)
    else if HasPass(f.runs[c]) then
      AcceptedGrows(f, c);
      Work(f, c + 1, budget, world)
    else if |f.runs[c]| >= MAX_ATTEMPTS then Outcome([], Exhausted)
    else if budget == Some(0) then Outcome([], Stopped)
    else
      var turn := TakeTurn(f, c, world(c, |f.runs[c]| + 1));
      TurnAdvances(f, c, world(c, |f.runs[c]| + 1));
      if turn.fatal then Outcome(turn.writes, FatalAttempt)
      else Then(turn.writes, Work(turn.files, turn.next, Less(budget), world))
  }

  /** The case to attempt: the first without a pass, with attempts left. */
  ghost predicate IsReady(f: Files, c: nat) {
    Inv(f) && |f.runs| == CASES && c < CASES && AcceptedBelow(f, c) && !HasPass(f.runs[c]) && |f.runs[c]| < MAX_ATTEMPTS
  }

  lemma WorkTakesTurn(f: Files, c: nat, budget: Option<nat>, world: World)
    requires IsReady(f, c) && budget != Some(0)
    ensures var turn := TakeTurn(f, c, world(c, |f.runs[c]| + 1));
      && Inv(turn.files) && turn.next <= CASES && turn.next <= |turn.files.runs| && AcceptedBelow(turn.files, turn.next)
      && Work(f, c, budget, world)
           == if turn.fatal then Outcome(turn.writes, FatalAttempt)
              else Then(turn.writes, Work(turn.files, turn.next, Less(budget), world))
  {
    hide Inv, HasPass, TakeTurn, Then, Remaining;
    TurnAdvances(f, c, world(c, |f.runs[c]| + 1));
  }

  lemma ThenTwice(first: seq<Files>, second: seq<Files>, rest: Outcome)
    ensures Then(first, Then(second, rest)) == Then(first + second, rest)
    ensures Then([], rest) == rest
  {
  }

  function WithStatus(files: seq<Files>, status: Status): (disks: seq<Disk>)
    ensures |disks| == |files|
    ensures forall i :: 0 <= i < |files| ==> disks[i] == Disk(files[i], status)
  {
    seq(|files|, i requires 0 <= i < |files| => Disk(files[i], status))
  }

  /** How many of the cases from `first` to before `end` are accepted. */
  function AcceptedBetween(runs: seq<Run>, first: nat, end: nat): nat
    requires first <= end <= |runs|
  {
    if first == end then 0
    else AcceptedBetween(runs, first, end - 1) + if AcceptedAttempt(runs[end - 1]).One? then 1 else 0
  }

  /** The status that closes a process. */
  function ClosingStatus(f: Files, verdict: Verdict): Status
    requires |f.runs| == CASES
  {
    if verdict == FatalAttempt || verdict == Exhausted then Failed
    else if AcceptedBetween(f.runs, 0, UNIT_CASES) == UNIT_CASES
      && AcceptedBetween(f.runs, UNIT_CASES, CASES) == HARDWARE_CASES && !AnyFatal(f) then Complete
    else InProgress
  }

  /** The states a rebuild leaves on the way, and the one it ends in. */
  function Mending(f: Files): seq<Files>
    requires Inv(f)
  {
    InvLength(f);
    RebuildFrom(f, 0).writes
  }

  function Mended(f: Files): (g: Files)
    requires Inv(f)
    ensures Inv(g) && g.runs == f.runs && ReceiptsFull(g)
  {
    RebuildMends(f);
    LastOf(Mending(f), f)
  }

  /** The part of a process after its opening rebuild has found no fatal marker. */
  function Session(f: Files, status: Status, budget: Option<nat>, world: World): seq<Disk>
    requires Inv(f)
  {
    InvLength(f);
    WorkKeepsInv(f, 0, budget, world);
    var work := Work(f, 0, budget, world);
    var g := LastOf(work.writes, f);
    InvLength(Mended(g));
    WithStatus(work.writes, status) + WithStatus(Mending(g), status) +
      [Disk(Mended(g), ClosingStatus(Mended(g), work.verdict))]
  }

  /** All the states one process writes. */
  function Process(d: Disk, budget: Option<nat>, world: World): seq<Disk>
    requires Inv(d.files)
  {
    var f := Mended(d.files);
    WithStatus(Mending(d.files), d.status)
    + if AnyFatal(f) then [Disk(f, Failed)] else Session(f, d.status, budget, world)
  }

  lemma AttemptWritesKeepInv(f: Files, c: nat, child: Child)
    requires Inv(f) && IsFrontier(f, c) && |f.runs[c]| < MAX_ATTEMPTS
    ensures forall w :: w in AttemptWrites(f, c, child) ==> Inv(w)
    ensures LastOf(AttemptWrites(f, c, child), f) == PutAttempt(f, c, Final(child))
  {
    hide Inv, PutAttempt, Contents;
    var writes := AttemptWrites(f, c, child);
    forall w | w in writes ensures Inv(w) {
      var i :| 0 <= i < |writes| && writes[i] == w;
      PutKeepsInv(f, c, Contents(child)[i]);
    }
  }

  /** Every written state is orderly, receipts stay full, and a finished loop has accepted every case. */
  ghost predicate Keeps(f: Files, work: Outcome) {
    var g := LastOf(work.writes, f);
    && (forall w :: w in work.writes ==> Inv(w))
    && Inv(g)
    && (ReceiptsFull(f) ==> ReceiptsFull(g))
    && (work.verdict == Finished ==> forall c :: 0 <= c < CASES ==> HasPass(g.runs[c]))
  }

  lemma KeepsThen(f: Files, writes: seq<Files>, g: Files, rest: Outcome)
    requires (forall w :: w in writes ==> Inv(w)) && LastOf(writes, f) == g && Keeps(g, rest)
    requires ReceiptsFull(f) ==> ReceiptsFull(g)
    ensures Keeps(f, Then(writes, rest))
  {
    hide Inv, ReceiptsFull, HasPass;
    LastOfTwo(writes, rest.writes, f);
    hide LastOf;
  }

  lemma {:induction false} WorkKeepsInv(f: Files, c: nat, budget: Option<nat>, world: World)
    requires Inv(f) && c <= CASES && AcceptedBelow(f, c)
    ensures Keeps(f, Work(f, c, budget, world))
    decreases Remaining(f.runs), CASES - c
  {
    hide Inv, HasPass, TakeTurn, Remaining;
    InvLength(f);
    if c == CASES {
    } else if HasPass(f.runs[c]) {
      hide Keeps;
      WorkKeepsInv(f, c + 1, budget, world);
    } else if |f.runs[c]| < MAX_ATTEMPTS && budget != Some(0) {
      hide Keeps, LastOf, ReceiptsFull, Then;
      var turn := TakeTurn(f, c, world(c, |f.runs[c]| + 1));
      TurnFacts(f, c, world(c, |f.runs[c]| + 1));
      if turn.fatal {
        KeepsNothing(turn.files);
        KeepsThen(f, turn.writes, turn.files, Outcome([], FatalAttempt));
        ThenNothing(turn.writes, FatalAttempt);
      } else {
        WorkKeepsInv(turn.files, turn.next, Less(budget), world);
        KeepsThen(f, turn.writes, turn.files, Work(turn.files, turn.next, Less(budget), world));
      }
    }
  }

  lemma KeepsNothing(f: Files)
    requires Inv(f)
    ensures Keeps(f, Outcome([], FatalAttempt))
  {
  }

  lemma ThenNothing(writes: seq<Files>, verdict: Verdict)
    ensures Then(writes, Outcome([], verdict)) == Outcome(writes, verdict)
  {
  }

  lemma PutKeepsFull(f: Files, c: nat, content: Attempt)
    requires Inv(f) && IsFrontier(f, c) && |f.runs[c]| < MAX_ATTEMPTS && !Passed(content)
    ensures ReceiptsFull(f) ==> ReceiptsFull(PutAttempt(f, c, content))
  {
  }

  lemma AcceptKeepsFull(f: Files, c: nat, child: Child)
    requires Inv(f) && IsFrontier(f, c) && |f.runs[c]| < MAX_ATTEMPTS && Passed(Final(child))
    ensures var g := PutAttempt(f, c, Final(child));
      |g.runs[c]| in g.runs[c] && (ReceiptsFull(f) ==> ReceiptsFull(WithReceipt(g, c, |g.runs[c]|)))
  {
  }
}
