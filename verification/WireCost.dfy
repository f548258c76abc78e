/** Epoch alignment and wire-cost accounting of one packet capture. */
module WireCost {
  import opened Prelude

  /** What the frame map keeps of one RTPS frame between board and host. */
  datatype Frame = Frame(
    time: real, source: string, guid: string, frameLen: nat, udpLen: nat,
    forward: bool, reply: bool, hasData: bool, hasHeartbeat: bool, hasAckNack: bool)

  /** Frames, wire bytes and UDP bytes of a list of frames. */
  datatype Cost = Cost(frames: nat, wireBytes: nat, udpBytes: nat) {
    function Plus(c: Cost): Cost {
      Cost(frames + c.frames, wireBytes + c.wireBytes, udpBytes + c.udpBytes)
    }
  }

  function CostOf(fs: seq<Frame>): Cost {
    if fs == [] then Cost(0, 0, 0)
    else Cost(1, fs[0].frameLen, fs[0].udpLen).Plus(CostOf(fs[1..]))
  }

  function CostWhere(fs: seq<Frame>, p: Frame -> bool): Cost {
    CostOf(Filter(fs, p))
  }

  datatype Outcome =
    | NoFrames
    | NoEpoch
    | NoTargetFrames
    | Measured(
        guid: string, detectedStart: real, start: real, epochs: nat, selected: seq<Frame>, span: real,
        pair: Cost, boardToHost: Cost, hostToBoard: Cost,
        target: Cost, forward: Cost, reply: Cost, data: Cost, controlOnly: Cost, mixed: Cost)

  // ---------- epochs ----------

  /** A DATA frame the board sent on the target endpoint, which dates its GUID. */
  predicate DatesEpoch(f: Frame, boardIp: string) {
    f.source == boardIp && f.forward && f.hasData && f.guid != ""
  }

  /** t is the time of the first target DATA of a GUID. */
  ghost predicate IsFirstData(t: real, guid: string, frames: seq<Frame>, boardIp: string) {
    && (exists f :: f in frames && DatesEpoch(f, boardIp) && f.guid == guid && f.time == t)
    && forall f :: f in frames && DatesEpoch(f, boardIp) && f.guid == guid ==> t <= f.time
  }

  /** The GUIDs with target DATA, in the order in which they are first seen. */
  function FirstSeen(frames: seq<Frame>, boardIp: string): seq<string> {
    if frames == [] then []
    else
      var n := |frames| - 1;
      var before := FirstSeen(frames[..n], boardIp);
      if DatesEpoch(frames[n], boardIp) && frames[n].guid !in before then before + [frames[n].guid] else before
  }

  function EpochGuids(frames: seq<Frame>, boardIp: string): set<string> {
    set f | f in frames && DatesEpoch(f, boardIp) :: f.guid
  }

  /** first_target_data_by_guid, with its keys in insertion order. */
  method FirstDataByGuid(frames: seq<Frame>, boardIp: string) returns (first: map<string, real>, guids: seq<string>)
    ensures forall g :: g in guids <==> g in first
    ensures forall g :: g in first ==> IsFirstData(first[g], g, frames, boardIp)
    ensures forall f :: f in frames && DatesEpoch(f, boardIp) ==> f.guid in first
    ensures guids == FirstSeen(frames, boardIp)
  {
    first, guids := map[], [];
    for i := 0 to |frames|
      invariant guids == FirstSeen(frames[..i], boardIp)
      invariant forall g :: g in guids <==> g in first
      invariant forall g :: g in first ==> IsFirstData(first[g], g, frames[..i], boardIp)
      invariant forall f :: f in frames[..i] && DatesEpoch(f, boardIp) ==> f.guid in first
    {
      var f := frames[i];
      assert frames[..i + 1] == frames[..i] + [f] && frames[..i + 1][..i] == frames[..i];
      if DatesEpoch(f, boardIp) {
        var t := if f.guid in first then Min(first[f.guid], f.time) else f.time;
        FirstDataStep(first, f, t, frames[..i], boardIp);
        if f.guid !in first {
          guids := guids + [f.guid];
        }
        first := first[f.guid := t];
      } else {
        OtherFrameStep(first, f, frames[..i], boardIp);
      }
    }
    assert frames[..|frames|] == frames;
  }

  lemma FirstDataStep(first: map<string, real>, f: Frame, t: real, frames: seq<Frame>, boardIp: string)
    requires DatesEpoch(f, boardIp)
    requires forall g :: g in first ==> IsFirstData(first[g], g, frames, boardIp)
    requires forall e :: e in frames && DatesEpoch(e, boardIp) ==> e.guid in first
    requires t == if f.guid in first then Min(first[f.guid], f.time) else f.time
    ensures var after := first[f.guid := t];
      forall g :: g in after ==> IsFirstData(after[g], g, frames + [f], boardIp)
  {
  }

  lemma OtherFrameStep(first: map<string, real>, f: Frame, frames: seq<Frame>, boardIp: string)
    requires !DatesEpoch(f, boardIp)
    requires forall g :: g in first ==> IsFirstData(first[g], g, frames, boardIp)
    ensures forall g :: g in first ==> IsFirstData(first[g], g, frames + [f], boardIp)
  {
  }

  /** max over the items by time; the earliest inserted of equal ones wins. */
  method NewestEpoch(first: map<string, real>, guids: seq<string>) returns (guid: string)
    requires guids != [] && forall g :: g in guids <==> g in first
    ensures guid in first && forall g :: g in first ==> first[g] <= first[guid]
    ensures exists k :: 0 <= k < |guids| && guids[k] == guid && forall j :: 0 <= j < k ==> first[guids[j]] < first[guid]
  {
    guid := guids[0];
    ghost var at := 0;
    for i := 1 to |guids|
      invariant 0 <= at < i && guids[at] == guid && guid in first
      invariant forall j :: 0 <= j < at ==> guids[j] in first && first[guids[j]] < first[guid]
      invariant forall j :: 0 <= j < i ==> guids[j] in first && first[guids[j]] <= first[guid]
    {
      assert guids[i] in guids;
      if first[guids[i]] > first[guid] {
        guid, at := guids[i], i;
      }
    }
  }

  /** The GUID whose first target DATA is no earlier than that of any other; the first seen of equal ones. */
  ghost predicate IsNewestEpoch(guid: string, start: real, frames: seq<Frame>, boardIp: string) {
    && IsFirstData(start, guid, frames, boardIp)
    && (forall f :: f in frames && DatesEpoch(f, boardIp) ==> HasEpochUpTo(start, f.guid, frames, boardIp))
    && IsFirstSeen(guid, start, frames, boardIp)
  }

  ghost predicate IsFirstSeen(guid: string, start: real, frames: seq<Frame>, boardIp: string) {
    var seen := FirstSeen(frames, boardIp);
    exists k :: 0 <= k < |seen| && seen[k] == guid &&
      forall j :: 0 <= j < k ==> HasEpochBefore(start, seen[j], frames, boardIp)
  }

  ghost predicate HasEpochBefore(start: real, guid: string, frames: seq<Frame>, boardIp: string) {
    exists t :: IsFirstData(t, guid, frames, boardIp) && t < start
  }

  ghost predicate HasEpochUpTo(start: real, guid: string, frames: seq<Frame>, boardIp: string) {
    exists t :: IsFirstData(t, guid, frames, boardIp) && t <= start
  }

  datatype Alignment = NotAligned | Aligned(guid: string, start: real, epochs: nat)

  method DetectStart(frames: seq<Frame>, boardIp: string) returns (r: Alignment)
    ensures r.NotAligned? <==> forall f :: f in frames ==> !DatesEpoch(f, boardIp)
    ensures r.Aligned? ==> IsNewestEpoch(r.guid, r.start, frames, boardIp) && r.epochs == |EpochGuids(frames, boardIp)|
  {
    hide IsFirstData, FirstSeen;
    var first, guids := FirstDataByGuid(frames, boardIp);
    if guids == [] {
      assert forall g :: g !in guids;
      return NotAligned;
    }
    var guid := NewestEpoch(first, guids);
    HasDatingFrame(first[guid], guid, frames, boardIp);
    forall f | f in frames && DatesEpoch(f, boardIp) ensures HasEpochUpTo(first[guid], f.guid, frames, boardIp) {
      assert IsFirstData(first[f.guid], f.guid, frames, boardIp);
    }
    NewestIsFirstSeen(guid, first, guids, frames, boardIp);
    KeysAreEpochs(first, frames, boardIp);
    r := Aligned(guid, first[guid], |first|);
  }

  /** All GUIDs before the k-th have an earlier first DATA. */
  ghost predicate IsFirstLatest(first: map<string, real>, guids: seq<string>, k: nat)
    requires k < |guids| && guids[k] in first
  {
    forall j :: 0 <= j < k ==> guids[j] in first && first[guids[j]] < first[guids[k]]
  }

  lemma {:induction false} NewestIsFirstSeen(guid: string, first: map<string, real>, guids: seq<string>,
                                             frames: seq<Frame>, boardIp: string)
    requires guid in first && guids == FirstSeen(frames, boardIp) && forall g :: g in guids <==> g in first
    requires forall g :: g in first ==> IsFirstData(first[g], g, frames, boardIp)
    requires exists k :: 0 <= k < |guids| && guids[k] == guid && IsFirstLatest(first, guids, k)
    ensures IsFirstSeen(guid, first[guid], frames, boardIp)
  {
  }

  lemma KeysAreEpochs(first: map<string, real>, frames: seq<Frame>, boardIp: string)
    requires forall g :: g in first ==> IsFirstData(first[g], g, frames, boardIp)
    requires forall f :: f in frames && DatesEpoch(f, boardIp) ==> f.guid in first
    ensures |first| == |EpochGuids(frames, boardIp)|
  {
    forall g ensures g in first.Keys <==> g in EpochGuids(frames, boardIp) {
    }
    assert first.Keys == EpochGuids(frames, boardIp);
  }

  lemma HasDatingFrame(t: real, guid: string, frames: seq<Frame>, boardIp: string)
    requires IsFirstData(t, guid, frames, boardIp)
    ensures exists f :: f in frames && DatesEpoch(f, boardIp) && f.time == t
  {
  }

  // ---------- accounting ----------

  function AtOrAfter(start: real): Frame -> bool {
    (f: Frame) => f.time >= start
  }

  function SentBy(ip: string): Frame -> bool {
    (f: Frame) => f.source == ip
  }

  predicate IsTarget(f: Frame) { f.forward || f.reply }

  predicate IsForward(f: Frame) { f.forward }

  predicate IsReply(f: Frame) { f.reply }

  predicate IsData(f: Frame) { f.hasData }

  predicate IsControlOnly(f: Frame) { !f.hasData && (f.hasHeartbeat || f.hasAckNack) }

  predicate IsMixed(f: Frame) { f.hasData && (f.hasHeartbeat || f.hasAckNack) }

  predicate IsBoth(f: Frame) { f.forward && f.reply }

  predicate IsNeither(f: Frame) { !f.hasData && !f.hasHeartbeat && !f.hasAckNack }

  /** Every reported cost is the cost of its own category among the selected frames. */
  predicate Accounts(r: Outcome, boardIp: string, hostIp: string)
    requires r.Measured?
  {
    var target := Filter(r.selected, IsTarget);
    && r.pair == CostOf(r.selected)
    && r.boardToHost == CostWhere(r.selected, SentBy(boardIp)) && r.hostToBoard == CostWhere(r.selected, SentBy(hostIp))
    && r.target == CostOf(target)
    && r.forward == CostWhere(target, IsForward) && r.reply == CostWhere(target, IsReply)
    && r.data == CostWhere(target, IsData)
    && r.controlOnly == CostWhere(target, IsControlOnly) && r.mixed == CostWhere(target, IsMixed)
  }

  function Earliest(fs: seq<Frame>): (t: real)
    requires fs != []
    ensures (exists f :: f in fs && f.time == t) && forall f :: f in fs ==> t <= f.time
  {
    if |fs| == 1 then assert fs[0] in fs; fs[0].time else
      var t := Earliest(fs[1..]);
      assert fs == [fs[0]] + fs[1..];
      Min(fs[0].time, t)
  }

  function Latest(fs: seq<Frame>): (t: real)
    requires fs != []
    ensures (exists f :: f in fs && f.time == t) && forall f :: f in fs ==> f.time <= t
  {
    if |fs| == 1 then assert fs[0] in fs; fs[0].time else
      var t := Latest(fs[1..]);
      assert fs == [fs[0]] + fs[1..];
      Max(fs[0].time, t)
  }

  /** measurement_span_s. */
  function Span(fs: seq<Frame>): real {
    if |fs| > 1 then Latest(fs) - Earliest(fs) else 0.0
  }

  /** The least time that covers all the frames. */
  ghost predicate IsSpan(fs: seq<Frame>, span: real) {
    && (forall f, g :: f in fs && g in fs ==> g.time - f.time <= span)
    && (if fs == [] then span == 0.0 else exists f, g :: f in fs && g in fs && g.time - f.time == span)
  }

  lemma SpanIsSpan(fs: seq<Frame>)
    ensures IsSpan(fs, Span(fs))
  {
    if |fs| == 1 {
      assert fs[0] in fs && fs[0].time - fs[0].time == Span(fs);
    }
  }

  lemma {:induction false} FramesCounted(fs: seq<Frame>)
    ensures CostOf(fs).frames == |fs|
  {
    if fs != [] {
      FramesCounted(fs[1..]);
    }
  }

  /** No target frame at or after the given time. */
  predicate NoneFrom(frames: seq<Frame>, start: real) {
    forall f :: f in frames && IsTarget(f) ==> f.time < start
  }

  lemma {:induction false} NothingSelected(frames: seq<Frame>, start: real)
    ensures Filter(Filter(frames, AtOrAfter(start)), IsTarget) == [] <==> NoneFrom(frames, start)
  {
    hide Filter;
    var target := Filter(Filter(frames, AtOrAfter(start)), IsTarget);
    if target != [] {
      assert target[0] in target;
    }
    forall f | f in frames && IsTarget(f) && f.time >= start ensures f in target {
      assert f in Filter(frames, AtOrAfter(start));
    }
  }

  /** DATA on the forward endpoint, sent by the board under a known GUID. */
  predicate IsBoardData(f: Frame, boardIp: string, guid: string) {
    f.source == boardIp && f.forward && f.hasData && f.guid == guid && guid != ""
  }

  /** All board DATA of the GUID is at or after this time. */
  ghost predicate StartsFrom(guid: string, start: real, frames: seq<Frame>, boardIp: string) {
    forall f :: f in frames && IsBoardData(f, boardIp, guid) ==> start <= f.time
  }

  /**
   * The first board DATA of its GUID; no GUID has its first board DATA later, and among those with it at the same
   * time no other is captured before this one.
   */
  ghost predicate IsLatestStart(guid: string, start: real, frames: seq<Frame>, boardIp: string) {
    && (exists f :: f in frames && IsBoardData(f, boardIp, guid) && f.time == start)
    && StartsFrom(guid, start, frames, boardIp)
    && (forall j, other :: 0 <= j < |frames| && IsBoardData(frames[j], boardIp, other) ==>
          StartsFrom(other, start, frames, boardIp) ==> IsCaptured(guid, frames[..j + 1], boardIp))
    && (forall f, other :: f in frames && IsBoardData(f, boardIp, other) ==>
          exists g :: g in frames && IsBoardData(g, boardIp, other) && g.time <= start)
  }

  ghost predicate IsCaptured(guid: string, frames: seq<Frame>, boardIp: string) {
    exists f :: f in frames && IsBoardData(f, boardIp, guid)
  }

  lemma {:induction false} FirstSeenAreCaptured(frames: seq<Frame>, boardIp: string)
    ensures forall guid :: guid in FirstSeen(frames, boardIp) <==> IsCaptured(guid, frames, boardIp)
  {
    if frames != [] {
      var n := |frames| - 1;
      FirstSeenAreCaptured(frames[..n], boardIp);
      assert frames == frames[..n] + [frames[n]];
      forall guid ensures guid in FirstSeen(frames, boardIp) <==> IsCaptured(guid, frames, boardIp) {
        assert IsCaptured(guid, frames, boardIp)
          <==> IsCaptured(guid, frames[..n], boardIp) || IsBoardData(frames[n], boardIp, guid);
      }
    }
  }

  lemma {:induction false} FirstSeenPrefix(frames: seq<Frame>, boardIp: string, n: nat)
    requires n <= |frames|
    ensures FirstSeen(frames[..n], boardIp) <= FirstSeen(frames, boardIp)
  {
    if n < |frames| {
      var m := |frames| - 1;
      FirstSeenPrefix(frames[..m], boardIp, n);
      assert frames[..m][..n] == frames[..n];
    } else {
      assert frames[..n] == frames;
    }
  }

  lemma FirstSeenIsEarliest(guid: string, start: real, frames: seq<Frame>, boardIp: string, j: nat, other: string)
    requires IsFirstSeen(guid, start, frames, boardIp) && j < |frames|
    requires IsBoardData(frames[j], boardIp, other) && StartsFrom(other, start, frames, boardIp)
    ensures IsCaptured(guid, frames[..j + 1], boardIp)
  {
    hide FirstSeen;
    var seen, early := FirstSeen(frames, boardIp), FirstSeen(frames[..j + 1], boardIp);
    FirstSeenPrefix(frames, boardIp, j + 1);
    FirstSeenAreCaptured(frames[..j + 1], boardIp);
    assert frames[..j + 1][j] == frames[j] && frames[j] in frames[..j + 1];
    assert IsCaptured(other, frames[..j + 1], boardIp);
    var m :| 0 <= m < |early| && early[m] == other;
    var k :| 0 <= k < |seen| && seen[k] == guid &&
      forall i :: 0 <= i < k ==> HasEpochBefore(start, seen[i], frames, boardIp);
    if m < k {
      assert seen[m] == other && HasEpochBefore(start, seen[m], frames, boardIp);
      StartsNotBefore(other, start, frames, boardIp);
    } else {
      assert early[k] == guid && guid in early;
    }
  }

  lemma StartsNotBefore(guid: string, start: real, frames: seq<Frame>, boardIp: string)
    requires StartsFrom(guid, start, frames, boardIp)
    requires guid != ""
    ensures !HasEpochBefore(start, guid, frames, boardIp)
  {
  }

  lemma NoBoardData(frames: seq<Frame>, boardIp: string)
    ensures (forall f :: f in frames ==> !DatesEpoch(f, boardIp))
      <==> (forall f, guid :: f in frames ==> !IsBoardData(f, boardIp, guid))
  {
    forall f | f in frames && DatesEpoch(f, boardIp) ensures IsBoardData(f, boardIp, f.guid) {
    }
  }

  lemma NewestIsLatest(guid: string, start: real, frames: seq<Frame>, boardIp: string)
    requires IsNewestEpoch(guid, start, frames, boardIp)
    ensures IsLatestStart(guid, start, frames, boardIp)
  {
    hide FirstSeen, IsFirstSeen;
    forall j, other | 0 <= j < |frames| && IsBoardData(frames[j], boardIp, other) &&
                      StartsFrom(other, start, frames, boardIp)
      ensures IsCaptured(guid, frames[..j + 1], boardIp)
    {
      FirstSeenIsEarliest(guid, start, frames, boardIp, j, other);
    }
    forall f, other | f in frames && IsBoardData(f, boardIp, other)
      ensures exists g :: g in frames && IsBoardData(g, boardIp, other) && g.time <= start
    {
      assert HasEpochUpTo(start, f.guid, frames, boardIp);
      var t :| IsFirstData(t, f.guid, frames, boardIp) && t <= start;
      var g :| g in frames && DatesEpoch(g, boardIp) && g.guid == f.guid && g.time == t;
      assert IsBoardData(g, boardIp, other);
    }
    var f :| f in frames && DatesEpoch(f, boardIp) && f.guid == guid && f.time == start;
    assert IsBoardData(f, boardIp, guid);
  }

  method AnalyzePcap(frames: seq<Frame>, boardIp: string, hostIp: string, override: Option<real>) returns (r: Outcome)
    ensures r.NoFrames? <==> frames == []
    ensures r.NoEpoch? <==> frames != [] && forall f :: f in frames ==> !DatesEpoch(f, boardIp)
    ensures r.NoTargetFrames? <==> !r.NoFrames? && !r.NoEpoch? && override.Some? && NoneFrom(frames, override.value)
    ensures r.Measured? ==> IsNewestEpoch(r.guid, r.detectedStart, frames, boardIp)
    ensures r.NoEpoch? <==> frames != [] && forall f, guid :: f in frames ==> !IsBoardData(f, boardIp, guid)
    ensures r.Measured? ==> IsLatestStart(r.guid, r.detectedStart, frames, boardIp)
    ensures r.Measured? ==> r.epochs == |EpochGuids(frames, boardIp)|
    ensures r.Measured? ==> IsSpan(r.selected, r.span)
    ensures r.Measured? ==> r.pair.frames == |r.selected| && r.target.frames == |Filter(r.selected, IsTarget)| > 0
    ensures r.Measured? ==> r.start == if override.Some? then override.value else r.detectedStart
    ensures r.Measured? ==> r.selected == Filter(frames, AtOrAfter(r.start)) && Accounts(r, boardIp, hostIp)
    ensures r.Measured? ==> ReportsTotals(r, frames, boardIp, hostIp)
  {
    hide Filter, IsFirstData, CostOf, IsNewestEpoch, Span, IsSpan, ReportsTotals, IsLatestStart, DatesEpoch,
         IsBoardData;
    if frames == [] {
      return NoFrames;
    }
    NoBoardData(frames, boardIp);
    var epoch := DetectStart(frames, boardIp);
    if epoch.NotAligned? {
      return NoEpoch;
    }
    NewestIsLatest(epoch.guid, epoch.start, frames, boardIp);
    var start := if override.Some? then override.value else epoch.start;
    var selected := Filter(frames, AtOrAfter(start));
    var target := Filter(selected, IsTarget);
    EpochStartIsKept(epoch.guid, epoch.start, frames, boardIp, start);
    NothingSelected(frames, start);
    if target == [] {
      return NoTargetFrames;
    }
    FramesCounted(selected);
    FramesCounted(target);
    SpanIsSpan(selected);
    r := Measured(
      epoch.guid, epoch.start, start, epoch.epochs, selected, Span(selected),
      CostOf(selected), CostWhere(selected, SentBy(boardIp)), CostWhere(selected, SentBy(hostIp)),
      CostOf(target), CostWhere(target, IsForward), CostWhere(target, IsReply),
      CostWhere(target, IsData), CostWhere(target, IsControlOnly), CostWhere(target, IsMixed));
    CostsAreTotals(r, frames, boardIp, hostIp);
  }

  lemma {:induction false} EpochStartIsKept(guid: string, detected: real, frames: seq<Frame>, boardIp: string,
                                            start: real)
    requires IsNewestEpoch(guid, detected, frames, boardIp)
    ensures exists f :: f in frames && DatesEpoch(f, boardIp)
    ensures start <= detected ==> exists f :: f in Filter(Filter(frames, AtOrAfter(start)), IsTarget) && f.guid == guid
    ensures forall f :: f in frames && IsTarget(f) && f.time >= start ==>
        f in Filter(Filter(frames, AtOrAfter(start)), IsTarget)
  {
  }

  /** Without an override nothing of the newest epoch is lost. */
  lemma {:induction false} NewestEpochIsKept(guid: string, start: real, frames: seq<Frame>, boardIp: string)
    requires IsNewestEpoch(guid, start, frames, boardIp)
    ensures forall f :: f in frames && DatesEpoch(f, boardIp) && f.guid == guid ==>
      f in Filter(Filter(frames, AtOrAfter(start)), IsTarget)
  {
  }

  // ---------- conservation ----------

  lemma {:induction false} InclusionExclusion(fs: seq<Frame>, p: Frame -> bool, q: Frame -> bool, either: Frame -> bool,
                                              both: Frame -> bool)
    requires forall f :: f in fs ==> either(f) == (p(f) || q(f)) && both(f) == (p(f) && q(f))
    ensures CostWhere(fs, p).Plus(CostWhere(fs, q)) == CostWhere(fs, either).Plus(CostWhere(fs, both))
  {
    if fs != [] {
      hide CostWhere, Single, Cost.Plus;
      var f, rest := fs[0], fs[1..];
      assert f in fs;
      InclusionExclusion(rest, p, q, either, both);
      CostHead(fs, p);
      CostHead(fs, q);
      CostHead(fs, either);
      CostHead(fs, both);
      SingleSplit(f, p(f), q(f));
      Regroup(Single(f, p(f)), Single(f, q(f)), Single(f, either(f)), Single(f, both(f)),
              CostWhere(rest, p), CostWhere(rest, q), CostWhere(rest, either), CostWhere(rest, both));
    }
  }

  function Single(f: Frame, counted: bool): Cost {
    if counted then Cost(1, f.frameLen, f.udpLen) else Cost(0, 0, 0)
  }

  lemma SingleSplit(f: Frame, a: bool, b: bool)
    ensures Single(f, a).Plus(Single(f, b)) == Single(f, a || b).Plus(Single(f, a && b))
  {
  }

  lemma Regroup(a: Cost, b: Cost, c: Cost, d: Cost, a': Cost, b': Cost, c': Cost, d': Cost)
    requires a.Plus(b) == c.Plus(d) && a'.Plus(b') == c'.Plus(d')
    ensures a.Plus(a').Plus(b.Plus(b')) == c.Plus(c').Plus(d.Plus(d'))
  {
  }

  lemma CostHead(fs: seq<Frame>, p: Frame -> bool)
    requires fs != []
    ensures CostWhere(fs, p) == Single(fs[0], p(fs[0])).Plus(CostWhere(fs[1..], p))
  {
    if p(fs[0]) {
      assert Filter(fs, p)[1..] == Filter(fs[1..], p);
    } else {
      assert Filter(fs, p) == Filter(fs[1..], p);
    }
  }

  lemma {:induction false} CostOfAll(fs: seq<Frame>, p: Frame -> bool)
    requires forall f :: f in fs ==> p(f)
    ensures CostWhere(fs, p) == CostOf(fs)
  {
    if fs != [] {
      assert fs[0] in fs;
      CostHead(fs, p);
      CostOfAll(fs[1..], p);
    }
  }

  lemma {:induction false} CostOfNone(fs: seq<Frame>, p: Frame -> bool)
    requires forall f :: f in fs ==> !p(f)
    ensures CostWhere(fs, p) == Cost(0, 0, 0)
  {
    if fs != [] {
      assert fs[0] in fs;
      CostHead(fs, p);
      CostOfNone(fs[1..], p);
    }
  }

  // ---------- every cost as a plain total over the capture ----------

  function Total(fs: seq<Frame>, weight: Frame -> nat): nat {
    if fs == [] then 0 else weight(fs[0]) + Total(fs[1..], weight)
  }

  /** The size of the counted frames, and nothing for the others. */
  function Counted(counts: Frame -> bool, size: Frame -> nat): Frame -> nat {
    (f: Frame) => if counts(f) then size(f) else 0
  }

  function OneFrame(f: Frame): nat { 1 }

  function WireBytes(f: Frame): nat { f.frameLen }

  function UdpBytes(f: Frame): nat { f.udpLen }

  /** Frames, wire bytes and UDP bytes of the counted frames, added up over the whole list. */
  predicate IsTotal(cost: Cost, fs: seq<Frame>, counts: Frame -> bool) {
    && cost.frames == Total(fs, Counted(counts, OneFrame))
    && cost.wireBytes == Total(fs, Counted(counts, WireBytes))
    && cost.udpBytes == Total(fs, Counted(counts, UdpBytes))
  }

  lemma {:induction false} TotalHead(fs: seq<Frame>, counts: Frame -> bool, size: Frame -> nat)
    requires fs != []
    ensures Total(fs, Counted(counts, size)) ==
        (if counts(fs[0]) then size(fs[0]) else 0) + Total(fs[1..], Counted(counts, size))
  {
  }

  lemma {:induction false} CostIsTotal(fs: seq<Frame>, p: Frame -> bool)
    ensures IsTotal(CostWhere(fs, p), fs, p)
  {
    if fs != [] {
      CostIsTotal(fs[1..], p);
      hide CostWhere, Counted, Total;
      CostHead(fs, p);
      TotalHead(fs, p, OneFrame);
      TotalHead(fs, p, WireBytes);
      TotalHead(fs, p, UdpBytes);
    }
  }

  lemma {:induction false} FilterTwice(fs: seq<Frame>, p: Frame -> bool, q: Frame -> bool, both: Frame -> bool)
    requires forall f :: both(f) == (p(f) && q(f))
    ensures Filter(Filter(fs, p), q) == Filter(fs, both)
  {
    if fs != [] {
      FilterTwice(fs[1..], p, q, both);
      var head := if p(fs[0]) then [fs[0]] else [];
      assert Filter(head, q) == if both(fs[0]) then [fs[0]] else [];
      hide Filter;
      FilterHead(fs, p);
      FilterHead(fs, both);
      FilterConcat(head, Filter(fs[1..], p), q);
    }
  }

  /** The cost of a category of the frames from the start on. */
  lemma {:induction false} SelectedTotal(frames: seq<Frame>, start: real, p: Frame -> bool, counts: Frame -> bool)
    requires forall f :: counts(f) == (f.time >= start && p(f))
    ensures IsTotal(CostWhere(Filter(frames, AtOrAfter(start)), p), frames, counts)
  {
    hide Filter, IsTotal;
    FilterTwice(frames, AtOrAfter(start), p, counts);
    CostIsTotal(frames, counts);
  }

  lemma {:induction false} TargetTotal(frames: seq<Frame>, start: real, p: Frame -> bool, counts: Frame -> bool)
    requires forall f :: counts(f) == (f.time >= start && (f.forward || f.reply) && p(f))
    ensures IsTotal(CostWhere(Filter(Filter(frames, AtOrAfter(start)), IsTarget), p), frames, counts)
  {
    hide Filter, IsTotal;
    var target := (f: Frame) => f.time >= start && (f.forward || f.reply);
    FilterTwice(frames, AtOrAfter(start), IsTarget, target);
    FilterTwice(frames, target, p, counts);
    CostIsTotal(frames, counts);
  }

  /** What each figure of the report adds up, frame by frame over the whole capture. */
  predicate ReportsTotals(r: Outcome, frames: seq<Frame>, boardIp: string, hostIp: string)
    requires r.Measured?
  {
    var t0 := r.start;
    && IsTotal(r.pair, frames, (f: Frame) => f.time >= t0)
    && IsTotal(r.boardToHost, frames, (f: Frame) => f.time >= t0 && f.source == boardIp)
    && IsTotal(r.hostToBoard, frames, (f: Frame) => f.time >= t0 && f.source == hostIp)
    && IsTotal(r.target, frames, (f: Frame) => f.time >= t0 && (f.forward || f.reply))
    && IsTotal(r.forward, frames, (f: Frame) => f.time >= t0 && f.forward)
    && IsTotal(r.reply, frames, (f: Frame) => f.time >= t0 && f.reply)
    && IsTotal(r.data, frames, (f: Frame) => f.time >= t0 && (f.forward || f.reply) && f.hasData)
    && IsTotal(r.controlOnly, frames, (f: Frame) =>
         f.time >= t0 && (f.forward || f.reply) && !f.hasData && (f.hasHeartbeat || f.hasAckNack))
    && IsTotal(r.mixed, frames, (f: Frame) =>
         f.time >= t0 && (f.forward || f.reply) && f.hasData && (f.hasHeartbeat || f.hasAckNack))
  }

  lemma {:induction false} CostsAreTotals(r: Outcome, frames: seq<Frame>, boardIp: string, hostIp: string)
    requires r.Measured? && r.selected == Filter(frames, AtOrAfter(r.start)) && Accounts(r, boardIp, hostIp)
    ensures ReportsTotals(r, frames, boardIp, hostIp)
  {
    hide Filter, CostWhere, CostOf, IsTotal;
    var t0, target := r.start, Filter(r.selected, IsTarget);
    CostOfAll(r.selected, Always);
    CostOfAll(target, Always);
    SelectedTotal(frames, t0, Always, (f: Frame) => f.time >= t0);
    SelectedTotal(frames, t0, SentBy(boardIp), (f: Frame) => f.time >= t0 && f.source == boardIp);
    SelectedTotal(frames, t0, SentBy(hostIp), (f: Frame) => f.time >= t0 && f.source == hostIp);
    TargetTotal(frames, t0, Always, (f: Frame) => f.time >= t0 && (f.forward || f.reply));
    TargetTotal(frames, t0, IsForward, (f: Frame) => f.time >= t0 && f.forward);
    TargetTotal(frames, t0, IsReply, (f: Frame) => f.time >= t0 && f.reply);
    TargetTotal(frames, t0, IsData, (f: Frame) => f.time >= t0 && (f.forward || f.reply) && f.hasData);
    TargetTotal(frames, t0, IsControlOnly, (f: Frame) =>
      f.time >= t0 && (f.forward || f.reply) && !f.hasData && (f.hasHeartbeat || f.hasAckNack));
    TargetTotal(frames, t0, IsMixed, (f: Frame) =>
      f.time >= t0 && (f.forward || f.reply) && f.hasData && (f.hasHeartbeat || f.hasAckNack));
  }

  predicate Always(f: Frame) { true }

  predicate Never(f: Frame) { false }

  predicate IsDataOrControl(f: Frame) { f.hasData || f.hasHeartbeat || f.hasAckNack }

  /** Target frames, bytes and datagrams split over endpoints and over contents without loss. */
  lemma TargetIsConserved(r: Outcome, boardIp: string, hostIp: string)
    requires r.Measured? && Accounts(r, boardIp, hostIp)
    ensures var target := Filter(r.selected, IsTarget);
      && r.forward.Plus(r.reply) == r.target.Plus(CostWhere(target, IsBoth))
      && r.target == r.data.Plus(r.controlOnly).Plus(CostWhere(target, IsNeither))
  {
    hide CostWhere, CostOf;
    var target := Filter(r.selected, IsTarget);
    InclusionExclusion(target, IsForward, IsReply, Always, IsBoth);
    CostOfAll(target, Always);
    InclusionExclusion(target, IsData, IsControlOnly, IsDataOrControl, Never);
    InclusionExclusion(target, IsDataOrControl, IsNeither, Always, Never);
    CostOfNone(target, Never);
  }

  /** Target control messages are reported with DATA or without, and nowhere else. */
  lemma ControlIsConserved(r: Outcome, boardIp: string, hostIp: string)
    requires r.Measured? && Accounts(r, boardIp, hostIp)
    ensures r.controlOnly.Plus(r.mixed)
         == CostWhere(Filter(r.selected, IsTarget), (f: Frame) => f.hasHeartbeat || f.hasAckNack)
    ensures r.data == r.mixed.Plus(
      CostWhere(Filter(r.selected, IsTarget), (f: Frame) => f.hasData && !f.hasHeartbeat && !f.hasAckNack))
  {
    hide CostWhere, CostOf;
    var target := Filter(r.selected, IsTarget);
    var control := (f: Frame) => f.hasHeartbeat || f.hasAckNack;
    var plain := (f: Frame) => f.hasData && !f.hasHeartbeat && !f.hasAckNack;
    InclusionExclusion(target, IsControlOnly, IsMixed, control, Never);
    InclusionExclusion(target, IsMixed, plain, IsData, Never);
    CostOfNone(target, Never);
  }

  /** Both directions together are the whole pair exactly when the two addresses differ. */
  lemma PairIsConserved(r: Outcome, boardIp: string, hostIp: string)
    requires r.Measured? && Accounts(r, boardIp, hostIp)
    requires forall f :: f in r.selected ==> f.source == boardIp || f.source == hostIp
    ensures r.pair == r.boardToHost.Plus(r.hostToBoard) <==> boardIp != hostIp || r.selected == []
  {
    hide CostWhere, CostOf, Cost.Plus;
    if boardIp != hostIp {
      DisjointSources(r.selected, boardIp, hostIp);
    } else {
      CostOfAll(r.selected, SentBy(boardIp));
      Doubled(r.selected);
    }
  }

  lemma {:induction false} DisjointSources(fs: seq<Frame>, a: string, b: string)
    requires a != b && forall f :: f in fs ==> f.source == a || f.source == b
    ensures CostOf(fs) == CostWhere(fs, SentBy(a)).Plus(CostWhere(fs, SentBy(b)))
  {
    hide CostWhere, CostOf;
    InclusionExclusion(fs, SentBy(a), SentBy(b), Always, Never);
    CostOfAll(fs, Always);
    CostOfNone(fs, Never);
  }

  lemma {:induction false} Doubled(fs: seq<Frame>)
    ensures CostOf(fs) == CostOf(fs).Plus(CostOf(fs)) <==> fs == []
  {
  }
}
