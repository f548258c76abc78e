/** Heartbeat de-duplication and right-censoring of repair requests. */
module Heartbeats {
  import opened Prelude
  import opened Ordering
  import opened RtpsEvents

  // ---------- greedy de-duplication ----------

  /** The positions kept by the greedy pass over time-ordered heartbeats. */
  function Kept(times: seq<real>, gap: real): (kept: seq<nat>)
    ensures forall i :: 0 <= i < |kept| ==> kept[i] < |times|
  {
    if times == [] then []
    else
      var n: nat := |times| - 1;
      var kept := Kept(times[..n], gap);
      if kept == [] || times[n] - times[kept[|kept| - 1]] >= gap then kept + [n] else kept
  }

  function KeptTimes(times: seq<real>, gap: real): seq<real> {
    var kept := Kept(times, gap);
    seq(|kept|, i requires 0 <= i < |kept| => times[kept[i]])
  }

  /** unique_heartbeats: keep a heartbeat when it comes at least the gap after the last kept one. */
  method Deduplicate(times: seq<real>, gap: real) returns (unique: seq<real>)
    ensures unique == KeptTimes(times, gap)
  {
    unique := [];
    for i := 0 to |times|
      invariant unique == KeptTimes(times[..i], gap)
    {
      assert times[..i + 1][..i] == times[..i];
      if unique == [] || times[i] - unique[|unique| - 1] >= gap {
        unique := unique + [times[i]];
      }
    }
    assert times[..|times|] == times;
  }

  /** Positions in increasing order whose times are pairwise at least the gap apart. */
  ghost predicate Separated(times: seq<real>, positions: set<nat>, gap: real) {
    && (forall i :: i in positions ==> i < |times|)
    && forall i, j :: i in positions && j in positions && i < j ==> times[j] - times[i] >= gap
  }

  lemma {:induction false} KeptIncreasing(times: seq<real>, gap: real)
    ensures var kept := Kept(times, gap);
      && (forall i, j :: 0 <= i < j < |kept| ==> kept[i] < kept[j])
      && (times != [] ==> kept != [] && kept[0] == 0)
  {
    if times != [] {
      KeptIncreasing(times[..|times| - 1], gap);
    }
  }

  /** Kept heartbeats are pairwise at least the gap apart. */
  lemma {:induction false} KeptAreSeparated(times: seq<real>, gap: real)
    requires Increasing(times)
    ensures forall i, j :: 0 <= i < j < |KeptTimes(times, gap)| ==>
      KeptTimes(times, gap)[j] - KeptTimes(times, gap)[i] >= gap
  {
    if times != [] {
      var n := |times| - 1;
      var before, kept := Kept(times[..n], gap), Kept(times, gap);
      KeptAreSeparated(times[..n], gap);
      KeptIncreasing(times[..n], gap);
      forall i, j | 0 <= i < j < |kept| ensures times[kept[j]] - times[kept[i]] >= gap {
        if j == |before| {
          var last := before[|before| - 1];
          assert times[kept[i]] <= times[last];
        } else {
          var early := KeptTimes(times[..n], gap);
          assert early[j] - early[i] >= gap;
        }
      }
    }
  }

  /** The last kept position at or before a position. */
  function KeptBefore(times: seq<real>, gap: real, i: nat): (k: nat)
    requires i < |times|
  {
    var kept := Kept(times[..i + 1], gap);
    if kept == [] then 0 else kept[|kept| - 1]
  }

  lemma {:induction false} KeptPrefix(times: seq<real>, gap: real, n: nat)
    requires n <= |times|
    ensures Kept(times[..n], gap) <= Kept(times, gap)
  {
    if n < |times| {
      var m := |times| - 1;
      KeptPrefix(times[..m], gap, n);
      assert times[..m][..n] == times[..n];
    } else {
      assert times[..n] == times;
    }
  }

  /** A heartbeat is kept itself or follows a kept one by less than the gap. */
  lemma {:induction false} DroppedFollowsKept(times: seq<real>, gap: real, i: nat)
    requires i < |times|
    ensures var k := KeptBefore(times, gap, i);
      && k <= i && k in Kept(times, gap)
      && (k == i || times[i] - times[k] < gap)
      && (i in Kept(times, gap) ==> k == i)
  {
    var upto := Kept(times[..i + 1], gap);
    KeptIncreasing(times[..i + 1], gap);
    KeptPrefix(times, gap, i + 1);
    assert upto[|upto| - 1] == Kept(times, gap)[|upto| - 1];
    assert times[..i + 1][..i] == times[..i];
    if i in Kept(times, gap) {
      KeptIncreasing(times, gap);
      var at: nat :| at < |Kept(times, gap)| && Kept(times, gap)[at] == i;
      if at >= |upto| {
        LaterKept(times, gap, i, at);
      } else {
        assert upto[at] == i;
      }
    }
  }

  lemma {:induction false} LaterKept(times: seq<real>, gap: real, i: nat, at: nat)
    requires i < |times| && |Kept(times[..i + 1], gap)| <= at < |Kept(times, gap)|
    ensures Kept(times, gap)[at] > i
  {
    var m := |times| - 1;
    assert times[..|times|] == times;
    if i < m {
      assert times[..m][..i + 1] == times[..i + 1];
      if at < |Kept(times[..m], gap)| {
        LaterKept(times[..m], gap, i, at);
      }
    }
  }

  /** No set of heartbeats pairwise at least the gap apart is larger than the kept ones. */
  lemma {:induction false} KeptIsLargest(times: seq<real>, gap: real, positions: set<nat>)
    requires Increasing(times) && Separated(times, positions, gap)
    ensures |positions| <= |Kept(times, gap)|
  {
    hide Kept, KeptBefore;
    var kept := Kept(times, gap);
    var cover := (i: nat) => if i < |times| then KeptBefore(times, gap, i) else 0;
    var targets := set k | k in kept;
    forall i | i in positions
      ensures cover(i) in targets && cover(i) <= i && (cover(i) == i || times[i] - times[cover(i)] < gap)
    {
      DroppedFollowsKept(times, gap, i);
    }
    forall i, j | i in positions && j in positions && cover(i) == cover(j) ensures i == j {
      if i < j {
        OneWindow(times, gap, cover(i), i, j);
      } else if j < i {
        OneWindow(times, gap, cover(i), j, i);
      }
    }
    CountInjection(positions, targets, cover);
    ElementsBound(kept, targets);
  }

  lemma OneWindow(times: seq<real>, gap: real, k: nat, i: nat, j: nat)
    requires Increasing(times) && k <= i < j < |times|
    requires k == j || times[j] - times[k] < gap
    ensures times[j] - times[i] < gap
  {
  }

  lemma {:induction false} ElementsBound(xs: seq<nat>, elements: set<nat>)
    requires elements == set x | x in xs
    ensures |elements| <= |xs|
  {
    if xs == [] {
      assert elements == {};
    } else {
      var n := |xs| - 1;
      var front := set x | x in xs[..n];
      ElementsBound(xs[..n], front);
      assert xs == xs[..n] + [xs[n]];
      assert elements == front + {xs[n]};
      assert |front + {xs[n]}| <= |front| + 1;
    }
  }

  /** De-duplicating again changes nothing. */
  lemma DeduplicationIsIdempotent(times: seq<real>, gap: real)
    requires Increasing(times)
    ensures KeptTimes(KeptTimes(times, gap), gap) == KeptTimes(times, gap)
  {
    KeptAreSeparated(times, gap);
    SeparatedIsKept(KeptTimes(times, gap), gap);
  }

  lemma {:induction false} SeparatedIsKept(times: seq<real>, gap: real)
    requires forall i, j :: 0 <= i < j < |times| ==> times[j] - times[i] >= gap
    ensures |Kept(times, gap)| == |times| && forall i :: 0 <= i < |times| ==> Kept(times, gap)[i] == i
  {
    if times != [] {
      SeparatedIsKept(times[..|times| - 1], gap);
    }
  }

  // ---------- wire metrics ----------

  /** The 10 ms within which repeated captures of one heartbeat are one observation. */
  const GAP := 0.010

  datatype WireMetrics = WireMetrics(
    heartbeats: nat, rawHeartbeats: nat, finalHeartbeat: Option<real>,
    links: nat, rightCensored: nat,
    requestedAll: set<int>, unresolvedAll: set<int>,
    requestedUncensored: set<int>, unresolvedUncensored: set<int>,
    priorAndPost: bool, flow: Summary)

  function HeartbeatTimes(events: seq<Event>, run: Option<nat>): seq<real> {
    if events == [] then []
    else
      var n := |events| - 1;
      HeartbeatTimes(events[..n], run) +
      if Selected(events[n], run, BoardToHostApp, Heartbeat) then [events[n].time] else []
  }

  /** Not right-censored: made before the final heartbeat, if there was one. */
  predicate InTime(ackTime: real, final: Option<real>) {
    final.None? || ackTime < final.value
  }

  function RequestsInTime(requests: seq<Request>, final: Option<real>): seq<Request> {
    Filter(requests, (r: Request) => InTime(r.ack.time, final))
  }

  ghost predicate IsRequested(requests: seq<Request>, s: int) {
    exists r :: r in requests && r.sequence == s
  }

  /** Some request for the sequence number was never followed by its DATA. */
  ghost predicate IsUnresolved(requests: seq<Request>, events: seq<Event>, run: Option<nat>, s: int) {
    exists r :: r in requests && r.sequence == s && !HasDataAfter(events, run, BoardToHostApp, r)
  }

  method CollectHeartbeats(events: seq<Event>, run: Option<nat>) returns (times: seq<real>)
    ensures times == HeartbeatTimes(events, run)
  {
    times := [];
    for i := 0 to |events|
      invariant times == HeartbeatTimes(events[..i], run)
    {
      assert events[..i + 1][..i] == events[..i];
      if Selected(events[i], run, BoardToHostApp, Heartbeat) {
        times := times + [events[i].time];
      }
    }
    assert events[..|events|] == events;
  }

  ghost predicate Explained(links: seq<Link>, requests: seq<Request>, events: seq<Event>, run: Option<nat>) {
    && |links| == |requests|
    && (forall i :: 0 <= i < |links| ==> links[i].ackTime == requests[i].ack.time)
    && forall i :: 0 <= i < |links| ==> Explains(links[i], requests[i], events, run, BoardToHostApp)
  }

  lemma LinksAreExplained(links: seq<Link>, requests: seq<Request>, events: seq<Event>, run: Option<nat>)
    requires |links| == |requests|
    requires forall i :: 0 <= i < |links| ==> Explains(links[i], requests[i], events, run, BoardToHostApp)
    ensures Explained(links, requests, events, run)
  {
  }

  /** Filtering two aligned lists by matching tests keeps them aligned. */
  lemma {:induction false} FilterAligned<A, B>(xs: seq<A>, ys: seq<B>, p: A -> bool, q: B -> bool,
                                               aligned: (A, B) -> bool)
    requires |xs| == |ys|
    requires forall i :: 0 <= i < |xs| ==> p(xs[i]) == q(ys[i]) && aligned(xs[i], ys[i])
    ensures |Filter(xs, p)| == |Filter(ys, q)|
    ensures forall k :: 0 <= k < |Filter(xs, p)| ==> aligned(Filter(xs, p)[k], Filter(ys, q)[k])
  {
    if xs != [] {
      hide Filter;
      FilterAligned(xs[1..], ys[1..], p, q, aligned);
      FilterHead(xs, p);
      FilterHead(ys, q);
    }
  }

  lemma {:induction false} UncensoredMatch(links: seq<Link>, requests: seq<Request>, events: seq<Event>,
                                           run: Option<nat>, final: Option<real>)
    requires Explained(links, requests, events, run)
    ensures Explained(Filter(links, (l: Link) => InTime(l.ackTime, final)),
        RequestsInTime(requests, final), events, run)
  {
    hide Explains, Filter;
    var early := (l: Link) => InTime(l.ackTime, final);
    var inTime := (r: Request) => InTime(r.ack.time, final);
    ghost var aligned := (l: Link, r: Request) =>
      l.ackTime == r.ack.time && Explains(l, r, events, run, BoardToHostApp);
    FilterAligned(links, requests, early, inTime, aligned);
    forall k | 0 <= k < |Filter(links, early)|
      ensures Filter(links, early)[k].ackTime == Filter(requests, inTime)[k].ack.time
      ensures Explains(Filter(links, early)[k], Filter(requests, inTime)[k], events, run, BoardToHostApp)
    {
      assert aligned(Filter(links, early)[k], Filter(requests, inTime)[k]);
    }
  }

  function SequencesOf(links: seq<Link>): set<int> {
    set l | l in links :: l.sequence
  }

  function UnansweredOf(links: seq<Link>): set<int> {
    set l | l in links && !l.post :: l.sequence
  }

  lemma LinkSets(links: seq<Link>, requests: seq<Request>, events: seq<Event>, run: Option<nat>)
    requires Explained(links, requests, events, run)
    ensures forall s :: s in SequencesOf(links) <==> IsRequested(requests, s)
    ensures forall s :: s in UnansweredOf(links) <==> IsUnresolved(requests, events, run, s)
    ensures UnansweredOf(links) <= SequencesOf(links)
    ensures (exists l :: l in links && l.prior && l.post) <==> IsRepaired(requests, events, run)
  {
  }

  /** Some request was both preceded and followed by its DATA. */
  ghost predicate IsRepaired(requests: seq<Request>, events: seq<Event>, run: Option<nat>) {
    exists r :: r in requests && HasDataBefore(events, run, BoardToHostApp, r)
      && HasDataAfter(events, run, BoardToHostApp, r)
  }

  /** The times of the heartbeats that count as separate observations, in order. */
  function UniqueHeartbeats(events: seq<Event>, run: Option<nat>): seq<real> {
    KeptTimes(SortBy(HeartbeatTimes(events, run), (t: real) => t), GAP)
  }

  function FinalHeartbeat(events: seq<Event>, run: Option<nat>): Option<real> {
    var unique := UniqueHeartbeats(events, run);
    if unique == [] then None else Some(unique[|unique| - 1])
  }

  predicate IsBoardHeartbeat(e: Event, run: Option<nat>) {
    e.run == run && e.flow == BoardToHostApp && e.kind == Heartbeat
  }

  /** Some board heartbeat of the run was captured at this time. */
  ghost predicate IsHeartbeatTime(t: real, events: seq<Event>, run: Option<nat>) {
    exists e :: e in events && IsBoardHeartbeat(e, run) && e.time == t
  }

  lemma {:induction false} HeartbeatTimesMeaning(events: seq<Event>, run: Option<nat>)
    ensures forall t :: t in HeartbeatTimes(events, run) <==> IsHeartbeatTime(t, events, run)
  {
    if events != [] {
      var n := |events| - 1;
      HeartbeatTimesMeaning(events[..n], run);
      assert events == events[..n] + [events[n]];
      assert forall e :: e in events <==> e in events[..n] || e == events[n];
    }
  }

  /** A counted heartbeat at this time, or less than the gap before it. */
  ghost predicate IsCounted(t: real, unique: seq<real>, gap: real) {
    exists u :: u in unique && u <= t < u + gap
  }

  /** The last heartbeat counted: none without heartbeats, else less than 10 ms before the last one on the wire. */
  ghost predicate IsFinalHeartbeat(final: Option<real>, events: seq<Event>, run: Option<nat>) {
    match final
    case None => forall e :: e in events ==> !IsBoardHeartbeat(e, run)
    case Some(t) =>
      && (exists e :: e in events && IsBoardHeartbeat(e, run) && e.time == t)
      && (forall e :: e in events && IsBoardHeartbeat(e, run) ==> e.time < t + 0.010)
  }

  lemma SortedTimes(times: seq<real>)
    ensures var sorted := SortBy(times, (t: real) => t);
      Increasing(sorted) && |sorted| == |times| && forall t :: t in sorted <==> t in times
  {
    SameElements(SortBy(times, (t: real) => t), times);
  }

  lemma KeptTimesAreTimes(times: seq<real>, gap: real)
    ensures forall t :: t in KeptTimes(times, gap) ==> t in times
  {
    hide Kept;
  }

  lemma TimeIsCounted(times: seq<real>, gap: real, t: real)
    requires Increasing(times) && gap > 0.0 && t in times
    ensures IsCounted(t, KeptTimes(times, gap), gap)
  {
    hide Kept, KeptBefore, Increasing;
    var i: nat :| i < |times| && times[i] == t;
    DroppedFollowsKept(times, gap, i);
    KeptInOrder(times, KeptBefore(times, gap, i), i);
    var at: nat :| at < |Kept(times, gap)| && Kept(times, gap)[at] == KeptBefore(times, gap, i);
    assert KeptTimes(times, gap)[at] in KeptTimes(times, gap);
  }

  lemma KeptInOrder(times: seq<real>, k: nat, i: nat)
    requires Increasing(times) && k <= i < |times|
    ensures times[k] <= times[i]
  {
  }

  /** Times at least 10 ms apart. */
  ghost predicate AreApart(unique: seq<real>) {
    forall i, j :: 0 <= i < j < |unique| ==> unique[j] >= unique[i] + 0.010
  }

  lemma KeptAreApart(times: seq<real>)
    requires Increasing(times)
    ensures AreApart(KeptTimes(times, GAP))
  {
    hide KeptTimes, Increasing;
    KeptAreSeparated(times, GAP);
    var unique := KeptTimes(times, GAP);
    forall i, j | 0 <= i < j < |unique| ensures unique[j] >= unique[i] + 0.010 {
      assert unique[j] - unique[i] >= GAP;
    }
  }

  /**
   * The heartbeats counted are board heartbeats at least 10 ms apart, and every board heartbeat comes less than
   * 10 ms after one of them.
   */
  lemma UniqueHeartbeatsCover(events: seq<Event>, run: Option<nat>)
    ensures var unique := UniqueHeartbeats(events, run);
      && AreApart(unique)
      && (forall t :: t in unique ==> IsHeartbeatTime(t, events, run))
      && (forall t :: IsHeartbeatTime(t, events, run) ==> IsCounted(t, unique, 0.010))
  {
    hide SortBy, KeptTimes, Increasing, HeartbeatTimes, IsHeartbeatTime, IsCounted, AreApart;
    var times := HeartbeatTimes(events, run);
    var sorted := SortBy(times, (t: real) => t);
    HeartbeatTimesMeaning(events, run);
    SortedTimes(times);
    KeptTimesAreTimes(sorted, GAP);
    KeptAreApart(sorted);
    forall t | IsHeartbeatTime(t, events, run) ensures IsCounted(t, UniqueHeartbeats(events, run), 0.010) {
      assert t in times && t in sorted;
      TimeIsCounted(sorted, GAP, t);
    }
  }

  lemma LastIsLate(unique: seq<real>, t: real)
    requires AreApart(unique) && IsCounted(t, unique, 0.010)
    ensures unique != [] && t < unique[|unique| - 1] + 0.010
  {
    var u :| u in unique && u <= t < u + 0.010;
    var i :| 0 <= i < |unique| && unique[i] == u;
  }

  lemma FinalHeartbeatIs(events: seq<Event>, run: Option<nat>)
    ensures IsFinalHeartbeat(FinalHeartbeat(events, run), events, run)
  {
    hide UniqueHeartbeats, IsBoardHeartbeat, IsCounted, AreApart;
    UniqueHeartbeatsCover(events, run);
    var unique := UniqueHeartbeats(events, run);
    forall e | e in events && IsBoardHeartbeat(e, run)
      ensures unique != [] && e.time < unique[|unique| - 1] + 0.010
    {
      assert IsHeartbeatTime(e.time, events, run);
      LastIsLate(unique, e.time);
    }
    if unique != [] {
      assert IsHeartbeatTime(unique[|unique| - 1], events, run);
    }
  }

  /** The requests made at or after the final heartbeat: too late for the repair to be seen. */
  function Censored(requests: seq<Request>, final: Option<real>): seq<Request> {
    if final.None? then [] else Filter(requests, (r: Request) => r.ack.time >= final.value)
  }

  lemma {:induction false} CensoredRest(requests: seq<Request>, final: Option<real>)
    ensures |Censored(requests, final)| + |RequestsInTime(requests, final)| == |requests|
  {
    if requests != [] {
      CensoredRest(requests[1..], final);
      FilterHead(requests, (r: Request) => InTime(r.ack.time, final));
      if final.Some? {
        FilterHead(requests, (r: Request) => r.ack.time >= final.value);
      }
    }
  }

  /** The sequence numbers the board sent more than once. */
  function RepeatedNumbers(events: seq<Event>, run: Option<nat>): set<int> {
    var sequences := DataSequences(events, run, BoardToHostApp);
    set s | s in sequences && multiset(sequences)[s] > 1
  }

  /** What the report copies from the summary of the board's flow. */
  ghost predicate IsBoardFlow(flow: Summary, events: seq<Event>, run: Option<nat>) {
    && flow.dataObservations == CountKind(events, run, BoardToHostApp, Data)
    && flow.ackNacks == CountKind(events, run, BoardToHostApp, AckNack)
    && flow.uniqueSequences + flow.duplicateObservations == |DataSequences(events, run, BoardToHostApp)|
    && flow.repeatedSequences == |RepeatedNumbers(events, run)|
  }

  method SummarizeBoardFlow(events: seq<Event>, run: Option<nat>) returns (flow: Summary)
    ensures IsBoardFlow(flow, events, run)
  {
    flow := SummarizeFlow(events, run, BoardToHostApp);
  }

  method DeriveWireMetrics(events: seq<Event>, run: Option<nat>) returns (m: WireMetrics)
    ensures m.rawHeartbeats == |HeartbeatTimes(events, run)|
    ensures m.heartbeats == |UniqueHeartbeats(events, run)|
    ensures m.finalHeartbeat == FinalHeartbeat(events, run) && IsFinalHeartbeat(m.finalHeartbeat, events, run)
    ensures m.rightCensored == |Censored(Requests(events, run, BoardToHostApp), m.finalHeartbeat)|
    ensures var requests := Requests(events, run, BoardToHostApp);
      var inTime := RequestsInTime(requests, FinalHeartbeat(events, run));
      && m.links == |requests| && m.rightCensored + |inTime| == |requests|
      && (forall s :: s in m.requestedAll <==> IsRequested(requests, s))
      && (forall s :: s in m.unresolvedAll <==> IsUnresolved(requests, events, run, s))
      && (forall s :: s in m.requestedUncensored <==> IsRequested(inTime, s))
      && (forall s :: s in m.unresolvedUncensored <==> IsUnresolved(inTime, events, run, s))
    ensures m.priorAndPost <==> IsRepaired(Requests(events, run, BoardToHostApp), events, run)
    ensures m.unresolvedUncensored <= m.requestedUncensored && m.unresolvedAll <= m.requestedAll
    ensures IsBoardFlow(m.flow, events, run)
  {
    hide IsRequested, IsUnresolved, IsRepaired, Explains, SortBy, Kept, Filter, HeartbeatTimes, Requests, IsBoardFlow,
         IsFinalHeartbeat, Censored;
    var summary := SummarizeBoardFlow(events, run);
    var links := ReconstructNackLinks(events, run, BoardToHostApp);
    var times := CollectHeartbeats(events, run);
    var unique := Deduplicate(SortBy(times, (t: real) => t), GAP);
    var final := if unique == [] then None else Some(unique[|unique| - 1]);
    var uncensored := Filter(links, (l: Link) => InTime(l.ackTime, final));
    ghost var requests := Requests(events, run, BoardToHostApp);
    assert Explained(links, requests, events, run) by {
      LinksAreExplained(links, requests, events, run);
    }
    UncensoredMatch(links, requests, events, run, final);
    LinkSets(links, requests, events, run);
    LinkSets(uncensored, RequestsInTime(requests, final), events, run);
    FilterLength(links, (l: Link) => InTime(l.ackTime, final));
    CensoredRest(requests, final);
    FinalHeartbeatIs(events, run);
    m := WireMetrics(
      |unique|, |times|, final, |links|, |links| - |uncensored|,
      SequencesOf(links), UnansweredOf(links), SequencesOf(uncensored), UnansweredOf(uncensored),
      exists l :: l in links && l.prior && l.post, summary);
  }

  lemma {:induction false} FilterLength<T>(xs: seq<T>, p: T -> bool)
    ensures |Filter(xs, p)| <= |xs|
  {
    if xs != [] {
      FilterLength(xs[1..], p);
    }
  }

  /** The censoring boundary is at most the gap before the last heartbeat on the wire. */
  lemma FinalHeartbeatIsNearLast(times: seq<real>, gap: real)
    requires Increasing(times) && times != [] && gap > 0.0
    ensures var unique := KeptTimes(times, gap);
      unique != [] && times[|times| - 1] - gap < unique[|unique| - 1] <= times[|times| - 1]
  {
  }
}
