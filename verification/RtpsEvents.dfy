/** Application-level RTPS events and the joins that explain repair traffic. */
module RtpsEvents {
  import opened Prelude
  import opened Ordering

  datatype Flow = BoardToHostApp | HostToBoardReply

  datatype Kind = Data | Heartbeat | AckNack

  datatype Event = Event(
    run: Option<nat>, flow: Flow, kind: Kind, frame: nat, time: real,
    sequence: Option<int>, requested: seq<int>)

  /** One requested sequence number of one ACKNACK. */
  datatype Request = Request(ack: Event, sequence: int)

  datatype Link = Link(
    ackFrame: nat, ackTime: real, sequence: int,
    prior: bool, post: bool, next: Option<real>, delayMs: Option<real>)

  predicate Selected(e: Event, run: Option<nat>, flow: Flow, kind: Kind) {
    e.run == run && e.flow == flow && e.kind == kind
  }

  // ---------- plain definitions ----------

  predicate IsDataOf(e: Event, run: Option<nat>, flow: Flow, sequence: int) {
    Selected(e, run, flow, Data) && e.sequence == Some(sequence)
  }

  function RequestsOf(ack: Event): (requests: seq<Request>)
    ensures |requests| == |ack.requested|
  {
    seq(|ack.requested|, i requires 0 <= i < |ack.requested| => Request(ack, ack.requested[i]))
  }

  /** Every request of a run and flow, in capture order. */
  function Requests(events: seq<Event>, run: Option<nat>, flow: Flow): seq<Request> {
    if events == [] then []
    else
      var n := |events| - 1;
      Requests(events[..n], run, flow) + if Selected(events[n], run, flow, AckNack) then RequestsOf(events[n]) else []
  }

  /** The sequence numbers of the DATA events that carry one, in capture order. */
  function DataSequences(events: seq<Event>, run: Option<nat>, flow: Flow): seq<int> {
    if events == [] then []
    else
      var n := |events| - 1;
      DataSequences(events[..n], run, flow) +
      if Selected(events[n], run, flow, Data) && events[n].sequence.Some? then [events[n].sequence.value] else []
  }

  /** The times at which one sequence number was sent, in capture order. */
  function DataTimes(events: seq<Event>, run: Option<nat>, flow: Flow, sequence: int): seq<real> {
    if events == [] then []
    else
      var n := |events| - 1;
      DataTimes(events[..n], run, flow, sequence) +
        if IsDataOf(events[n], run, flow, sequence) then [events[n].time] else []
  }

  lemma {:induction false} DataTimesMeaning(events: seq<Event>, run: Option<nat>, flow: Flow, sequence: int)
    ensures forall t :: t in DataTimes(events, run, flow, sequence) <==>
      exists e :: e in events && IsDataOf(e, run, flow, sequence) && e.time == t
  {
    if events != [] {
      var n := |events| - 1;
      DataTimesMeaning(events[..n], run, flow, sequence);
      assert events == events[..n] + [events[n]];
      assert forall e :: e in events <==> e in events[..n] || e == events[n];
    }
  }

  lemma {:induction false} DataTimesCount(events: seq<Event>, run: Option<nat>, flow: Flow, sequence: int)
    ensures |DataTimes(events, run, flow, sequence)| == multiset(DataSequences(events, run, flow))[sequence]
  {
    if events != [] {
      DataTimesCount(events[..|events| - 1], run, flow, sequence);
    }
  }

  // ---------- the index of DATA times ----------

  /** keys lists the keys of the dictionary, each once. */
  ghost predicate AreKeys(keys: seq<int>, index: map<int, seq<real>>) {
    && Distinct(keys)
    && (forall i :: 0 <= i < |keys| ==> keys[i] in index)
    && forall s :: s in index ==> s in keys
  }

  ghost predicate IsIndex(index: map<int, seq<real>>, keys: seq<int>, events: seq<Event>, run: Option<nat>,
                          flow: Flow)
  {
    && AreKeys(keys, index)
    && forall s :: (s in index <==> DataTimes(events, run, flow, s) != [])
                && (s in index ==> index[s] == DataTimes(events, run, flow, s))
  }

  /** The times of every sequence number, and the numbers in the order of first sight. */
  method IndexData(events: seq<Event>, run: Option<nat>, flow: Flow)
    returns (index: map<int, seq<real>>, keys: seq<int>)
    ensures IsIndex(index, keys, events, run, flow)
  {
    hide IsIndex;
    index, keys := map[], [];
    EmptyIndex(run, flow);
    for i := 0 to |events|
      invariant IsIndex(index, keys, events[..i], run, flow)
    {
      var e := events[i];
      assert events[..i + 1] == events[..i] + [e];
      IndexStep(index, keys, events[..i], e, run, flow);
      if Selected(e, run, flow, Data) && e.sequence.Some? {
        var s := e.sequence.value;
        keys := if s in index then keys else keys + [s];
        index := index[s := (if s in index then index[s] else []) + [e.time]];
      }
    }
    assert events[..|events|] == events;
  }

  lemma EmptyIndex(run: Option<nat>, flow: Flow)
    ensures IsIndex(map[], [], [], run, flow)
  {
  }

  function SentAt(e: Event, run: Option<nat>, flow: Flow, sequence: int): seq<real> {
    if IsDataOf(e, run, flow, sequence) then [e.time] else []
  }

  lemma DataTimesSnoc(events: seq<Event>, e: Event, run: Option<nat>, flow: Flow)
    ensures forall s ::
      DataTimes(events + [e], run, flow, s) == DataTimes(events, run, flow, s) + SentAt(e, run, flow, s)
  {
  }

  lemma IndexStep(index: map<int, seq<real>>, keys: seq<int>, events: seq<Event>, e: Event, run: Option<nat>,
                  flow: Flow)
    requires IsIndex(index, keys, events, run, flow)
    ensures if Selected(e, run, flow, Data) && e.sequence.Some? then
        var s := e.sequence.value;
        IsIndex(index[s := (if s in index then index[s] else []) + [e.time]],
                if s in index then keys else keys + [s], events + [e], run, flow)
      else IsIndex(index, keys, events + [e], run, flow)
  {
    hide DataTimes;
    DataTimesSnoc(events, e, run, flow);
    if Selected(e, run, flow, Data) && e.sequence.Some? && e.sequence.value !in index {
      assert forall i :: 0 <= i < |keys| ==> keys[i] in index;
    }
  }

  /** times.sort() on every entry. */
  method SortIndex(index: map<int, seq<real>>, keys: seq<int>) returns (sorted: map<int, seq<real>>)
    requires AreKeys(keys, index)
    ensures sorted.Keys == index.Keys
    ensures forall s :: s in index ==> multiset(sorted[s]) == multiset(index[s]) && Increasing(sorted[s])
  {
    sorted := index;
    for i := 0 to |keys|
      invariant sorted.Keys == index.Keys
      invariant forall j :: i <= j < |keys| ==> sorted[keys[j]] == index[keys[j]]
      invariant forall j :: 0 <= j < i ==>
        multiset(sorted[keys[j]]) == multiset(index[keys[j]]) && Increasing(sorted[keys[j]])
    {
      var s := keys[i];
      sorted := sorted[s := SortBy(index[s], (t: real) => t)];
    }
  }

  // ---------- NACK links ----------

  ghost predicate HasDataBefore(events: seq<Event>, run: Option<nat>, flow: Flow, r: Request) {
    exists e :: e in events && IsDataOf(e, run, flow, r.sequence) && e.time < r.ack.time
  }

  ghost predicate HasDataAfter(events: seq<Event>, run: Option<nat>, flow: Flow, r: Request) {
    exists e :: e in events && IsDataOf(e, run, flow, r.sequence) && e.time > r.ack.time
  }

  /** The time of the first DATA strictly after the request. */
  ghost predicate IsNextData(events: seq<Event>, run: Option<nat>, flow: Flow, r: Request, t: real) {
    && (exists e :: e in events && IsDataOf(e, run, flow, r.sequence) && e.time == t > r.ack.time)
    && forall e :: e in events && IsDataOf(e, run, flow, r.sequence) && e.time > r.ack.time ==> t <= e.time
  }

  /** A link is exactly what the plain definition says about its request. */
  ghost predicate Explains(link: Link, r: Request, events: seq<Event>, run: Option<nat>, flow: Flow) {
    && link.ackFrame == r.ack.frame && link.ackTime == r.ack.time && link.sequence == r.sequence
    && (link.prior <==> HasDataBefore(events, run, flow, r))
    && (link.post <==> HasDataAfter(events, run, flow, r))
    && (link.post <==> link.next.Some?) && (link.post <==> link.delayMs.Some?)
    && (link.post ==> IsNextData(events, run, flow, r, link.next.value))
    && (link.post ==> link.delayMs.value == 1000.0 * (link.next.value - r.ack.time))
  }

  /** before, after and next_time of one request, from the sorted times of its sequence. */
  function MakeLink(ack: Event, sequence: int, times: seq<real>): Link {
    var before := Filter(times, (t: real) => t < ack.time);
    var after := Filter(times, (t: real) => t > ack.time);
    var next := if after != [] then Some(after[0]) else None;
    Link(ack.frame, ack.time, sequence, before != [], next.Some?, next,
         if next.Some? then Some(1000.0 * (next.value - ack.time)) else None)
  }

  lemma {:induction false} FirstAfterIsLeast(times: seq<real>, after: real -> bool)
    requires Increasing(times)
    ensures var later := Filter(times, after); later != [] ==> forall t :: t in later ==> later[0] <= t
  {
    if times != [] {
      FirstAfterIsLeast(times[1..], after);
      if after(times[0]) {
        forall t | t in Filter(times, after) ensures times[0] <= t {
          var k :| 0 <= k < |times| && times[k] == t;
        }
      }
    }
  }

  lemma {:induction false} TimesOfData(times: seq<real>, events: seq<Event>, run: Option<nat>, flow: Flow,
                                       sequence: int)
    requires multiset(times) == multiset(DataTimes(events, run, flow, sequence))
    ensures forall t :: t in times <==> exists e :: e in events && IsDataOf(e, run, flow, sequence) && e.time == t
    ensures forall e :: e in events && IsDataOf(e, run, flow, sequence) ==> e.time in times
  {
    hide DataTimes;
    SameElements(times, DataTimes(events, run, flow, sequence));
    DataTimesMeaning(events, run, flow, sequence);
    forall e | e in events && IsDataOf(e, run, flow, sequence) ensures e.time in times {
      assert e.time in DataTimes(events, run, flow, sequence);
    }
  }

  lemma {:induction false} MadeLinkExplains(ack: Event, sequence: int, times: seq<real>, events: seq<Event>,
                                            run: Option<nat>, flow: Flow)
    requires Increasing(times) && multiset(times) == multiset(DataTimes(events, run, flow, sequence))
    ensures Explains(MakeLink(ack, sequence, times), Request(ack, sequence), events, run, flow)
  {
    hide DataTimes, Filter, Increasing;
    TimesOfData(times, events, run, flow, sequence);
    var link := MakeLink(ack, sequence, times);
    MadeLinkPrior(ack, sequence, times);
    MadeLinkNext(ack, sequence, times);
  }

  lemma MadeLinkPrior(ack: Event, sequence: int, times: seq<real>)
    ensures MakeLink(ack, sequence, times).prior <==> exists t :: t in times && t < ack.time
  {
    hide Filter;
    var early := (t: real) => t < ack.time;
    var before := Filter(times, early);
    if before != [] {
      assert before[0] in before;
    }
  }

  lemma MadeLinkNext(ack: Event, sequence: int, times: seq<real>)
    requires Increasing(times)
    ensures var link := MakeLink(ack, sequence, times);
      && (link.next.Some? <==> exists t :: t in times && t > ack.time)
      && (link.next.Some? ==> link.next.value in times && link.next.value > ack.time)
      && (link.next.Some? ==> forall t :: t in times && t > ack.time ==> link.next.value <= t)
  {
    hide Filter;
    var late := (t: real) => t > ack.time;
    var after := Filter(times, late);
    FirstAfterIsLeast(times, late);
    if after != [] {
      assert after[0] in after;
    }
  }

  method ReconstructNackLinks(events: seq<Event>, run: Option<nat>, flow: Flow) returns (links: seq<Link>)
    ensures |links| == |Requests(events, run, flow)|
    ensures forall i :: 0 <= i < |links| ==> Explains(links[i], Requests(events, run, flow)[i], events, run, flow)
  {
    hide DataTimes, Explains, MakeLink;
    var index, keys := IndexData(events, run, flow);
    var dataTimes := SortIndex(index, keys);
    links := [];
    for i := 0 to |events|
      invariant |links| == |Requests(events[..i], run, flow)|
      invariant forall k :: 0 <= k < |links| ==>
          Explains(links[k], Requests(events[..i], run, flow)[k], events, run, flow)
    {
      var e := events[i];
      assert events[..i + 1][..i] == events[..i];
      if Selected(e, run, flow, AckNack) {
        ghost var earlier := Requests(events[..i], run, flow);
        for j := 0 to |e.requested|
          invariant |links| == |earlier| + j
          invariant forall k :: 0 <= k < |links| ==> Explains(links[k], (earlier + RequestsOf(e))[k], events, run, flow)
        {
          var s := e.requested[j];
          var times := if s in dataTimes then dataTimes[s] else [];
          MadeLinkExplains(e, s, times, events, run, flow);
          links := links + [MakeLink(e, s, times)];
        }
      }
    }
    assert events[..|events|] == events;
  }

  // ---------- flow summaries ----------

  datatype Summary = Summary(
    dataObservations: nat, uniqueSequences: nat, duplicateObservations: nat, repeatedSequences: nat,
    mostPerSequence: nat, retrySpanMs: Option<real>, heartbeats: nat,
    ackNacks: nat, ackNacksWithRequests: nat, requestedObservations: nat, requestedUnique: nat)

  function CountKind(events: seq<Event>, run: Option<nat>, flow: Flow, kind: Kind): nat {
    if events == [] then 0
    else
      var n := |events| - 1;
      CountKind(events[..n], run, flow, kind) + if Selected(events[n], run, flow, kind) then 1 else 0
  }

  function RequestedSequences(events: seq<Event>, run: Option<nat>, flow: Flow): (s: seq<int>)
    ensures |s| == |Requests(events, run, flow)|
  {
    Map(Requests(events, run, flow), (r: Request) => r.sequence)
  }

  function Asking(run: Option<nat>, flow: Flow): Event -> bool {
    (e: Event) => Selected(e, run, flow, AckNack) && e.requested != []
  }

  /** Two DATA events with the same sequence number. */
  predicate IsRetry(a: Event, b: Event, events: seq<Event>, run: Option<nat>, flow: Flow) {
    && a in events && b in events && a.sequence.Some?
    && IsDataOf(a, run, flow, a.sequence.value) && IsDataOf(b, run, flow, a.sequence.value)
  }

  /** The longest time, in milliseconds, over which one sequence number was sent. */
  ghost predicate IsRetrySpan(ms: real, events: seq<Event>, run: Option<nat>, flow: Flow) {
    && (exists a, b :: IsRetry(a, b, events, run, flow) && ms == 1000.0 * (b.time - a.time))
    && forall a, b :: IsRetry(a, b, events, run, flow) ==> 1000.0 * (b.time - a.time) <= ms
  }

  /** The largest number of observations of one sequence number; 0 without observations. */
  ghost predicate IsMost(most: nat, observed: multiset<int>) {
    (forall s :: observed[s] <= most) && exists s :: observed[s] == most
  }

  method SummarizeFlow(events: seq<Event>, run: Option<nat>, flow: Flow) returns (r: Summary)
    ensures r.dataObservations == CountKind(events, run, flow, Data)
    ensures r.ackNacks == CountKind(events, run, flow, AckNack)
    ensures r.uniqueSequences == |set s | s in DataSequences(events, run, flow)|
    ensures r.uniqueSequences + r.duplicateObservations == |DataSequences(events, run, flow)|
    ensures r.repeatedSequences ==
        |set s | s in DataSequences(events, run, flow) && multiset(DataSequences(events, run, flow))[s] > 1|
    ensures IsMost(r.mostPerSequence, multiset(DataSequences(events, run, flow)))
    ensures r.retrySpanMs.None? <==> r.repeatedSequences == 0
    ensures r.retrySpanMs.Some? ==> IsRetrySpan(r.retrySpanMs.value, events, run, flow)
    ensures r.heartbeats == CountKind(events, run, flow, Heartbeat)
    ensures r.ackNacksWithRequests == |Filter(events, Asking(run, flow))|
    ensures r.requestedObservations == |Requests(events, run, flow)|
    ensures r.requestedUnique == |set s | s in RequestedSequences(events, run, flow)|
  {
    hide DataTimes, DataSequences, Requests, IsRetrySpan, CountKind, Filter, IsMost, IsSpanAmong, RequestedSequences;
    var bySequence, keys := IndexData(events, run, flow);
    ghost var observed := multiset(DataSequences(events, run, flow));
    IndexCounts(bySequence, keys, events, run, flow);
    var duplicates, repeated := CountDuplicates(bySequence, keys, observed);
    forall s ensures s in repeated <==> s in DataSequences(events, run, flow) && observed[s] > 1 {
      assert s in bySequence <==> s in observed;
    }
    assert repeated == set s | s in DataSequences(events, run, flow) && observed[s] > 1;
    var most := MostObserved(bySequence, keys, observed);
    var sorted := SortIndex(bySequence, keys);
    var span := RetrySpan(sorted, keys);
    SpanOfEvents(span, bySequence, sorted, keys, repeated, events, run, flow);
    var data, heartbeats, acks, asking, requested := CountEvents(events, run, flow);
    r := Summary(data, |bySequence|, duplicates, |repeated|, most, span, heartbeats, acks, asking, |requested|,
                 |set s | s in requested|);
  }

  /** The index holds as many times of a number as it was observed. */
  lemma {:induction false} IndexCounts(index: map<int, seq<real>>, keys: seq<int>, events: seq<Event>, run: Option<nat>,
                                       flow: Flow)
    requires IsIndex(index, keys, events, run, flow)
    ensures var observed := multiset(DataSequences(events, run, flow));
      && (forall s :: s in index <==> s in observed)
      && (forall s :: s in index ==> |index[s]| == observed[s])
      && |observed| == |DataSequences(events, run, flow)|
      && index.Keys == (set s | s in DataSequences(events, run, flow))
  {
    hide DataTimes, DataSequences;
    var observed := multiset(DataSequences(events, run, flow));
    forall s ensures (s in index <==> s in observed) && (s in index ==> |index[s]| == observed[s]) {
      DataTimesCount(events, run, flow, s);
    }
  }

  method MostObserved(bySequence: map<int, seq<real>>, keys: seq<int>, ghost observed: multiset<int>)
    returns (most: nat)
    requires AreKeys(keys, bySequence)
    requires forall s :: s in bySequence <==> s in observed
    requires forall s :: s in bySequence ==> |bySequence[s]| == observed[s]
    ensures IsMost(most, observed)
  {
    hide IsMost, IsMostAmong;
    most := 0;
    NoneObserved(bySequence);
    for i := 0 to |keys|
      invariant IsMostAmong(most, bySequence, keys[..i])
    {
      MostGrows(most, bySequence, keys[..i], keys[i]);
      assert keys[..i + 1] == keys[..i] + [keys[i]];
      if |bySequence[keys[i]]| > most {
        most := |bySequence[keys[i]]|;
      }
    }
    assert keys[..|keys|] == keys;
    MostIsMost(most, bySequence, keys, observed);
  }

  ghost predicate IsMostAmong(most: nat, bySequence: map<int, seq<real>>, keys: seq<int>) {
    && (forall s :: s in keys && s in bySequence ==> |bySequence[s]| <= most)
    && (most > 0 ==> exists s :: s in keys && s in bySequence && |bySequence[s]| == most)
  }

  lemma NoneObserved(bySequence: map<int, seq<real>>)
    ensures IsMostAmong(0, bySequence, [])
  {
  }

  lemma MostGrows(most: nat, bySequence: map<int, seq<real>>, keys: seq<int>, s: int)
    requires IsMostAmong(most, bySequence, keys) && s in bySequence
    ensures IsMostAmong(if |bySequence[s]| > most then |bySequence[s]| else most, bySequence, keys + [s])
  {
    forall k ensures k in keys + [s] <==> k in keys || k == s {
    }
    if |bySequence[s]| > most {
      assert s in keys + [s];
    }
  }

  lemma MostIsMost(most: nat, bySequence: map<int, seq<real>>, keys: seq<int>, observed: multiset<int>)
    requires AreKeys(keys, bySequence) && IsMostAmong(most, bySequence, keys)
    requires forall s :: s in bySequence <==> s in observed
    requires forall s :: s in bySequence ==> |bySequence[s]| == observed[s]
    ensures IsMost(most, observed)
  {
    forall s ensures observed[s] <= most {
      assert s in bySequence ==> s in keys;
    }
    if most == 0 {
      assert observed[0] == 0;
    }
  }

  /** From the first to the last of some sorted times, in milliseconds. */
  function SpanOf(times: seq<real>): real
    requires times != []
  {
    1000.0 * (times[|times| - 1] - times[0])
  }

  /** The sorted times of every sequence number. */
  ghost predicate AreSortedTimes(sorted: map<int, seq<real>>, events: seq<Event>, run: Option<nat>, flow: Flow) {
    forall s ::
      (s in sorted <==> DataTimes(events, run, flow, s) != [])
      && (s in sorted ==> Increasing(sorted[s]) && multiset(sorted[s]) == multiset(DataTimes(events, run, flow, s)))
  }

  /** Whether the times hold a retry. */
  predicate Retried(sorted: map<int, seq<real>>, s: int) {
    s in sorted && |sorted[s]| > 1
  }

  /** The longest span among the retried ones of these numbers, if any. */
  ghost predicate IsSpanAmong(span: Option<real>, sorted: map<int, seq<real>>, keys: seq<int>) {
    && (span.None? <==> forall s :: s in keys ==> !Retried(sorted, s))
    && (span.Some? ==> exists s :: s in keys && Retried(sorted, s) && SpanOf(sorted[s]) == span.value)
    && (span.Some? ==> forall s :: s in keys && Retried(sorted, s) ==> SpanOf(sorted[s]) <= span.value)
  }

  function LongerSpan(span: Option<real>, times: seq<real>): Option<real> {
    if |times| > 1 && (span.None? || SpanOf(times) > span.value) then Some(SpanOf(times)) else span
  }

  lemma SpanGrows(span: Option<real>, sorted: map<int, seq<real>>, keys: seq<int>, s: int)
    requires IsSpanAmong(span, sorted, keys) && s in sorted
    ensures IsSpanAmong(LongerSpan(span, sorted[s]), sorted, keys + [s])
  {
    forall k ensures k in keys + [s] <==> k in keys || k == s {
    }
    if !Retried(sorted, s) || (span.Some? && SpanOf(sorted[s]) <= span.value) {
      if span.Some? {
        var k :| k in keys && Retried(sorted, k) && SpanOf(sorted[k]) == span.value;
        assert k in keys + [s];
      }
    } else {
      assert s in keys + [s];
    }
  }

  method RetrySpan(sorted: map<int, seq<real>>, keys: seq<int>) returns (span: Option<real>)
    requires AreKeys(keys, sorted)
    ensures IsSpanAmong(span, sorted, keys)
  {
    hide IsSpanAmong, LongerSpan;
    span := None;
    NoSpan(sorted);
    for i := 0 to |keys|
      invariant IsSpanAmong(span, sorted, keys[..i])
    {
      SpanGrows(span, sorted, keys[..i], keys[i]);
      span := LongerSpan(span, sorted[keys[i]]);
      assert keys[..i + 1] == keys[..i] + [keys[i]];
    }
    assert keys[..|keys|] == keys;
  }

  lemma NoSpan(sorted: map<int, seq<real>>)
    ensures IsSpanAmong(None, sorted, [])
  {
  }

  lemma {:induction false} SpanOfEvents(span: Option<real>, index: map<int, seq<real>>, sorted: map<int, seq<real>>,
                                        keys: seq<int>, repeated: set<int>, events: seq<Event>, run: Option<nat>,
                                        flow: Flow)
    requires IsIndex(index, keys, events, run, flow) && IsSpanAmong(span, sorted, keys)
    requires sorted.Keys == index.Keys
    requires forall s :: s in index ==> multiset(sorted[s]) == multiset(index[s]) && Increasing(sorted[s])
    requires repeated == set s | s in index && multiset(DataSequences(events, run, flow))[s] > 1
    ensures span.None? <==> |repeated| == 0
    ensures span.Some? ==> IsRetrySpan(span.value, events, run, flow)
  {
    hide DataTimes, DataSequences, IsRetrySpan, IsDataOf, Increasing;
    IndexCounts(index, keys, events, run, flow);
    forall s ensures s in repeated <==> Retried(sorted, s) {
      if s in index {
        assert |multiset(sorted[s])| == |sorted[s]| && |multiset(index[s])| == |index[s]|;
      }
    }
    if span.Some? {
      var s :| s in keys && Retried(sorted, s) && SpanOf(sorted[s]) == span.value;
      assert s in repeated;
      SpanIsRetrySpan(s, sorted, keys, events, run, flow);
    } else {
      forall s ensures s !in repeated {
        assert Retried(sorted, s) ==> s in keys;
      }
      assert repeated == {};
    }
  }

  lemma SpanIsRetrySpan(s: int, sorted: map<int, seq<real>>, keys: seq<int>,
                        events: seq<Event>, run: Option<nat>, flow: Flow)
    requires AreKeys(keys, sorted) && AreSortedTimes(sorted, events, run, flow)
    requires Retried(sorted, s)
    requires forall r :: r in keys && Retried(sorted, r) ==> SpanOf(sorted[r]) <= SpanOf(sorted[s])
    ensures IsRetrySpan(SpanOf(sorted[s]), events, run, flow)
  {
    hide DataTimes, AreKeys;
    var times := sorted[s];
    TimesOfData(times, events, run, flow, s);
    assert times[0] in times && times[|times| - 1] in times;
    var a :| a in events && IsDataOf(a, run, flow, s) && a.time == times[0];
    var b :| b in events && IsDataOf(b, run, flow, s) && b.time == times[|times| - 1];
    assert IsRetry(a, b, events, run, flow);
    forall x, y | IsRetry(x, y, events, run, flow) ensures 1000.0 * (y.time - x.time) <= SpanOf(times) {
      RetryIsCovered(x, y, s, sorted, keys, events, run, flow);
    }
  }

  lemma RetryIsCovered(x: Event, y: Event, s: int, sorted: map<int, seq<real>>, keys: seq<int>,
                       events: seq<Event>, run: Option<nat>, flow: Flow)
    requires AreKeys(keys, sorted) && AreSortedTimes(sorted, events, run, flow)
    requires Retried(sorted, s) && IsRetry(x, y, events, run, flow)
    requires forall r :: r in keys && Retried(sorted, r) ==> SpanOf(sorted[r]) <= SpanOf(sorted[s])
    ensures 1000.0 * (y.time - x.time) <= SpanOf(sorted[s])
  {
    hide DataTimes;
    var r := x.sequence.value;
    DataTimesMeaning(events, run, flow, r);
    assert x.time in DataTimes(events, run, flow, r);
    TimesOfData(sorted[r], events, run, flow, r);
    SpanCovers(sorted[r], x.time, y.time);
    assert r in keys;
    SpanCovers(sorted[s], sorted[s][0], sorted[s][0]);
  }

  lemma SpanCovers(times: seq<real>, x: real, y: real)
    requires Increasing(times) && x in times && y in times
    ensures 1000.0 * (y - x) <= SpanOf(times)
    ensures |times| == 1 ==> x == y
  {
    var i :| 0 <= i < |times| && times[i] == x;
    var j :| 0 <= j < |times| && times[j] == y;
  }

  /** The observations beyond the first of every sequence number, and the numbers seen again. */
  method CountDuplicates(bySequence: map<int, seq<real>>, keys: seq<int>, ghost observed: multiset<int>)
    returns (duplicates: nat, repeated: set<int>)
    requires AreKeys(keys, bySequence)
    requires forall s :: s in bySequence <==> s in observed
    requires forall s :: s in bySequence ==> |bySequence[s]| == observed[s]
    ensures |bySequence| + duplicates == |observed|
    ensures repeated == set s | s in bySequence && observed[s] > 1
  {
    duplicates, repeated := 0, {};
    ghost var rest := observed;
    for i := 0 to |keys|
      invariant forall s :: rest[s] == if s in keys[..i] then 0 else observed[s]
      invariant i + duplicates + |rest| == |observed|
      invariant repeated == set s | s in keys[..i] && observed[s] > 1
    {
      var s := keys[i];
      assert s in keys && s !in keys[..i];
      assert keys[..i + 1] == keys[..i] + [s];
      if |bySequence[s]| > 1 {
        duplicates := duplicates + |bySequence[s]| - 1;
        repeated := repeated + {s};
      }
      rest := rest[s := 0];
    }
    assert keys[..|keys|] == keys;
    assert forall s :: rest[s] == 0;
    assert rest == multiset{};
    KeysLength(keys, bySequence);
    forall s ensures s in keys <==> s in bySequence {
      assert s in bySequence ==> s in keys;
    }
  }

  lemma {:induction false} KeysLength(keys: seq<int>, index: map<int, seq<real>>)
    requires AreKeys(keys, index)
    ensures |keys| == |index|
  {
    if keys == [] {
      forall s ensures s !in index {
        assert s in index ==> s in keys;
      }
      assert index.Keys == {};
    } else {
      var n := |keys| - 1;
      var rest := index - {keys[n]};
      forall s | s in rest ensures s in keys[..n] {
        assert s in keys;
      }
      KeysLength(keys[..n], rest);
      assert index.Keys == rest.Keys + {keys[n]};
    }
  }

  function One(e: Event, run: Option<nat>, flow: Flow, kind: Kind): nat {
    if Selected(e, run, flow, kind) then 1 else 0
  }

  lemma {:induction false} CountsSnoc(events: seq<Event>, i: nat, run: Option<nat>, flow: Flow)
    requires i < |events|
    ensures forall kind ::
      CountKind(events[..i + 1], run, flow, kind) ==
        CountKind(events[..i], run, flow, kind) + One(events[i], run, flow, kind)
    ensures RequestedSequences(events[..i + 1], run, flow)
      == RequestedSequences(events[..i], run, flow) +
        if Selected(events[i], run, flow, AckNack) then events[i].requested else []
  {
    assert events[..i + 1][..i] == events[..i];
  }

  method CountEvents(events: seq<Event>, run: Option<nat>, flow: Flow)
    returns (data: nat, heartbeats: nat, acks: nat, asking: nat, requested: seq<int>)
    ensures data == CountKind(events, run, flow, Data) && acks == CountKind(events, run, flow, AckNack)
    ensures heartbeats == CountKind(events, run, flow, Heartbeat)
    ensures asking == |Filter(events, Asking(run, flow))|
    ensures requested == RequestedSequences(events, run, flow)
  {
    hide CountKind, Filter, RequestedSequences;
    data, heartbeats, acks, asking, requested := 0, 0, 0, 0, [];
    CountsEmpty(run, flow);
    for i := 0 to |events|
      invariant data == CountKind(events[..i], run, flow, Data) && acks == CountKind(events[..i], run, flow, AckNack)
      invariant heartbeats == CountKind(events[..i], run, flow, Heartbeat)
      invariant asking == |Filter(events[..i], Asking(run, flow))|
      invariant requested == RequestedSequences(events[..i], run, flow)
    {
      var e := events[i];
      CountsSnoc(events, i, run, flow);
      assert events[..i + 1] == events[..i] + [e];
      FilterSnoc(events[..i], e, Asking(run, flow));
      data := data + One(e, run, flow, Data);
      heartbeats := heartbeats + One(e, run, flow, Heartbeat);
      acks := acks + One(e, run, flow, AckNack);
      if Selected(e, run, flow, AckNack) {
        asking := asking + if e.requested != [] then 1 else 0;
        requested := requested + e.requested;
      }
    }
    assert events[..|events|] == events;
  }

  lemma {:induction false} CountsEmpty(run: Option<nat>, flow: Flow)
    ensures forall kind :: CountKind([], run, flow, kind) == 0
    ensures Filter([], Asking(run, flow)) == [] && RequestedSequences([], run, flow) == []
  {
  }

  /**
   * The two analyses of a flow agree: one explained link per requested observation, the same distinct
   * numbers, and DATA with a number that is either a first observation or a duplicate.
   */
  method LinksAndSummary(events: seq<Event>, run: Option<nat>, flow: Flow) returns (links: seq<Link>, summary: Summary)
    ensures |links| == |Requests(events, run, flow)| == summary.requestedObservations
    ensures forall i :: 0 <= i < |links| ==> Explains(links[i], Requests(events, run, flow)[i], events, run, flow)
    ensures (set l | l in links :: l.sequence) == set s | s in RequestedSequences(events, run, flow)
    ensures summary.requestedUnique == |set l | l in links :: l.sequence|
    ensures summary.uniqueSequences == |set s | s in DataSequences(events, run, flow)|
    ensures summary.uniqueSequences + summary.duplicateObservations == |DataSequences(events, run, flow)|
    ensures summary.dataObservations == CountKind(events, run, flow, Data)
    ensures IsMost(summary.mostPerSequence, multiset(DataSequences(events, run, flow)))
    ensures summary.ackNacks == CountKind(events, run, flow, AckNack)
  {
    links := ReconstructNackLinks(events, run, flow);
    summary := SummarizeFlow(events, run, flow);
    LinkedSequences(links, events, run, flow);
  }

  lemma {:induction false} LinkedSequences(links: seq<Link>, events: seq<Event>, run: Option<nat>, flow: Flow)
    requires |links| == |Requests(events, run, flow)|
    requires forall i :: 0 <= i < |links| ==> Explains(links[i], Requests(events, run, flow)[i], events, run, flow)
    ensures (set l | l in links :: l.sequence) == set s | s in RequestedSequences(events, run, flow)
  {
    hide Requests, IsNextData, HasDataAfter, HasDataBefore;
    var sequences := RequestedSequences(events, run, flow);
    assert forall i :: 0 <= i < |links| ==> links[i].sequence == sequences[i];
    forall s | s in sequences ensures s in set l | l in links :: l.sequence {
      var i :| 0 <= i < |sequences| && sequences[i] == s;
      assert links[i] in links;
    }
  }
}
