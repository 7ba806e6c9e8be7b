/** Failure diagnostics of a browser run: a bounded event buffer and a bounded map of requests in flight. */
module Diagnostics {
  import opened Wrappers

  const MAX_EVENTS := 128
  const MAX_PENDING := 32

  type Request = nat

  // A tracked request: its class, and when it was last seen to start.
  datatype Entry = Entry(request: Request, phase: string, at: int)

  datatype Event = Event(event: string, phase: string, ms: nat, status: Option<int>, elapsedMs: Option<nat>)

  // What the page reports, with the clock readings taken while handling it: `first`, then `second`.
  datatype Input =
    | OnRequest(request: Request, phase: Option<string>, first: int, second: int)
    | OnResponse(request: Request, status: int, first: int, second: int)
    | OnComplete(request: Request, event: string, first: int, second: int)
    | OnPage(event: string, first: int)
    | OnMark(value: string, first: int)
    | OnFinish

  // The fields. `pending` keeps insertion order, as a JavaScript Map does.
  datatype Buffers = Buffers(pending: seq<Entry>, events: seq<Event>, dropped: nat, evicted: nat, finished: bool)

  // The unbounded account they are measured against: every event recorded, every request inserted, and of each
  // insertion, by its number, whether it is still tracked, was completed or was evicted.
  datatype Ledger = Ledger(recorded: seq<Event>, inserted: seq<Request>, tracked: seq<nat>, completed: set<nat>,
                           evicted: seq<nat>)

  datatype Session = Session(started: int, buffers: Buffers, ledger: Ledger)

  const NO_BUFFERS := Buffers([], [], 0, 0, false)
  const NO_LEDGER := Ledger([], [], [], {}, [])

  predicate Milestone(value: string) {
    value in ["template", "pdf_download", "monitored", "keyed"]
  }

  function Elapsed(now: int, since: int): nat {
    if now > since then now - since else 0
  }

  function Position(pending: seq<Entry>, request: Request): (k: nat)
    ensures k <= |pending| && (k < |pending| ==> pending[k].request == request)
    ensures forall j | 0 <= j < k :: pending[j].request != request
  {
    if pending == [] || pending[0].request == request then 0 else 1 + Position(pending[1..], request)
  }

  function Without<T>(s: seq<T>, k: nat): seq<T>
    requires k < |s|
  {
    s[..k] + s[k + 1..]
  }

  // ---- Steps ----

  function Record(s: Session, event: Event): Session {
    var b := s.buffers;
    if b.finished then s
    else
      var full := |b.events| == MAX_EVENTS;
      s.(buffers := b.(events := (if full then b.events[1..] else b.events) + [event],
                       dropped := if full then b.dropped + 1 else b.dropped),
         ledger := s.ledger.(recorded := s.ledger.recorded + [event]))
  }

  // A request already tracked keeps its place; a new one may push out the oldest.
  function Track(s: Session, request: Request, phase: string, at: int): Session
    requires |s.ledger.tracked| == |s.buffers.pending|
  {
    var b, l, entry := s.buffers, s.ledger, Entry(request, phase, at);
    var k := Position(b.pending, request);
    if k < |b.pending| then s.(buffers := b.(pending := b.pending[k := entry]))
    else
      var number := |l.inserted|;
      var inserted := l.(inserted := l.inserted + [request]);
      if |b.pending| == MAX_PENDING then
        s.(buffers := b.(pending := b.pending[1..] + [entry], evicted := b.evicted + 1),
           ledger := inserted.(tracked := l.tracked[1..] + [number], evicted := l.evicted + [l.tracked[0]]))
      else
        s.(buffers := b.(pending := b.pending + [entry]), ledger := inserted.(tracked := l.tracked + [number]))
  }

  function Untrack(s: Session, k: nat): Session
    requires k < |s.ledger.tracked| == |s.buffers.pending|
  {
    var b, l := s.buffers, s.ledger;
    s.(buffers := b.(pending := Without(b.pending, k)),
       ledger := l.(tracked := Without(l.tracked, k), completed := l.completed + {l.tracked[k]}))
  }

  function Step(s: Session, input: Input): Session
    requires |s.ledger.tracked| == |s.buffers.pending|
  {
    match input
    case OnRequest(request, phase, first, second) =>
      if phase.None? then s
      else Record(Track(s, request, phase.value, first),
                  Event("request", phase.value, Elapsed(second, s.started), None, None))
    case OnResponse(request, status, first, second) =>
      var k := Position(s.buffers.pending, request);
      if k == |s.buffers.pending| then s
      else
        var entry := s.buffers.pending[k];
        Record(s, Event("response", entry.phase, Elapsed(second, s.started), Some(status), Some(Elapsed(first, entry.at))))
    case OnComplete(request, event, first, second) =>
      var k := Position(s.buffers.pending, request);
      if k == |s.buffers.pending| then s
      else
        var entry := s.buffers.pending[k];
        Untrack(Record(s, Event(event, entry.phase, Elapsed(second, s.started), None, Some(Elapsed(first, entry.at)))), k)
    case OnPage(event, first) => Record(s, Event(event, "browser", Elapsed(first, s.started), None, None))
    case OnMark(value, first) =>
      if Milestone(value) then Record(s, Event("milestone", value, Elapsed(first, s.started), None, None)) else s
    case OnFinish => s.(buffers := s.buffers.(finished := true))
  }

  // ---- What every run keeps ----

  // The last `most` of everything.
  function Tail<T>(all: seq<T>, most: nat): seq<T> {
    if |all| <= most then all else all[|all| - most..]
  }

  ghost predicate BufferHolds(s: Session) {
    && s.buffers.events == Tail(s.ledger.recorded, MAX_EVENTS)
    && s.buffers.dropped == |s.ledger.recorded| - |s.buffers.events|
  }

  predicate Rising(s: seq<nat>) {
    forall i, j | 0 <= i < j < |s| :: s[i] < s[j]
  }

  // Every insertion is tracked, completed or evicted, and only one of these.
  ghost predicate Accounted(inserted: nat, tracked: seq<nat>, completed: set<nat>, evicted: seq<nat>) {
    && (forall n: nat :: n < inserted <==> n in tracked || n in completed || n in evicted)
    && (forall n | n in tracked :: n !in completed && n !in evicted)
    && (forall n | n in completed :: n !in evicted)
  }

  // Tracked requests stand in the order of their insertion, and whatever was evicted was inserted before all of them.
  ghost predicate OldestFirst(tracked: seq<nat>, evicted: seq<nat>) {
    && Rising(tracked) && Rising(evicted)
    && (forall e, t | e in evicted && t in tracked :: e < t)
  }

  ghost predicate PendingHolds(s: Session) {
    var b, l := s.buffers, s.ledger;
    && |l.tracked| == |b.pending| <= MAX_PENDING
    && (forall i | 0 <= i < |b.pending| ::
          l.tracked[i] < |l.inserted| && l.inserted[l.tracked[i]] == b.pending[i].request)
    && (forall i, j | 0 <= i < j < |b.pending| :: b.pending[i].request != b.pending[j].request)
    && Accounted(|l.inserted|, l.tracked, l.completed, l.evicted)
    && OldestFirst(l.tracked, l.evicted)
    && b.evicted == |l.evicted|
  }

  ghost predicate Holds(s: Session) {
    BufferHolds(s) && PendingHolds(s)
  }

  lemma RecordHolds(s: Session, event: Event)
    requires Holds(s)
    ensures Holds(Record(s, event))
  {
  }

  lemma RisingSnoc(s: seq<nat>, x: nat)
    requires Rising(s) && forall n | n in s :: n < x
    ensures Rising(s + [x])
  {
    forall i | 0 <= i < |s| ensures s[i] < x {
      assert s[i] in s;
    }
  }

  lemma EvictionAccounts(inserted: nat, tracked: seq<nat>, completed: set<nat>, evicted: seq<nat>)
    requires Accounted(inserted, tracked, completed, evicted) && OldestFirst(tracked, evicted) && |tracked| > 0
    ensures Accounted(inserted, tracked[1..], completed, evicted + [tracked[0]])
    ensures OldestFirst(tracked[1..], evicted + [tracked[0]])
  {
    assert tracked[0] in tracked;
    assert forall n :: n in tracked <==> n == tracked[0] || n in tracked[1..];
    assert forall n :: n in evicted + [tracked[0]] <==> n in evicted || n == tracked[0];
    RisingSnoc(evicted, tracked[0]);
  }

  lemma InsertionAccounts(inserted: nat, tracked: seq<nat>, completed: set<nat>, evicted: seq<nat>)
    requires Accounted(inserted, tracked, completed, evicted) && OldestFirst(tracked, evicted)
    ensures Accounted(inserted + 1, tracked + [inserted], completed, evicted)
    ensures OldestFirst(tracked + [inserted], evicted)
  {
    RisingSnoc(tracked, inserted);
  }

  lemma CompletionAccounts(inserted: nat, tracked: seq<nat>, completed: set<nat>, evicted: seq<nat>, k: nat)
    requires Accounted(inserted, tracked, completed, evicted) && OldestFirst(tracked, evicted) && k < |tracked|
    ensures Accounted(inserted, Without(tracked, k), completed + {tracked[k]}, evicted)
    ensures OldestFirst(Without(tracked, k), evicted)
  {
    assert tracked == tracked[..k] + [tracked[k]] + tracked[k + 1..];
  }

  lemma TrackHolds(s: Session, request: Request, phase: string, at: int)
    requires Holds(s)
    ensures Holds(Track(s, request, phase, at))
  {
    hide Accounted, OldestFirst, BufferHolds;
    var l := s.ledger;
    RecordingIsUntouched(s, request, phase, at);
    if Position(s.buffers.pending, request) == |s.buffers.pending| {
      if |s.buffers.pending| == MAX_PENDING {
        EvictionAccounts(|l.inserted|, l.tracked, l.completed, l.evicted);
        InsertionAccounts(|l.inserted|, l.tracked[1..], l.completed, l.evicted + [l.tracked[0]]);
      } else {
        InsertionAccounts(|l.inserted|, l.tracked, l.completed, l.evicted);
      }
    }
  }

  lemma RecordingIsUntouched(s: Session, request: Request, phase: string, at: int)
    requires |s.ledger.tracked| == |s.buffers.pending| && BufferHolds(s)
    ensures BufferHolds(Track(s, request, phase, at))
  {
  }

  lemma UntrackHolds(s: Session, k: nat)
    requires Holds(s) && k < |s.buffers.pending|
    ensures Holds(Untrack(s, k))
  {
    var l := s.ledger;
    CompletionAccounts(|l.inserted|, l.tracked, l.completed, l.evicted, k);
    hide Accounted, OldestFirst;
  }

  lemma StepHolds(s: Session, input: Input)
    requires Holds(s)
    ensures Holds(Step(s, input))
  {
    hide BufferHolds, Accounted, OldestFirst, Record, Track, Untrack;
    match input
    case OnRequest(request, phase, first, second) =>
      if phase.Some? {
        TrackHolds(s, request, phase.value, first);
        RecordHolds(Track(s, request, phase.value, first),
                    Event("request", phase.value, Elapsed(second, s.started), None, None));
      }
    case OnResponse(request, status, first, second) =>
      var k := Position(s.buffers.pending, request);
      if k < |s.buffers.pending| {
        var entry := s.buffers.pending[k];
        RecordHolds(s, Event("response", entry.phase, Elapsed(second, s.started), Some(status),
                             Some(Elapsed(first, entry.at))));
      }
    case OnComplete(request, event, first, second) =>
      var k := Position(s.buffers.pending, request);
      if k < |s.buffers.pending| {
        var entry := s.buffers.pending[k];
        var row := Event(event, entry.phase, Elapsed(second, s.started), None, Some(Elapsed(first, entry.at)));
        RecordHolds(s, row);
        RecordKeepsPending(s, row);
        UntrackHolds(Record(s, row), k);
      }
    case OnPage(event, first) => RecordHolds(s, Event(event, "browser", Elapsed(first, s.started), None, None));
    case OnMark(value, first) => RecordHolds(s, Event("milestone", value, Elapsed(first, s.started), None, None));
    case OnFinish => FinishHolds(s);
  }

  lemma RecordKeepsPending(s: Session, event: Event)
    ensures Record(s, event).buffers.pending == s.buffers.pending
    ensures Record(s, event).ledger.tracked == s.ledger.tracked
  {
  }

  lemma FinishHolds(s: Session)
    requires Holds(s)
    ensures Holds(s.(buffers := s.buffers.(finished := true)))
  {
  }

  function Run(s: Session, inputs: seq<Input>): Session
    requires Holds(s)
    decreases |inputs|
  {
    if inputs == [] then s
    else
      StepHolds(s, inputs[0]);
      Run(Step(s, inputs[0]), inputs[1..])
  }

  /** Over any run, the buffer is the last 128 of everything recorded and `dropped` counts the rest; at most 32 requests
      are pending, in the order of their insertion; and every insertion is pending, completed or evicted, exactly once,
      the oldest evicted first. */
  lemma RunHolds(started: int, inputs: seq<Input>)
    ensures var s := Session(started, NO_BUFFERS, NO_LEDGER); Holds(s) && Holds(Run(s, inputs))
  {
    RunHoldsFrom(Session(started, NO_BUFFERS, NO_LEDGER), inputs);
  }

  lemma {:induction false} RunHoldsFrom(s: Session, inputs: seq<Input>)
    requires Holds(s)
    ensures Holds(Run(s, inputs))
    decreases |inputs|
  {
    if inputs != [] {
      hide Holds, Step;
      StepHolds(s, inputs[0]);
      RunHoldsFrom(Step(s, inputs[0]), inputs[1..]);
    }
  }

  /** Insertions are conserved: as many as are pending, were completed and were evicted. */
  lemma InsertionsAreConserved(s: Session)
    requires Holds(s)
    ensures |s.ledger.inserted| == |s.buffers.pending| + |s.ledger.completed| + s.buffers.evicted
  {
    var l := s.ledger;
    var tracked, evicted := set n | n in l.tracked, set n | n in l.evicted;
    RisingIsASet(l.tracked, tracked);
    RisingIsASet(l.evicted, evicted);
    CountingUp(|l.inserted|, tracked + l.completed + evicted);
    assert tracked !! l.completed && (tracked + l.completed) !! evicted;
  }

  lemma {:induction false} RisingIsASet(s: seq<nat>, elements: set<nat>)
    requires Rising(s) && forall n :: n in elements <==> n in s
    ensures |elements| == |s|
  {
    if s == [] {
      assert elements == {};
    } else {
      var last := s[|s| - 1];
      var before := s[..|s| - 1];
      assert s == before + [last];
      assert last !in before;
      RisingIsASet(before, elements - {last});
    }
  }

  lemma {:induction false} CountingUp(n: nat, numbers: set<nat>)
    requires forall k: nat :: k in numbers <==> k < n
    ensures |numbers| == n
  {
    if n == 0 {
      assert numbers == {};
    } else {
      CountingUp(n - 1, numbers - {n - 1});
    }
  }

  /** After `finish` nothing more is recorded; tracking goes on. */
  lemma {:induction false} FinishedRecordsNothing(s: Session, inputs: seq<Input>)
    requires Holds(s) && s.buffers.finished
    ensures var after := Run(s, inputs);
            && after.buffers.finished && after.ledger.recorded == s.ledger.recorded
            && after.buffers.events == s.buffers.events && after.buffers.dropped == s.buffers.dropped
    decreases |inputs|
  {
    if inputs != [] {
      StepHolds(s, inputs[0]);
      hide Holds;
      FinishedRecordsNothing(Step(s, inputs[0]), inputs[1..]);
    }
  }

  /** The buffer is the last 128 of everything recorded, and the rest are counted as dropped. */
  lemma BufferIsTheLast128(s: Session)
    requires Holds(s)
    ensures var all := s.ledger.recorded;
            && s.buffers.events == (if |all| <= 128 then all else all[|all| - 128..])
            && s.buffers.dropped == if |all| <= 128 then 0 else |all| - 128
  {
  }

  /** Finishing keeps what there is, and whatever the page reports afterwards is no longer recorded. */
  lemma NothingAfterFinish(s: Session, inputs: seq<Input>)
    requires Holds(s)
    ensures Holds(Step(s, OnFinish)) && Step(s, OnFinish).buffers == s.buffers.(finished := true)
    ensures var after := Run(Step(s, OnFinish), inputs);
            after.buffers.events == s.buffers.events && after.buffers.dropped == s.buffers.dropped
  {
    FinishHolds(s);
    FinishedRecordsNothing(Step(s, OnFinish), inputs);
  }

  // ---- What one input leaves ----

  // From one clock reading to another; nothing if the clock went back.
  predicate Took(ms: nat, since: int, now: int) {
    ms == now - since || (ms == 0 && now < since)
  }

  // One event more, taken at `now`, with what it says beside its time.
  predicate Recorded(s: Session, after: Session, event: string, phase: string, now: int, status: Option<int>) {
    && |after.ledger.recorded| == |s.ledger.recorded| + 1 && s.ledger.recorded <= after.ledger.recorded
    && var row := after.ledger.recorded[|s.ledger.recorded|];
       row.event == event && row.phase == phase && row.status == status && Took(row.ms, s.started, now)
  }

  function LastElapsed(after: Session): Option<nat>
    requires after.ledger.recorded != []
  {
    after.ledger.recorded[|after.ledger.recorded| - 1].elapsedMs
  }

  /** A classified request is recorded at the second clock reading and tracked from the first: again in its old place, at
      the end while there is room, or at the end after the oldest of 32 is dropped and counted. */
  lemma RequestLeaves(s: Session, request: Request, phase: string, first: int, second: int)
    requires Holds(s) && !s.buffers.finished
    ensures var after := Step(s, OnRequest(request, Some(phase), first, second));
            var pending, entry := s.buffers.pending, Entry(request, phase, first);
            && Recorded(s, after, "request", phase, second, None) && LastElapsed(after) == None
            && (forall k | 0 <= k < |pending| && pending[k].request == request ::
                  after.buffers.pending == pending[k := entry] && after.buffers.evicted == s.buffers.evicted)
            && ((forall k | 0 <= k < |pending| :: pending[k].request != request) ==>
                  if |pending| < 32 then
                    after.buffers.pending == pending + [entry] && after.buffers.evicted == s.buffers.evicted
                  else after.buffers.pending == pending[1..] + [entry] && after.buffers.evicted == s.buffers.evicted + 1)
  {
    hide Accounted, OldestFirst, BufferHolds;
  }

  /** The response or the end of a tracked request is recorded with its class and the time since it was last seen to start;
      the end untracks it, and nothing else does. */
  lemma TrackedLeaves(s: Session, k: nat, status: int, event: string, first: int, second: int)
    requires Holds(s) && !s.buffers.finished && k < |s.buffers.pending|
    ensures var pending := s.buffers.pending;
            var responded := Step(s, OnResponse(pending[k].request, status, first, second));
            var completed := Step(s, OnComplete(pending[k].request, event, first, second));
            && Recorded(s, responded, "response", pending[k].phase, second, Some(status))
            && Recorded(s, completed, event, pending[k].phase, second, None)
            && LastElapsed(responded).Some? && Took(LastElapsed(responded).value, pending[k].at, first)
            && LastElapsed(completed).Some? && Took(LastElapsed(completed).value, pending[k].at, first)
            && responded.buffers.pending == pending && completed.buffers.pending == pending[..k] + pending[k + 1..]
            && responded.buffers.evicted == completed.buffers.evicted == s.buffers.evicted
  {
    hide Accounted, OldestFirst, BufferHolds;
    assert Position(s.buffers.pending, s.buffers.pending[k].request) == k;
  }

  /** Requests that are not classified or not tracked, and marks that are no milestone, leave everything as it was; page
      events and milestones are recorded and leave the tracked requests alone. */
  lemma OtherInputsLeave(s: Session, request: Request, status: int, event: string, first: int, second: int)
    requires Holds(s) && !s.buffers.finished
    ensures Step(s, OnRequest(request, None, first, second)) == s
    ensures (forall k | 0 <= k < |s.buffers.pending| :: s.buffers.pending[k].request != request) ==>
              Step(s, OnResponse(request, status, first, second)) == s == Step(s, OnComplete(request, event, first, second))
    ensures var paged := Step(s, OnPage(event, first));
            Recorded(s, paged, event, "browser", first, None) && LastElapsed(paged) == None
            && paged.buffers.pending == s.buffers.pending
    ensures var marked := Step(s, OnMark(event, first));
            if event in {"template", "pdf_download", "monitored", "keyed"} then
              Recorded(s, marked, "milestone", event, first, None) && LastElapsed(marked) == None
              && marked.buffers.pending == s.buffers.pending
            else marked == s
  {
    hide Accounted, OldestFirst, BufferHolds;
  }

  // ---- The recorder as it runs ----

  class Recorder {
    const started: int
    var pending: seq<Entry>
    var events: seq<Event>
    var droppedEvents: nat
    var evictedRequests: nat
    var finished: bool
    ghost var ledger: Ledger

    ghost function State(): Session
      reads this
    {
      Session(started, Buffers(pending, events, droppedEvents, evictedRequests, finished), ledger)
    }

    constructor (started: int)
      ensures State() == Session(started, NO_BUFFERS, NO_LEDGER) && Holds(State())
    {
      this.started := started;
      pending, events, droppedEvents, evictedRequests, finished := [], [], 0, 0, false;
      ledger := NO_LEDGER;
    }

    method RecordEvent(event: string, phase: string, status: Option<int>, elapsedMs: Option<nat>, now: int)
      modifies this
      ensures State() == Record(old(State()), Event(event, phase, Elapsed(now, started), status, elapsedMs))
    {
      if finished {
        return;
      }
      if |events| == MAX_EVENTS {
        events := events[1..];
        droppedEvents := droppedEvents + 1;
      }
      var row := Event(event, phase, Elapsed(now, started), status, elapsedMs);
      events := events + [row];
      ledger := ledger.(recorded := ledger.recorded + [row]);
    }

    method Request(request: Request, phase: Option<string>, first: int, second: int)
      requires Holds(State())
      modifies this
      ensures State() == Step(old(State()), OnRequest(request, phase, first, second)) && Holds(State())
    {
      StepHolds(State(), OnRequest(request, phase, first, second));
      hide Accounted, OldestFirst, BufferHolds;
      if phase.None? {
        return;
      }
      var k := Position(pending, request);
      if k < |pending| {
        pending := pending[k := Entry(request, phase.value, first)];
      } else {
        if |pending| == MAX_PENDING {
          ledger := ledger.(tracked := ledger.tracked[1..], evicted := ledger.evicted + [ledger.tracked[0]]);
          pending := pending[1..];
          evictedRequests := evictedRequests + 1;
        }
        ledger := ledger.(inserted := ledger.inserted + [request], tracked := ledger.tracked + [|ledger.inserted|]);
        pending := pending + [Entry(request, phase.value, first)];
      }
      RecordEvent("request", phase.value, None, None, second);
    }

    method Response(request: Request, status: int, first: int, second: int)
      requires Holds(State())
      modifies this
      ensures State() == Step(old(State()), OnResponse(request, status, first, second)) && Holds(State())
    {
      StepHolds(State(), OnResponse(request, status, first, second));
      var k := Position(pending, request);
      if k < |pending| {
        RecordEvent("response", pending[k].phase, Some(status), Some(Elapsed(first, pending[k].at)), second);
      }
    }

    method Complete(request: Request, event: string, first: int, second: int)
      requires Holds(State())
      modifies this
      ensures State() == Step(old(State()), OnComplete(request, event, first, second)) && Holds(State())
    {
      StepHolds(State(), OnComplete(request, event, first, second));
      hide Accounted, OldestFirst, BufferHolds;
      var k := Position(pending, request);
      if k < |pending| {
        RecordEvent(event, pending[k].phase, None, Some(Elapsed(first, pending[k].at)), second);
        ledger := ledger.(tracked := Without(ledger.tracked, k), completed := ledger.completed + {ledger.tracked[k]});
        pending := Without(pending, k);
      }
    }

    // What is written out, if anything: a run that passed or was skipped leaves no line, nor does a second call.
    method Finish(status: string) returns (report: Option<Buffers>)
      requires Holds(State())
      modifies this
      ensures State() == Step(old(State()), OnFinish) && Holds(State())
      ensures report == if old(finished) || status in ["passed", "skipped"] then None else Some(State().buffers)
    {
      StepHolds(State(), OnFinish);
      if finished {
        return None;
      }
      finished := true;
      if status in ["passed", "skipped"] {
        return None;
      }
      return Some(Buffers(pending, events, droppedEvents, evictedRequests, finished));
    }
  }
}
