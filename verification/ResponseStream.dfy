/** The streaming side of the response protocol: parser callbacks append body chunks
    while one consumer drains them. Callbacks and the consumer's resumptions may
    interleave in any order. */
module ResponseStream {
  import opened Collections

  type Byte = b: int | 0 <= b < 256
  type Bytes = seq<Byte>

  /** The body part of the protocol object. A parser that has failed once calls back no
      more: its state `broken` is apart from the recorded failure, which a connection
      loss overwrites. */
  datatype Body = Body(
    streaming: bool,
    buffered: seq<Bytes>,     // chunks that came before a consumer did
    stream: seq<Bytes>,       // chunks for the consumer
    event: bool,
    complete: bool,
    lost: bool,
    failed: bool,
    broken: bool)

  const EMPTY := Body(false, [], [], false, false, false, false, false)

  function OnBody(b: Body, chunk: Bytes): Body {
    if b.streaming then b.(stream := b.stream + [chunk], event := true)
    else b.(buffered := b.buffered + [chunk])
  }

  function SignalEnd(b: Body): Body {
    if b.streaming then b.(event := true) else b
  }

  /** One stretch of the consumer: the body it leaves, the batches it yields, and
      whether it has returned (otherwise it awaits the event). */
  datatype Turn = Turn(body: Body, batches: seq<seq<Bytes>>, returned: bool)

  function Drain(b: Body): Turn {
    var drained := b.(stream := []);
    var batches := if b.stream == [] then [] else [b.stream];
    if b.complete || b.lost then Turn(drained, batches, true)
    else Turn(drained.(event := false), batches, false)
  }

  function Begin(b: Body): Turn {
    var started := b.(streaming := true, buffered := []);
    var batches := if b.buffered == [] then [] else [b.buffered];
    if b.complete then Turn(started, batches, true)
    else var rest := Drain(started); rest.(batches := batches + rest.batches)
  }

  /** A consumer that suspends after a batch has taken that many of the pending chunks. */
  datatype Consumer = NotStarted | Waiting | Suspended(taken: nat) | Returned

  /** Protocol, consumer, everything yielded and everything the parser delivered. */
  datatype Exchange = Exchange(body: Body, consumer: Consumer, yielded: seq<seq<Bytes>>, received: seq<Bytes>)

  datatype Event =
    | BodyChunk(chunk: Bytes)
    | MessageComplete
    | ConnectionLost(error: bool)
    | EndOfFile
    | ParseError
    | Iterate        // the consumer starts iterating
    | Wake           // the event it awaits has been set; it asks for the next batch at once
    | HandOut        // the same, but it suspends while it has the batch
    | PickUp         // and then asks for the next one

  predicate Possible(x: Exchange, e: Event) {
    match e
    case BodyChunk(_) => !x.body.broken
    case MessageComplete => !x.body.broken
    case Iterate => x.consumer.NotStarted?
    case Wake => x.consumer.Waiting? && x.body.event
    case HandOut => x.consumer.Waiting? && x.body.event && x.body.stream != []
    case PickUp => x.consumer.Suspended?
    case _ => true
  }

  function Took(x: Exchange, t: Turn): Exchange {
    x.(body := t.body, yielded := x.yielded + t.batches, consumer := if t.returned then Returned else Waiting)
  }

  function Step(x: Exchange, e: Event): Exchange {
    match e
    case BodyChunk(chunk) => x.(body := OnBody(x.body, chunk), received := x.received + [chunk])
    case MessageComplete => x.(body := SignalEnd(x.body.(complete := true)))
    case ConnectionLost(error) => x.(body := SignalEnd(x.body.(lost := true, failed := error)))
    case EndOfFile => x.(body := SignalEnd(x.body.(lost := true)))
    case ParseError => x.(body := x.body.(failed := true, broken := true))
    case Iterate => Took(x, Begin(x.body))
    case Wake => Took(x, Drain(x.body))
    case HandOut => x.(yielded := x.yielded + [x.body.stream], consumer := Suspended(|x.body.stream|))
    case PickUp => Took(x, Drain(x.body.(stream := [])))
  }

  predicate Runs(x: Exchange, events: seq<Event>)
    decreases |events|
  {
    events == [] || (Possible(x, events[0]) && Runs(Step(x, events[0]), events[1..]))
  }

  function After(x: Exchange, events: seq<Event>): Exchange
    requires Runs(x, events)
    decreases |events|
  {
    if events == [] then x else After(Step(x, events[0]), events[1..])
  }

  const START := Exchange(EMPTY, NotStarted, [], [])

  /** A consumer that has something to do is never left asleep. */
  ghost predicate InOrder(x: Exchange) {
    && (x.consumer.NotStarted? <==> !x.body.streaming)
    && (x.consumer.NotStarted? ==> x.body.stream == [] && x.yielded == [])
    && (!x.consumer.NotStarted? ==> x.body.buffered == [])
    && (x.consumer.Waiting? && (x.body.stream != [] || x.body.complete || x.body.lost) ==> x.body.event)
    && (x.consumer.Suspended? ==> x.consumer.taken <= |x.body.stream|)
  }

  /** The chunks delivered and not yielded yet. */
  function Pending(x: Exchange): seq<Bytes> {
    if x.consumer.Suspended? && x.consumer.taken <= |x.body.stream| then x.body.stream[x.consumer.taken..]
    else x.body.buffered + x.body.stream
  }

  /** What has been yielded and what is pending, in a row. */
  function Delivered(x: Exchange): seq<Bytes> {
    Flatten(x.yielded) + Pending(x)
  }

  /** What the parser delivered is what was yielded, then what is still pending. */
  ghost predicate Conserved(x: Exchange) {
    Delivered(x) == x.received
  }

  /** The chunks a step throws away: those that came while the consumer was suspended
      with the list they were appended to. */
  function Spill(x: Exchange, e: Event): nat {
    if e.PickUp? then |Pending(x)| else 0
  }

  function Spilled(x: Exchange, events: seq<Event>): nat
    requires Runs(x, events)
    decreases |events|
  {
    if events == [] then 0 else Spill(x, events[0]) + Spilled(Step(x, events[0]), events[1..])
  }

  lemma DrainYieldsStream(b: Body)
    ensures Flatten(Drain(b).batches) == b.stream
  {
    assert b.stream != [] ==> Drain(b).batches[1..] == [];
  }

  lemma BeginYieldsAll(b: Body)
    requires b.stream == []
    ensures Flatten(Begin(b).batches) == b.buffered
  {
    var batches := if b.buffered == [] then [] else [b.buffered];
    assert batches + [] == batches;
    assert b.buffered != [] ==> batches[1..] == [];
  }

  lemma StepKeepsOrder(x: Exchange, e: Event)
    requires InOrder(x) && Possible(x, e)
    ensures InOrder(Step(x, e)) && x.yielded <= Step(x, e).yielded
  {
  }

  lemma ChunkIsPending(x: Exchange, chunk: Bytes)
    requires InOrder(x)
    ensures Pending(Step(x, BodyChunk(chunk))) == Pending(x) + [chunk]
  {
    if x.consumer.NotStarted? { assert x.body.buffered + [chunk] + [] == x.body.buffered + [] + [chunk]; }
  }

  lemma IterateYields(x: Exchange)
    requires InOrder(x) && x.consumer.NotStarted?
    ensures Delivered(Step(x, Iterate)) == Delivered(x)
  {
    var batches := Begin(x.body).batches;
    BeginYieldsAll(x.body);
    assert x.yielded + batches == batches;
    assert Pending(Step(x, Iterate)) == [] && Pending(x) == x.body.buffered;
  }

  lemma WakeYields(x: Exchange)
    requires InOrder(x) && x.consumer.Waiting?
    ensures Delivered(Step(x, Wake)) == Delivered(x)
  {
    DrainYieldsStream(x.body);
    FlattenConcat(x.yielded, Drain(x.body).batches);
    assert Pending(Step(x, Wake)) == [] && Pending(x) == x.body.stream;
  }

  lemma HandOutYields(x: Exchange)
    requires InOrder(x) && x.consumer.Waiting?
    ensures Delivered(Step(x, HandOut)) == Delivered(x)
  {
    FlattenAppend(x.yielded, x.body.stream);
    assert Pending(Step(x, HandOut)) == [] && Pending(x) == x.body.stream;
  }

  /** What a step hands over, and what it throws away. */
  lemma StepYields(x: Exchange, e: Event)
    requires InOrder(x) && Possible(x, e)
    ensures var y := Step(x, e);
      match e
      case BodyChunk(chunk) =>
        y.yielded == x.yielded && Pending(y) == Pending(x) + [chunk] && y.received == x.received + [chunk]
      case PickUp => y.yielded == x.yielded && Pending(y) == [] && y.received == x.received
      case _ => Delivered(y) == Delivered(x) && y.received == x.received
  {
    match e
    case Iterate => IterateYields(x);
    case Wake => WakeYields(x);
    case HandOut => HandOutYields(x);
    case BodyChunk(chunk) => ChunkIsPending(x, chunk);
    case PickUp => assert x.yielded + [] == x.yielded;
    case _ =>
  }

  /** Every step conserves the chunks, except picking up a list that has grown. */
  lemma StepConservesExactlyWhen(x: Exchange, e: Event)
    requires InOrder(x) && Conserved(x) && Possible(x, e)
    ensures Conserved(Step(x, e)) <==> Spill(x, e) == 0
  {
    StepYields(x, e);
    var y := Step(x, e);
    if e.BodyChunk? {
      assert Flatten(x.yielded) + (Pending(x) + [e.chunk]) == Flatten(x.yielded) + Pending(x) + [e.chunk];
    } else if e.PickUp? {
      assert |Flatten(x.yielded) + Pending(x)| == |Flatten(x.yielded)| + |Pending(x)|;
    }
  }

  /** Over a run: chunks yielded, pending and thrown away add up to those delivered,
      and nothing is out of order as long as none is thrown away. */
  lemma {:induction false} RunsAccount(x: Exchange, events: seq<Event>)
    requires InOrder(x) && Runs(x, events)
    ensures var y := After(x, events);
      && InOrder(y) && x.yielded <= y.yielded
      && |y.received| - |Flatten(y.yielded)| - |Pending(y)|
         == |x.received| - |Flatten(x.yielded)| - |Pending(x)| + Spilled(x, events)
      && (Conserved(x) && Spilled(x, events) == 0 ==> Conserved(y))
    decreases |events|
  {
    if events != [] {
      var e := events[0];
      StepKeepsOrder(x, e);
      StepAccounts(x, e);
      if Conserved(x) { StepConservesExactlyWhen(x, e); }
      RunsAccount(Step(x, e), events[1..]);
    }
  }

  lemma StepAccounts(x: Exchange, e: Event)
    requires InOrder(x) && Possible(x, e)
    ensures var y := Step(x, e);
      |y.received| - |Flatten(y.yielded)| - |Pending(y)|
      == |x.received| - |Flatten(x.yielded)| - |Pending(x)| + Spill(x, e)
  {
    StepYields(x, e);
    var y := Step(x, e);
    assert |Flatten(y.yielded) + Pending(y)| == |Flatten(y.yielded)| + |Pending(y)|;
    assert |Flatten(x.yielded) + Pending(x)| == |Flatten(x.yielded)| + |Pending(x)|;
  }

  /** In every interleaving, suspending or not: the chunks yielded and then those pending
      are the chunks delivered, in order, exactly when no list had grown while the
      consumer was suspended with it; what is missing otherwise is what came meanwhile. A
      sleeping consumer whose event is not set has nothing to deliver or to wait out. */
  lemma NothingLostExactlyWhen(events: seq<Event>)
    requires Runs(START, events)
    ensures var x := After(START, events);
      && |Flatten(x.yielded)| + |Pending(x)| + Spilled(START, events) == |x.received|
      && (Conserved(x) <==> Spilled(START, events) == 0)
      && (Conserved(x) ==> Flatten(x.yielded) <= x.received)
      && (x.consumer.Waiting? && !x.body.event ==> Pending(x) == [] && !x.body.complete && !x.body.lost)
  {
    RunsAccount(START, events);
    var x := After(START, events);
    assert |Flatten(x.yielded) + Pending(x)| == |Flatten(x.yielded)| + |Pending(x)|;
  }

  /** The consumer asks for the next batch without suspending. */
  ghost predicate Eager(events: seq<Event>) {
    forall k :: 0 <= k < |events| ==> !events[k].HandOut?
  }

  lemma {:induction false} EagerSpillsNothing(x: Exchange, events: seq<Event>)
    requires Runs(x, events) && Eager(events) && !x.consumer.Suspended?
    ensures Spilled(x, events) == 0 && !After(x, events).consumer.Suspended?
    decreases |events|
  {
    if events != [] {
      assert !events[0].HandOut? && !events[0].PickUp?;
      assert forall k :: 0 <= k < |events[1..]| ==> events[1..][k] == events[k + 1];
      EagerSpillsNothing(Step(x, events[0]), events[1..]);
    }
  }

  /** The consumer returns only at an end of message or connection, and an eager one has
      yielded everything delivered so far. */
  lemma ReturnsWithEverything(events: seq<Event>, last: Event)
    requires Runs(START, events) && Possible(After(START, events), last)
    requires !After(START, events).consumer.Returned? && Step(After(START, events), last).consumer.Returned?
    ensures var y := Step(After(START, events), last);
      && (y.body.complete || y.body.lost)
      && (Eager(events) ==> Flatten(y.yielded) == y.received)
  {
    RunsAccount(START, events);
    var x := After(START, events);
    StepKeepsOrder(x, last);
    if Eager(events) {
      EagerSpillsNothing(START, events);
      StepConservesExactlyWhen(x, last);
      assert Pending(Step(x, last)) == [];
    }
  }

  // ---- when the consumer returns ----

  predicate Resumes(e: Event) {
    e.Iterate? || e.Wake? || e.PickUp?
  }

  /** A resumed consumer returns exactly when the message or the connection has ended.
      Otherwise it has taken everything and sleeps, its event cleared. No batch is empty,
      and one that waited gets all pending chunks in one batch. */
  lemma ReturnsExactlyWhen(x: Exchange, e: Event)
    requires InOrder(x) && Possible(x, e) && Resumes(e)
    ensures var y := Step(x, e);
      && (y.consumer.Returned? <==> x.body.complete || x.body.lost)
      && (!y.consumer.Returned? ==> y.consumer.Waiting? && !y.body.event && y.body.streaming && Pending(y) == [])
      && (forall k :: |x.yielded| <= k < |y.yielded| ==> y.yielded[k] != [])
      && (e.Wake? ==> y.yielded == x.yielded + if Pending(x) == [] then [] else [Pending(x)])
  {
    if e.Wake? { assert [] + x.body.stream == x.body.stream; }
  }

  predicate Ends(e: Event) {
    e.ConnectionLost? || e.EndOfFile?
  }

  predicate AnyEnds(events: seq<Event>) {
    exists k :: 0 <= k < |events| && Ends(events[k])
  }

  predicate AnyCompletes(events: seq<Event>) {
    exists k :: 0 <= k < |events| && events[k].MessageComplete?
  }

  predicate AnyFails(events: seq<Event>) {
    exists k :: 0 <= k < |events| && events[k].ParseError?
  }

  lemma AnyFlagOfRest(events: seq<Event>)
    requires events != []
    ensures AnyEnds(events) <==> Ends(events[0]) || AnyEnds(events[1..])
    ensures AnyCompletes(events) <==> events[0].MessageComplete? || AnyCompletes(events[1..])
    ensures AnyFails(events) <==> events[0].ParseError? || AnyFails(events[1..])
  {
    var rest := events[1..];
    assert forall k :: 0 <= k < |rest| ==> rest[k] == events[k + 1];
    assert forall k :: 0 < k < |events| ==> events[k] == rest[k - 1];
  }

  lemma FlagsOfStep(x: Exchange, e: Event)
    ensures var y := Step(x, e);
      && (y.body.complete <==> x.body.complete || e.MessageComplete?) && (y.body.lost <==> x.body.lost || Ends(e))
      && (Unfit(y.body) <==> Unfit(x.body) || Ends(e) || e.ParseError?)
      && (y.body.broken <==> x.body.broken || e.ParseError?)
  {
    match e
    case Iterate => assert Step(x, e).body == Begin(x.body).body;
    case Wake => assert Step(x, e).body == Drain(x.body).body;
    case PickUp => assert Step(x, e).body == Drain(x.body.(stream := [])).body;
    case _ =>
  }

  /** Whatever the response's headers say, the connection is not to be used again. */
  predicate Unfit(b: Body) {
    b.lost || b.failed
  }

  /** The message is complete, or the connection lost, exactly when a callback has said so;
      a connection is unfit for reuse exactly after a parser failure or a loss. */
  lemma {:induction false} FlagsExactlyWhen(x: Exchange, events: seq<Event>)
    requires Runs(x, events)
    ensures var y := After(x, events);
      && (y.body.complete <==> x.body.complete || AnyCompletes(events))
      && (y.body.lost <==> x.body.lost || AnyEnds(events))
      && (Unfit(y.body) <==> Unfit(x.body) || AnyEnds(events) || AnyFails(events))
      && (y.body.broken <==> x.body.broken || AnyFails(events))
    decreases |events|
  {
    if events != [] {
      AnyFlagOfRest(events);
      FlagsOfStep(x, events[0]);
      FlagsExactlyWhen(Step(x, events[0]), events[1..]);
    }
  }

  /** Every chunk a parser delivered, in order. */
  function Chunks(events: seq<Event>): seq<Bytes> {
    if events == [] then []
    else (match events[0] case BodyChunk(chunk) => [chunk] case _ => []) + Chunks(events[1..])
  }

  lemma {:induction false} ReceivedExactly(x: Exchange, events: seq<Event>)
    requires Runs(x, events)
    ensures After(x, events).received == x.received + Chunks(events)
    decreases |events|
  {
    if events != [] {
      ReceivedExactly(Step(x, events[0]), events[1..]);
      match events[0]
      case BodyChunk(chunk) => ConcatAssociates(x.received, [chunk], Chunks(events[1..]));
      case _ => assert [] + Chunks(events[1..]) == Chunks(events[1..]);
    }
  }

  // ---- what wakes a sleeping consumer ----

  predicate Wakes(e: Event) {
    e.BodyChunk? || e.MessageComplete? || Ends(e)
  }

  predicate AnyWakes(events: seq<Event>) {
    exists k :: 0 <= k < |events| && Wakes(events[k])
  }

  ghost predicate Callbacks(events: seq<Event>) {
    forall k :: 0 <= k < |events| ==> !events[k].Wake? && !events[k].HandOut?
  }

  lemma AnyOfRest(events: seq<Event>)
    requires events != []
    ensures AnyWakes(events) <==> Wakes(events[0]) || AnyWakes(events[1..])
    ensures AnyEnds(events) <==> Ends(events[0]) || AnyEnds(events[1..])
    ensures Callbacks(events) <==> !events[0].Wake? && !events[0].HandOut? && Callbacks(events[1..])
  {
    var rest := events[1..];
    assert forall k :: 0 <= k < |rest| ==> rest[k] == events[k + 1];
    assert forall k :: 0 < k < |events| ==> events[k] == rest[k - 1];
  }

  /** A callback while the consumer waits. */
  lemma CallbackWakes(x: Exchange, e: Event)
    requires x.consumer.Waiting? && x.body.streaming && Possible(x, e) && !e.Wake? && !e.HandOut?
    ensures var y := Step(x, e);
      && y.consumer.Waiting? && y.body.streaming
      && (y.body.event <==> x.body.event || Wakes(e)) && (y.body.lost <==> x.body.lost || Ends(e))
  {
  }

  /** Until it wakes, a waiting consumer can be woken exactly when its event was set or
      one of the callbacks since sets it. */
  lemma {:induction false} WakesExactlyWhen(x: Exchange, rest: seq<Event>)
    requires x.consumer.Waiting? && x.body.streaming && Runs(x, rest) && Callbacks(rest)
    ensures var y := After(x, rest);
      && y.consumer.Waiting? && y.body.streaming
      && (Possible(y, Wake) <==> x.body.event || AnyWakes(rest))
      && (y.body.lost <==> x.body.lost || AnyEnds(rest))
    decreases |rest|
  {
    if rest != [] {
      AnyOfRest(rest);
      CallbackWakes(x, rest[0]);
      WakesExactlyWhen(Step(x, rest[0]), rest[1..]);
    }
  }

  /** A parser that has failed delivers nothing more, so only an end can still wake. */
  lemma {:induction false} BrokenDeliversNothing(x: Exchange, rest: seq<Event>)
    requires x.body.broken && Runs(x, rest)
    ensures After(x, rest).received == x.received
    ensures AnyWakes(rest) <==> AnyEnds(rest)
    decreases |rest|
  {
    if rest != [] {
      AnyOfRest(rest);
      var y := Step(x, rest[0]);
      assert y.body.broken && y.received == x.received && !rest[0].BodyChunk? && !rest[0].MessageComplete?;
      BrokenDeliversNothing(y, rest[1..]);
    }
  }

  /** A parser failure wakes nobody: a consumer asleep when it happens sleeps through
      every further callback exactly until the connection is lost or ended, and then
      returns with everything delivered. */
  lemma ParseErrorSleepsExactlyUntilLoss(events: seq<Event>, rest: seq<Event>)
    requires Runs(START, events)
    requires After(START, events).consumer.Waiting? && !After(START, events).body.event
    requires Runs(Step(After(START, events), ParseError), rest) && Callbacks(rest)
    ensures var y := After(Step(After(START, events), ParseError), rest);
      && (Possible(y, Wake) <==> exists k :: 0 <= k < |rest| && (rest[k].ConnectionLost? || rest[k].EndOfFile?))
      && (Possible(y, Wake) ==> Step(y, Wake).consumer.Returned?)
      && y.received == After(START, events).received
  {
    RunsAccount(START, events);
    var x := Step(After(START, events), ParseError);
    WakesExactlyWhen(x, rest);
    BrokenDeliversNothing(x, rest);
    assert AnyEnds(rest) <==> exists k :: 0 <= k < |rest| && (rest[k].ConnectionLost? || rest[k].EndOfFile?);
  }

  lemma EndWakes(rest: seq<Event>)
    requires AnyCompletes(rest) || AnyEnds(rest)
    ensures AnyWakes(rest)
  {
    var k :| 0 <= k < |rest| && (rest[k].MessageComplete? || Ends(rest[k]));
    assert Wakes(rest[k]);
  }

  lemma EndReturnsFrom(x: Exchange, rest: seq<Event>)
    requires InOrder(x) && x.consumer.Waiting? && Runs(x, rest) && Callbacks(rest)
    requires AnyCompletes(rest) || AnyEnds(rest)
    ensures var y := After(x, rest);
      Possible(y, Wake) && Step(y, Wake).consumer.Returned? && InOrder(y) && y.received == x.received + Chunks(rest)
  {
    RunsAccount(x, rest);
    WakesExactlyWhen(x, rest);
    FlagsExactlyWhen(x, rest);
    EndWakes(rest);
    ReturnsExactlyWhen(After(x, rest), Wake);
    ReceivedExactly(x, rest);
  }

  lemma CallbacksSpillNothing(x: Exchange, rest: seq<Event>)
    requires InOrder(x) && Conserved(x) && x.consumer.Waiting? && Runs(x, rest) && Callbacks(rest)
    ensures Conserved(After(x, rest))
  {
    EagerSpillsNothing(x, rest);
    RunsAccount(x, rest);
  }

  lemma LastWakeYieldsAll(y: Exchange)
    requires InOrder(y) && Conserved(y) && Possible(y, Wake)
    ensures Flatten(Step(y, Wake).yielded) == y.received
  {
    WakeYields(y);
    assert Pending(Step(y, Wake)) == [];
  }

  lemma EagerIsConserved(events: seq<Event>)
    requires Runs(START, events) && Eager(events)
    ensures InOrder(After(START, events)) && Conserved(After(START, events))
    ensures After(START, events).received == Chunks(events)
  {
    RunsAccount(START, events);
    EagerSpillsNothing(START, events);
    ReceivedExactly(START, events);
  }

  /** A consumer that waits when the message completes, or the connection ends, returns at
      its next wake-up, whatever other callbacks come first; one that never suspended with
      a list has then yielded every chunk delivered, in order. */
  lemma EndReturns(events: seq<Event>, rest: seq<Event>, x: Exchange)
    requires Runs(START, events) && x == After(START, events) && x.consumer.Waiting?
    requires Runs(x, rest) && Callbacks(rest) && (AnyCompletes(rest) || AnyEnds(rest))
    ensures var y := After(x, rest);
      && Possible(y, Wake) && Step(y, Wake).consumer.Returned?
      && (Eager(events) ==> Flatten(Step(y, Wake).yielded) == Chunks(events) + Chunks(rest))
  {
    RunsAccount(START, events);
    EndReturnsFrom(x, rest);
    if Eager(events) {
      EagerIsConserved(events);
      CallbacksSpillNothing(x, rest);
      LastWakeYieldsAll(After(x, rest));
    }
  }

  /** The protocol object itself. */
  class HttpResponseProtocol {
    var streaming: bool
    var bodyChunks: seq<Bytes>
    var streamChunks: seq<Bytes>
    var streamEvent: bool
    var messageComplete: bool
    var connectionLost: bool
    var exc: bool
    var parserFailed: bool

    ghost function State(): Body
      reads this
    {
      Body(streaming, bodyChunks, streamChunks, streamEvent, messageComplete, connectionLost, exc, parserFailed)
    }

    constructor ()
      ensures State() == EMPTY
    {
      streaming, bodyChunks, streamChunks, streamEvent := false, [], [], false;
      messageComplete, connectionLost, exc, parserFailed := false, false, false, false;
    }

    /** Ready for the next response, with a new parser; whether the transport is lost is
        not forgotten. */
    method Reset()
      modifies this
      ensures State() == EMPTY.(lost := old(connectionLost))
    {
      streaming, bodyChunks, streamChunks, streamEvent := false, [], [], false;
      messageComplete, exc, parserFailed := false, false, false;
    }

    method SignalStreamEnd()
      modifies this
      ensures State() == SignalEnd(old(State()))
    {
      if streaming { streamEvent := true; }
    }

    method OnBodyChunk(chunk: Bytes)
      modifies this
      ensures State() == OnBody(old(State()), chunk)
    {
      if streaming {
        streamChunks := streamChunks + [chunk];
        streamEvent := true;
      } else {
        bodyChunks := bodyChunks + [chunk];
      }
    }

    method OnMessageComplete()
      modifies this
      ensures State() == SignalEnd(old(State()).(complete := true))
    {
      messageComplete := true;
      SignalStreamEnd();
    }

    /** Received data the parser rejects: the failure is recorded, nobody is woken. */
    method ParserFailed()
      modifies this
      ensures State() == old(State()).(failed := true, broken := true)
    {
      exc, parserFailed := true, true;
    }

    /** The failure recorded last is the transport's, even when there is none. */
    method ConnectionLost(error: bool)
      modifies this
      ensures State() == SignalEnd(old(State()).(lost := true, failed := error))
    {
      connectionLost := true;
      exc := error;
      SignalStreamEnd();
    }

    method EofReceived()
      modifies this
      ensures State() == SignalEnd(old(State()).(lost := true))
    {
      connectionLost := true;
      SignalStreamEnd();
    }

    /** `iter_body` up to its first suspension or its return. */
    method IterBodyBegin() returns (batches: seq<seq<Bytes>>, returned: bool)
      modifies this
      ensures Turn(State(), batches, returned) == Begin(old(State()))
    {
      batches := [];
      streaming := true;
      if bodyChunks != [] {
        batches := batches + [bodyChunks];
        bodyChunks := [];
      }
      if messageComplete { return batches, true; }
      var more, done := IterBodyResume();
      return batches + more, done;
    }

    /** `iter_body` from one wake-up to the next suspension or its return. */
    method IterBodyResume() returns (batches: seq<seq<Bytes>>, returned: bool)
      modifies this
      ensures Turn(State(), batches, returned) == Drain(old(State()))
    {
      batches := [];
      while streamChunks != []
        invariant streamChunks == [] || (streamChunks == old(streamChunks) && batches == [])
        invariant streamChunks == [] ==> batches == if old(streamChunks) == [] then [] else [old(streamChunks)]
        invariant State() == old(State()).(stream := streamChunks)
        decreases |streamChunks|
      {
        batches := batches + [streamChunks];
        streamChunks := [];
      }
      if messageComplete || connectionLost { return batches, true; }
      streamEvent := false;
      return batches, false;
    }
  }
}
