/** The generator object: it appends events request by request, counts them, and sorts the
    log at the end. */
module EventGenerator {
  import opened Collections
  import opened EventSeries
  import opened ClosedLoop
  import opened EventOrder
  import opened SlotTiling

  /** A slot part way through continues with the next conversation. */
  lemma SlotResumes(w: World, t: int, done: seq<Sample>, all: seq<Sample>)
    requires Serviced(w) && t < w.end && all == done + Chain(w, t, |done|)
    ensures var c := Conversation(w, t, |done|, w.turns);
      all == (done + c) + Chain(w, EndOf(c, t), |done + c|) && EndOf(c, t) > t
  {
    var c := Conversation(w, t, |done|, w.turns);
    ChainResumes(w, t, |done|, w.turns, c);
    assert |done + c| == |done| + |c|;
    var rest := Chain(w, EndOf(c, t), |done| + |c|);
    assert Chain(w, t, |done|) == c + rest;
    ConcatAssociates(done, c, rest);
  }

  /** Part way through the conversation `all`: `done` has been issued after `samples`, and
      the next of at most `left` turns is due at `t`. */
  datatype Progress = Progress(samples: seq<Sample>, done: seq<Sample>, all: seq<Sample>, begin: int)

  ghost predicate Halfway(w: World, p: Progress, emitted: seq<Sample>, t: int, left: nat) {
    && emitted == p.samples + p.done && t == EndOf(p.done, p.begin)
    && p.all == p.done + Conversation(w, t, |emitted|, left)
  }

  lemma HalfwayStarts(w: World, samples: seq<Sample>, begin: int)
    ensures var all := Conversation(w, begin, |samples|, w.turns);
      Halfway(w, Progress(samples, [], all, begin), samples, begin, w.turns)
  {
  }

  lemma HalfwayNext(w: World, p: Progress, emitted: seq<Sample>, t: int, left: nat)
    requires Halfway(w, p, emitted, t, left) && left > 0 && t < w.end
    ensures var s := Serve(w, |emitted|, t);
      Halfway(w, p.(done := p.done + [s]), emitted + [s], s.complete, left - 1)
  {
    var s := Serve(w, |emitted|, t);
    ConcatAssociates(p.samples, p.done, [s]);
    ConcatAssociates(p.done, [s], Conversation(w, s.complete, |emitted| + 1, left - 1));
  }

  lemma HalfwayEnds(w: World, p: Progress, emitted: seq<Sample>, t: int, left: nat)
    requires Halfway(w, p, emitted, t, left) && (left == 0 || t >= w.end)
    ensures emitted == p.samples + p.all && t == EndOf(p.all, p.begin)
  {
    assert p.done + [] == p.done;
  }

  function Latest(samples: seq<Sample>): int {
    if samples == [] then 0
    else
      var before, last := Latest(samples[..|samples| - 1]), samples[|samples| - 1].complete;
      if last > before then last else before
  }

  /** The latest completion, or zero if there is none after it. */
  lemma {:induction false} LatestIsMax(samples: seq<Sample>)
    ensures forall s :: s in samples ==> s.complete <= Latest(samples)
    ensures Latest(samples) == 0 || exists s :: s in samples && s.complete == Latest(samples)
    ensures Latest(samples) >= 0
  {
    if samples != [] {
      var n := |samples| - 1;
      LatestIsMax(samples[..n]);
      assert samples == samples[..n] + [samples[n]];
    }
  }

  class Generator {
    const w: World
    var events: seq<Event>
    var nSamples: nat
    var lastComplete: int
    var nextUuid: nat

    constructor (w: World)
      ensures this.w == w && events == [] && nSamples == nextUuid == 0 && lastComplete == 0
    {
      this.w := w;
      events, nSamples, nextUuid, lastComplete := [], 0, 0, 0;
    }

    /** The generator's counters and unsorted log, for the samples emitted so far. */
    ghost predicate Emits(samples: seq<Sample>)
      reads this
    {
      && events == [StartTracking(w.start)] + AllEmitted(samples)
      && nSamples == nextUuid == |samples| && lastComplete == Latest(samples)
    }

    method EmitTurn(issue: int, ghost samples: seq<Sample>) returns (complete: int)
      requires Emits(samples)
      modifies this
      ensures var s := Serve(w, old(nextUuid), issue);
        Emits(samples + [s]) && complete == s.complete
    {
      var s := Serve(w, nextUuid, issue);
      nextUuid := nextUuid + 1;
      events := events + [Issued(Some(s.id), s.issue)];
      events := events + [RecvFirst(Some(s.id), s.recv)];
      events := events + [Complete(Some(s.id), s.complete, Text(AfterFirst(s)))];
      nSamples := nSamples + 1;
      if s.complete > lastComplete { lastComplete := s.complete; }
      complete := s.complete;
      assert (samples + [s])[..|samples|] == samples;
    }

    method RunConversation(begin: int, ghost samples: seq<Sample>) returns (t: int)
      requires Emits(samples)
      modifies this
      ensures var c := Conversation(w, begin, |samples|, w.turns);
        Emits(samples + c) && t == EndOf(c, begin)
    {
      t := begin;
      ghost var all := Conversation(w, begin, |samples|, w.turns);
      ghost var done: seq<Sample>, emitted := [], samples;
      HalfwayStarts(w, samples, begin);
      var turn := 0;
      while turn < w.turns && t < w.end
        invariant turn <= w.turns && Emits(emitted)
        invariant Halfway(w, Progress(samples, done, all, begin), emitted, t, w.turns - turn)
        decreases w.turns - turn
      {
        HalfwayNext(w, Progress(samples, done, all, begin), emitted, t, w.turns - turn);
        ghost var s := Serve(w, nextUuid, t);
        t := EmitTurn(t, emitted);
        emitted, done := emitted + [s], done + [s];
        turn := turn + 1;
      }
      HalfwayEnds(w, Progress(samples, done, all, begin), emitted, t, w.turns - turn);
    }

    /** The whole run: terminates, and logs exactly the slots' chains in time order. */
    method Generate()
      requires Serviced(w) && events == [] && nSamples == nextUuid == 0 && lastComplete == 0
      modifies this
      ensures events == Sort(Log(w.start, w.end, Slots(w, w.concurrency)))
      ensures nSamples == |Slots(w, w.concurrency)| && lastComplete == Latest(Slots(w, w.concurrency))
    {
      events := events + [StartTracking(w.start)];
      for slot := 0 to w.concurrency
        invariant Emits(Slots(w, slot))
      {
        var t := w.start;
        ghost var done := Slots(w, slot);
        while t < w.end
          invariant Emits(done) && Slots(w, slot + 1) == done + Chain(w, t, |done|)
          decreases w.end - t
        {
          ghost var c := Conversation(w, t, |done|, w.turns);
          SlotResumes(w, t, done, Slots(w, slot + 1));
          t := RunConversation(t, done);
          done := done + c;
        }
        assert done == Slots(w, slot + 1);
      }
      events := events + [StopTracking(w.end)];
      events := Sort(events);
    }
  }

  function Log(start: int, end: int, samples: seq<Sample>): seq<Event> {
    var first, last := StartTracking(start), StopTracking(end);
    [first] + AllEmitted(samples) + [last]
  }
}
