/** The slots' requests: conversations are pieces of one chain, and the chain tiles time, so
    exactly one request of a slot is in flight at any instant of the window. */
module SlotTiling {
  import opened ClosedLoop

  lemma EndOfCons(s: Sample, rest: seq<Sample>, t: int)
    ensures EndOf([s] + rest, t) == EndOf(rest, s.complete)
  {
  }

  /** A conversation is a piece of the chain, and the chain resumes where it ends: grouping
      requests into conversations of any number of turns changes no sample. */
  lemma {:induction false} ChainResumes(w: World, t: int, id: nat, turns: nat, c: seq<Sample>)
    requires Serviced(w) && c == Conversation(w, t, id, turns)
    ensures Chain(w, t, id) == c + Chain(w, EndOf(c, t), id + |c|)
    ensures turns >= 1 && t < w.end ==> EndOf(c, t) > t
    decreases turns
  {
    if turns > 0 && t < w.end {
      var s := Serve(w, id, t);
      var rest := Conversation(w, s.complete, id + 1, turns - 1);
      assert c == [s] + rest && c[1..] == rest;
      ChainResumes(w, s.complete, id + 1, turns - 1, rest);
      EndOfCons(s, rest, t);
      assert rest == [] ==> EndOf(rest, s.complete) == s.complete;
    }
  }

  /** The sample was served as the service model says. */
  ghost predicate Served(w: World, s: Sample, id: nat) {
    && s.id == id && s.recv - s.issue == w.ttft(id, s.issue) && s.complete - s.recv == w.rest(id, s.issue)
    && s.tokens == w.tokens(id, s.issue)
  }

  lemma {:induction false} ChainServed(w: World, t: int, id: nat, k: nat)
    requires Serviced(w) && k < |Chain(w, t, id)|
    ensures Served(w, Chain(w, t, id)[k], id + k)
    decreases k
  {
    if k > 0 { ChainServed(w, Serve(w, id, t).complete, id + 1, k - 1); }
  }

  /** Every sample has the next number and the planted times and tokens of that number. */
  lemma {:induction false} SlotsServed(w: World, slots: nat, k: nat)
    requires Serviced(w) && k < |Slots(w, slots)|
    ensures Served(w, Slots(w, slots)[k], k)
  {
    var before := |Slots(w, slots - 1)|;
    if k < before {
      SlotsServed(w, slots - 1, k);
    } else {
      ChainServed(w, w.start, before, k - before);
    }
  }

  ghost predicate Tiles(samples: seq<Sample>, t: int, end: int)
    decreases |samples|
  {
    if samples == [] then t >= end
    else samples[0].issue == t < end && t <= samples[0].recv <= samples[0].complete && t < samples[0].complete
         && Tiles(samples[1..], samples[0].complete, end)
  }

  function InFlight(samples: seq<Sample>, at: int): nat {
    if samples == [] then 0
    else InFlight(samples[..|samples| - 1], at) +
         if samples[|samples| - 1].issue <= at < samples[|samples| - 1].complete then 1 else 0
  }

  lemma {:induction false} InFlightConcat(a: seq<Sample>, b: seq<Sample>, at: int)
    ensures InFlight(a + b, at) == InFlight(a, at) + InFlight(b, at)
    decreases |b|
  {
    if b == [] {
      assert a + b == a;
    } else {
      assert (a + b)[..|a + b| - 1] == a + b[..|b| - 1];
      InFlightConcat(a, b[..|b| - 1], at);
    }
  }

  lemma {:induction false} ChainTiles(w: World, t: int, id: nat)
    requires Serviced(w)
    ensures Tiles(Chain(w, t, id), t, w.end)
    decreases w.end - t
  {
    if t < w.end {
      var s := Serve(w, id, t);
      ChainTiles(w, s.complete, id + 1);
      var c := Chain(w, t, id);
      assert c[0] == s && c[1..] == Chain(w, s.complete, id + 1);
    }
  }

  /** Back-to-back samples cover exactly the time from their start to their last
      completion, which is not before the end of the window, and once each. */
  lemma {:induction false} TiledOnce(samples: seq<Sample>, t: int, end: int, at: int)
    requires Tiles(samples, t, end)
    ensures end <= EndOf(samples, t) && t <= EndOf(samples, t)
    ensures InFlight(samples, at) == if t <= at < EndOf(samples, t) then 1 else 0
    decreases |samples|
  {
    if samples != [] {
      var first := samples[0];
      TiledOnce(samples[1..], first.complete, end, at);
      assert samples == [first] + samples[1..];
      assert EndOf(samples, t) == EndOf(samples[1..], first.complete);
      InFlightConcat([first], samples[1..], at);
      assert [first][..0] == [];
    }
  }

  /** When the last request of slot `k` completes. */
  ghost function SlotEnd(w: World, k: nat): int
    requires Serviced(w)
  {
    EndOf(Chain(w, w.start, |Slots(w, k)|), w.start)
  }

  /** Slot `k` has a request in flight. */
  ghost predicate Busy(w: World, k: nat, at: int)
    requires Serviced(w)
  {
    w.start <= at < SlotEnd(w, k)
  }

  lemma SlotAdds(w: World, k: nat, at: int)
    requires Serviced(w)
    ensures w.end <= SlotEnd(w, k)
    ensures InFlight(Slots(w, k + 1), at) == InFlight(Slots(w, k), at) + if Busy(w, k, at) then 1 else 0
  {
    var before := Slots(w, k);
    var chain := Chain(w, w.start, |before|);
    ChainTiles(w, w.start, |before|);
    TiledOnce(chain, w.start, w.end, at);
    InFlightConcat(before, chain, at);
  }

  /** Exactly when all slots are busy, and never more than all: the instant is in or after
      the window's start and before the last completion of every slot. */
  lemma {:induction false} AllInFlightExactlyWhen(w: World, slots: nat, at: int)
    requires Serviced(w)
    ensures InFlight(Slots(w, slots), at) <= slots
    ensures InFlight(Slots(w, slots), at) == slots <==> forall k: nat :: k < slots ==> Busy(w, k, at)
  {
    if slots > 0 {
      AllInFlightExactlyWhen(w, slots - 1, at);
      SlotAdds(w, slots - 1, at);
    }
  }

  /** At every instant of the window exactly `concurrency` requests are in flight, and
      before it none. */
  lemma {:induction false} ConcurrencyHeld(w: World, slots: nat, at: int)
    requires Serviced(w)
    ensures at < w.start ==> InFlight(Slots(w, slots), at) == 0
    ensures w.start <= at < w.end ==> InFlight(Slots(w, slots), at) == slots
  {
    if slots > 0 {
      ConcurrencyHeld(w, slots - 1, at);
      SlotAdds(w, slots - 1, at);
    }
  }

  /** Two slots whose only requests take ten and twenty nanoseconds of a ten nanosecond
      window. */
  function Draining(): World {
    World(0, 10, 2, 1, (id, t) => 0, (id, t) => if id == 0 then 10 else 20, (id, t) => 2)
  }

  /** A request that outlasts the window is its slot's last. */
  lemma LastRequest(w: World, t: int, id: nat)
    requires Serviced(w) && t < w.end <= Serve(w, id, t).complete
    ensures Chain(w, t, id) == [Serve(w, id, t)]
  {
    var s := Serve(w, id, t);
    assert Chain(w, s.complete, id + 1) == [];
  }

  lemma DrainingSlots()
    ensures Serviced(Draining()) && |Slots(Draining(), 1)| == 1 && |Slots(Draining(), 2)| == 2
    ensures SlotEnd(Draining(), 0) == 10 && SlotEnd(Draining(), 1) == 20
  {
    var w := Draining();
    LastRequest(w, 0, 0);
    LastRequest(w, 0, 1);
    assert Slots(w, 0) == [];
    assert Slots(w, 1) == Slots(w, 0) + Chain(w, 0, 0);
    assert Slots(w, 2) == Slots(w, 1) + Chain(w, 0, 1);
  }

  /** In the drain one of its two slots is idle while the other still works. */
  lemma DrainHasFewer()
    ensures Serviced(Draining()) && Draining().concurrency == 2
    ensures |Slots(Draining(), 2)| == 2 && InFlight(Slots(Draining(), 2), 15) == 1
  {
    var w := Draining();
    DrainingSlots();
    SlotAdds(w, 0, 15);
    SlotAdds(w, 1, 15);
    assert Slots(w, 0) == [];
  }
}
