/** The synthetic closed-loop event generator: `concurrency` slots, each issuing its next
    request the instant the previous one completes. Service times are drawn from a seeded
    source in uuid order, so they are functions of the uuid and the issue time here. */
module ClosedLoop {
  import opened Collections
  import opened EventSeries

  datatype World = World(
    start: int,
    end: int,
    concurrency: nat,
    turns: nat,
    ttft: (nat, int) -> int,        // nanoseconds to the first token
    rest: (nat, int) -> int,        // nanoseconds from there to completion
    tokens: (nat, int) -> nat)      // output tokens

  /** Every request takes at least a nanosecond and has a token after the first. */
  ghost predicate Serviced(w: World) {
    w.turns >= 1 && forall n: nat, t: int ::
      w.ttft(n, t) >= 0 && w.rest(n, t) >= 0 && w.ttft(n, t) + w.rest(n, t) >= 1 && w.tokens(n, t) >= 2
  }

  datatype Sample = Sample(id: nat, issue: int, recv: int, complete: int, tokens: nat)

  function Serve(w: World, id: nat, issue: int): Sample {
    var recv := issue + w.ttft(id, issue);
    Sample(id, issue, recv, recv + w.rest(id, issue), w.tokens(id, issue))
  }

  /** One single-word chunk for each token after the first. */
  function Words(n: nat): string {
    if n == 0 then "" else "w " + Words(n - 1)
  }

  function AfterFirst(s: Sample): string {
    if s.tokens == 0 then "" else Words(s.tokens - 1)
  }

  function Emitted(s: Sample): seq<Event> {
    var uuid := Some(s.id);
    [Issued(uuid, s.issue), RecvFirst(uuid, s.recv), Complete(uuid, s.complete, Text(AfterFirst(s)))]
  }

  function AllEmitted(samples: seq<Sample>): seq<Event> {
    if samples == [] then [] else AllEmitted(samples[..|samples| - 1]) + Emitted(samples[|samples| - 1])
  }

  // ---- What the slots produce

  /** Up to `turns` sequential requests, none issued at or past the end of the window. */
  function Conversation(w: World, t: int, id: nat, turns: nat): seq<Sample>
    decreases turns
  {
    if turns == 0 || t >= w.end then []
    else var s := Serve(w, id, t); [s] + Conversation(w, s.complete, id + 1, turns - 1)
  }

  /** The back-to-back chain of requests from `t` past the end of the window. */
  ghost function Chain(w: World, t: int, id: nat): seq<Sample>
    requires Serviced(w)
    decreases w.end - t
  {
    if t >= w.end then []
    else var s := Serve(w, id, t); [s] + Chain(w, s.complete, id + 1)
  }

  function EndOf(samples: seq<Sample>, t: int): int {
    if samples == [] then t else samples[|samples| - 1].complete
  }

  ghost function Slots(w: World, slots: nat): seq<Sample>
    requires Serviced(w)
  {
    if slots == 0 then []
    else var before := Slots(w, slots - 1); before + Chain(w, w.start, |before|)
  }
}
