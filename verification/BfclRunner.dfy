/** The runner of one entry: requests, responses and the bridge in a loop. What it sends is
    said of the entry and the endpoint's answers alone, request by request. */
module BfclRunner {
  import opened Collections
  import opened BfclExecution

  datatype Request = Request(turn: nat, messages: seq<Message>, tools: seq<Tool>)

  /** No first turn to ask for, an exception while parsing the last response, or an end. */
  datatype Outcome =
    | NoTurn
    | Raised(requests: seq<Request>)
    | Finished(requests: seq<Request>, results: seq<seq<seq<string>>>, forced: bool, turns: nat)

  function HoldoutsUpTo(e: Entry, turn: nat): seq<Tool> {
    (if turn == 0 then [] else HoldoutsUpTo(e, turn - 1)) + Holdouts(e, turn)
  }

  /** A request of turn `t`: the entry's tools and the holdouts of the turns so far. */
  ghost predicate RequestOk(e: Entry, r: Request) {
    r.turn < AtLeastOne(|e.turns|) && r.tools == e.tools + HoldoutsUpTo(e, r.turn)
  }

  ghost predicate RequestsOk(e: Entry, rs: seq<Request>) {
    && (forall k :: 0 <= k < |rs| ==> RequestOk(e, rs[k]))
    && (forall k :: 0 < k < |rs| ==> Extends(rs[k - 1], rs[k]))
  }

  /** A later request repeats the earlier one's messages and adds to them. */
  ghost predicate Extends(a: Request, b: Request) {
    a.messages < b.messages && a.turn <= b.turn
  }

  /** The state between two requests, of which `sent` have been made. */
  ghost predicate Running(e: Entry, p: Progress, sent: nat, maxSteps: int) {
    && !p.completed && !p.forced
    && p.turn < AtLeastOne(|e.turns|) && p.step < AtLeastOne(maxSteps)
    && |p.results| == p.turn
    && p.tools == e.tools + HoldoutsUpTo(e, p.turn)
    && sent <= p.turn * AtLeastOne(maxSteps) + p.step
  }

  ghost predicate Ended(e: Entry, p: Progress, sent: nat, maxSteps: int) {
    && p.completed
    && 1 <= |p.results| <= AtLeastOne(|e.turns|)
    && (!p.forced ==> |p.results| == p.turn == AtLeastOne(|e.turns|))
    && sent <= AtLeastOne(|e.turns|) * AtLeastOne(maxSteps)
  }

  lemma TurnsTimesSteps(turn: nat, turns: nat, steps: nat)
    requires turn < turns
    ensures turn * steps + steps <= turns * steps
  {
    assert (turn + 1) * steps <= turns * steps by {
      assert turns * steps == (turn + 1) * steps + (turns - turn - 1) * steps;
    }
  }

  lemma AdvanceOk(e: Entry, p: Progress, sent: nat, maxSteps: int)
    requires Running(e, p, sent, maxSteps)
    ensures var q := AdvanceTurn(e, p);
      && p.messages <= q.messages && q.turn == p.turn + 1
      && if q.completed then Ended(e, q, sent + 1, maxSteps) else Running(e, q, sent + 1, maxSteps)
  {
    TurnsTimesSteps(p.turn, AtLeastOne(|e.turns|), AtLeastOne(maxSteps));
    var next := p.turn + 1;
    if next < |e.turns| {
      assert e.tools + HoldoutsUpTo(e, p.turn) + Holdouts(e, next) == e.tools + HoldoutsUpTo(e, next);
      assert next * AtLeastOne(maxSteps) == p.turn * AtLeastOne(maxSteps) + AtLeastOne(maxSteps);
    }
  }

  lemma ForceOk(e: Entry, p: Progress, sent: nat, maxSteps: int)
    requires Running(e, p, sent, maxSteps)
    ensures Ended(e, ForceTerminate(p), sent + 1, maxSteps)
  {
    TurnsTimesSteps(p.turn, AtLeastOne(|e.turns|), AtLeastOne(maxSteps));
  }

  /** One answered request: the messages grow, and either the conversation ends or it is
      a step or a turn further with the request accounted for. */
  lemma ReplyOk(e: Entry, p: Progress, content: string, calls: seq<Call>, w: World, sent: nat, maxSteps: int)
    requires Running(e, p, sent, maxSteps)
    ensures var q := ProcessReply(e, p, content, calls, w, sent, maxSteps);
      && p.messages < q.messages && p.turn <= q.turn
      && (q.completed ==> Ended(e, q, sent + 1, maxSteps))
      && (!q.completed ==> Running(e, q, sent + 1, maxSteps) && (q.turn > p.turn || q.step == p.step + 1))
  {
    var said := p.(messages := p.messages + [Answer(content, calls)]);
    AdvanceOk(e, said, sent, maxSteps);
    ForceOk(e, said, sent, maxSteps);
  }

  /** Where the loop stands after `requests`. */
  ghost predicate LoopOk(e: Entry, p: Progress, requests: seq<Request>, maxSteps: int) {
    && RequestsOk(e, requests)
    && (p.completed ==> requests != [] && Ended(e, p, |requests|, maxSteps))
    && (!p.completed ==> Running(e, p, |requests|, maxSteps))
    && (!p.completed && requests != [] ==> Extends(requests[|requests| - 1], Asking(p)))
  }

  function Asking(p: Progress): Request {
    Request(p.turn, p.messages, p.tools)
  }

  function Answered(e: Entry, p: Progress, w: World, n: nat, maxSteps: int): Progress
    requires !w.respond(n).Unparsable?
  {
    match w.respond(n)
    case Reply(content, calls) => ProcessReply(e, p, content, calls, w, n, maxSteps)
    case Failure | Malformed => ForceTerminate(p)
  }

  lemma RequestsAppend(e: Entry, rs: seq<Request>, r: Request)
    requires RequestsOk(e, rs) && RequestOk(e, r) && (rs != [] ==> Extends(rs[|rs| - 1], r))
    ensures RequestsOk(e, rs + [r])
  {
  }

  lemma LoopStep(e: Entry, p: Progress, requests: seq<Request>, w: World, maxSteps: int)
    requires LoopOk(e, p, requests, maxSteps) && !p.completed && !w.respond(|requests|).Unparsable?
    ensures var q := Answered(e, p, w, |requests|, maxSteps);
      && LoopOk(e, q, requests + [Asking(p)], maxSteps)
      && (!q.completed ==> q.turn > p.turn || (q.turn == p.turn && q.step > p.step))
  {
    RequestsAppend(e, requests, Asking(p));
    match w.respond(|requests|)
    case Reply(content, calls) => ReplyOk(e, p, content, calls, w, |requests|, maxSteps);
    case Failure | Malformed => ForceOk(e, p, |requests|, maxSteps);
  }

  /** An unanswerable request is the last one, and within the bound like the others. */
  lemma LoopRaises(e: Entry, p: Progress, requests: seq<Request>, maxSteps: int)
    requires LoopOk(e, p, requests, maxSteps) && !p.completed
    ensures RequestsOk(e, requests + [Asking(p)])
    ensures |requests| + 1 <= AtLeastOne(|e.turns|) * AtLeastOne(maxSteps)
  {
    RequestsAppend(e, requests, Asking(p));
    TurnsTimesSteps(p.turn, AtLeastOne(|e.turns|), AtLeastOne(maxSteps));
  }

  // ---- what is sent, from the entry and the answers ----

  /** The messages a turn opens with: the announcement of new functions, or its own. */
  function Opening(e: Entry, turn: nat): seq<Message> {
    if turn in e.holdouts then [HOLDOUT_PROMPT] else if turn < |e.turns| then e.turns[turn] else []
  }

  function NewTools(e: Entry, turn: nat): seq<Tool> {
    if turn in e.holdouts then e.holdouts[turn] else []
  }

  /** A tool of that name was sent along, or no tool with a name at all. */
  ghost predicate Offered(tools: seq<Tool>, c: Call) {
    (exists t :: t in tools && t.name == Some(c.name)) || forall t :: t in tools ==> t.name.None?
  }

  ghost function OfferedCalls(tools: seq<Tool>, calls: seq<Call>): seq<Call> {
    if calls == [] then []
    else
      var n := |calls| - 1;
      OfferedCalls(tools, calls[..n]) + if Offered(tools, calls[n]) then [calls[n]] else []
  }

  /** What a reply to a request executes: the decoded calls of those offered, if any. */
  ghost function Executed(w: World, r: Request, n: nat): Option<seq<string>> {
    match w.respond(n)
    case Reply(_, calls) =>
      (match w.decode(OfferedCalls(r.tools, calls))
       case None => None
       case Some(decoded) => if calls == [] || w.empty(decoded) then None else Some(decoded))
    case _ => None
  }

  /** Each output goes back under the id at its own position in the reply. */
  function SentBack(outputs: seq<string>, calls: seq<Call>): seq<Message> {
    seq(if |outputs| <= |calls| then |outputs| else |calls|,
        k requires 0 <= k < |outputs| && k < |calls| => Result(outputs[k], calls[k].id))
  }

  /** The request after the `n`-th: the same messages and the answer, then the results of
      what was executed, or else the opening of the next turn. */
  ghost function Next(e: Entry, w: World, r: Request, n: nat): Request
    requires w.respond(n).Reply?
  {
    var reply := w.respond(n);
    var said := r.messages + [Answer(reply.content, reply.calls)];
    match Executed(w, r, n)
    case Some(decoded) => Request(r.turn, said + SentBack(w.execute(n, decoded), reply.calls), r.tools)
    case None => Request(r.turn + 1, said + Opening(e, r.turn + 1), r.tools + NewTools(e, r.turn + 1))
  }

  function InTurn(rs: seq<Request>, turn: nat): nat {
    if rs == [] then 0
    else InTurn(rs[..|rs| - 1], turn) + if rs[|rs| - 1].turn == turn then 1 else 0
  }

  datatype Verdict = GoOn | Complete | CutShort | Raises

  /** What becomes of an entry after the last of these requests has been answered. */
  ghost function Judge(e: Entry, w: World, rs: seq<Request>, maxSteps: int): Verdict
    requires rs != []
  {
    var n, r := |rs| - 1, rs[|rs| - 1];
    match w.respond(n)
    case Failure => CutShort
    case Malformed => CutShort
    case Unparsable => Raises
    case Reply(_, _) =>
      if Executed(w, r, n).Some? then if InTurn(rs, r.turn) >= maxSteps then CutShort else GoOn
      else if r.turn + 1 >= |e.turns| then Complete else GoOn
  }

  /** The first request opens turn 0; every other one follows from the one before. */
  ghost predicate Transcript(e: Entry, w: World, rs: seq<Request>, maxSteps: int) {
    && (rs != [] ==> rs[0] == Request(0, Opening(e, 0), e.tools + NewTools(e, 0)))
    && forall k: nat :: 0 < k < |rs| ==> Follows(e, w, rs, k, maxSteps)
  }

  ghost predicate Follows(e: Entry, w: World, rs: seq<Request>, k: nat, maxSteps: int)
    requires 0 < k < |rs|
  {
    w.respond(k - 1).Reply? && Judge(e, w, rs[..k], maxSteps) == GoOn && rs[k] == Next(e, w, rs[k - 1], k - 1)
  }

  /** The decoded calls of a turn, step by step. */
  ghost function DecodedIn(w: World, rs: seq<Request>, turn: nat): seq<seq<string>> {
    if rs == [] then []
    else
      var n := |rs| - 1;
      var ran := Executed(w, rs[n], n);
      DecodedIn(w, rs[..n], turn) + if rs[n].turn == turn && ran.Some? then [ran.value] else []
  }

  ghost function DecodedBefore(w: World, rs: seq<Request>, turns: nat): seq<seq<seq<string>>> {
    seq(turns, turn requires 0 <= turn < turns => DecodedIn(w, rs, turn))
  }

  // ---- the bridge sends exactly that ----

  lemma OfferedExactly(tools: seq<Tool>, c: Call)
    ensures Declared(AllowedNames(tools), c) <==> Offered(tools, c)
  {
    if exists t :: t in tools && t.name.Some? {
      var t :| t in tools && t.name.Some?;
      assert t.name.value in AllowedNames(tools);
    }
    if c.name in AllowedNames(tools) {
      var t :| t in tools && t.name.Some? && t.name.value == c.name;
      assert t.name == Some(c.name);
    }
  }

  lemma {:induction false} KeptAreOffered(tools: seq<Tool>, calls: seq<Call>)
    ensures Kept(calls, AllowedNames(tools)) == OfferedCalls(tools, calls)
  {
    if calls != [] {
      var n := |calls| - 1;
      assert calls == calls[..n] + [calls[n]];
      KeptConcat(calls[..n], [calls[n]], AllowedNames(tools));
      KeptAreOffered(tools, calls[..n]);
      OfferedExactly(tools, calls[n]);
      assert [calls[n]][1..] == [];
    }
  }

  lemma {:induction false} ResultsAreSentBack(outputs: seq<string>, calls: seq<Call>)
    ensures ResultMessages(outputs, Ids(calls)) == SentBack(outputs, calls)
  {
    if outputs != [] && calls != [] {
      ResultsAreSentBack(outputs[1..], calls[1..]);
      assert Ids(calls)[1..] == Ids(calls[1..]);
      assert SentBack(outputs, calls) == [Result(outputs[0], calls[0].id)] + SentBack(outputs[1..], calls[1..]);
    }
  }

  ghost predicate NoneLater(rs: seq<Request>, turn: nat) {
    forall k :: 0 <= k < |rs| ==> rs[k].turn <= turn
  }

  lemma {:induction false} NothingLater(w: World, rs: seq<Request>, turn: nat, later: nat)
    requires NoneLater(rs, turn) && turn < later
    ensures InTurn(rs, later) == 0 && DecodedIn(w, rs, later) == []
  {
    if rs != [] { NothingLater(w, rs[..|rs| - 1], turn, later); }
  }

  lemma OneMoreRequest(w: World, rs: seq<Request>, r: Request, turn: nat)
    ensures InTurn(rs + [r], turn) == InTurn(rs, turn) + if r.turn == turn then 1 else 0
    ensures DecodedIn(w, rs + [r], turn)
      == DecodedIn(w, rs, turn)
       + if r.turn == turn && Executed(w, r, |rs|).Some? then [Executed(w, r, |rs|).value] else []
  {
    assert (rs + [r])[..|rs|] == rs;
  }

  /** The state of the loop as the requests made so far determine it. */
  ghost predicate Tracks(e: Entry, w: World, p: Progress, rs: seq<Request>) {
    && NoneLater(rs, p.turn) && p.step == InTurn(rs, p.turn)
    && p.current == DecodedIn(w, rs, p.turn) && p.results == DecodedBefore(w, rs, p.turn)
  }

  /** What a finished entry leaves behind. */
  ghost predicate Concludes(e: Entry, w: World, p: Progress, rs: seq<Request>, maxSteps: int) {
    rs != []
    && var last := rs[|rs| - 1].turn;
       && Judge(e, w, rs, maxSteps) == (if p.forced then CutShort else Complete)
       && p.results == DecodedBefore(w, rs, last + 1) && p.turn == if p.forced then last else last + 1
  }

  ghost predicate Finishes(e: Entry, w: World, outcome: Outcome, maxSteps: int)
    requires outcome.Finished? && outcome.requests != []
  {
    var rs := outcome.requests;
    var last := rs[|rs| - 1].turn;
    && Judge(e, w, rs, maxSteps) == (if outcome.forced then CutShort else Complete)
    && outcome.results == DecodedBefore(w, rs, last + 1)
    && outcome.turns == if outcome.forced then last else last + 1
  }

  /** The turns before the current one are not added to any more. */
  lemma EarlierTurnsStay(w: World, rs: seq<Request>, r: Request)
    ensures DecodedBefore(w, rs + [r], r.turn) == DecodedBefore(w, rs, r.turn)
  {
    forall turn | 0 <= turn < r.turn ensures DecodedIn(w, rs + [r], turn) == DecodedIn(w, rs, turn) {
      OneMoreRequest(w, rs, r, turn);
    }
  }

  lemma DecodedNext(w: World, rs: seq<Request>, turn: nat)
    ensures DecodedBefore(w, rs, turn + 1) == DecodedBefore(w, rs, turn) + [DecodedIn(w, rs, turn)]
  {
  }

  function Said(p: Progress, reply: Response): Progress
    requires reply.Reply?
  {
    p.(messages := p.messages + [Answer(reply.content, reply.calls)])
  }

  ghost function Stepped(p: Progress, w: World, n: nat, decoded: seq<string>): Progress
    requires w.respond(n).Reply?
  {
    var said := Said(p, w.respond(n));
    said.(current := p.current + [decoded], step := p.step + 1,
          messages := said.messages + SentBack(w.execute(n, decoded), w.respond(n).calls))
  }

  /** The bridge's branches are whether something is executed, and whether steps are left. */
  lemma ReplyBranches(e: Entry, w: World, p: Progress, n: nat, maxSteps: int)
    requires w.respond(n).Reply?
    ensures Answered(e, p, w, n, maxSteps) == match Executed(w, Asking(p), n)
      case None => AdvanceTurn(e, Said(p, w.respond(n)))
      case Some(decoded) =>
        var next := Stepped(p, w, n, decoded);
        if next.step >= maxSteps then ForceTerminate(next) else next
  {
    var reply := w.respond(n);
    KeptAreOffered(p.tools, reply.calls);
    var ran := Executed(w, Asking(p), n);
    if ran.Some? { ResultsAreSentBack(w.execute(n, ran.value), reply.calls); }
  }

  lemma Recorded(e: Entry, w: World, p: Progress, rs: seq<Request>)
    requires Tracks(e, w, p, rs)
    ensures var all, ran := rs + [Asking(p)], Executed(w, Asking(p), |rs|);
      && InTurn(all, p.turn) == p.step + 1 && NoneLater(all, p.turn)
      && DecodedIn(w, all, p.turn) == (if ran.Some? then p.current + [ran.value] else p.current)
      && DecodedBefore(w, all, p.turn) == p.results
      && DecodedBefore(w, all, p.turn + 1) == p.results + [DecodedIn(w, all, p.turn)]
  {
    OneMoreRequest(w, rs, Asking(p), p.turn);
    EarlierTurnsStay(w, rs, Asking(p));
    DecodedNext(w, rs + [Asking(p)], p.turn);
    assert p.current + [] == p.current;
  }

  /** The loop goes on with exactly the next request, or concludes. */
  ghost predicate GoesOn(e: Entry, w: World, q: Progress, all: seq<Request>, maxSteps: int)
    requires all != [] && w.respond(|all| - 1).Reply?
  {
    if q.completed then Concludes(e, w, q, all, maxSteps)
    else Tracks(e, w, q, all) && !q.forced && Judge(e, w, all, maxSteps) == GoOn
         && Asking(q) == Next(e, w, all[|all| - 1], |all| - 1)
  }

  lemma ExecutedFollows(e: Entry, w: World, p: Progress, rs: seq<Request>, maxSteps: int)
    requires Tracks(e, w, p, rs) && !p.completed && !p.forced && w.respond(|rs|).Reply?
    requires Executed(w, Asking(p), |rs|).Some?
    ensures GoesOn(e, w, Answered(e, p, w, |rs|, maxSteps), rs + [Asking(p)], maxSteps)
  {
    ReplyBranches(e, w, p, |rs|, maxSteps);
    Recorded(e, w, p, rs);
  }

  lemma TurnFollows(e: Entry, w: World, p: Progress, rs: seq<Request>, maxSteps: int)
    requires Tracks(e, w, p, rs) && !p.completed && !p.forced && w.respond(|rs|).Reply?
    requires Executed(w, Asking(p), |rs|).None?
    ensures GoesOn(e, w, Answered(e, p, w, |rs|, maxSteps), rs + [Asking(p)], maxSteps)
  {
    ReplyBranches(e, w, p, |rs|, maxSteps);
    Recorded(e, w, p, rs);
    NothingLater(w, rs + [Asking(p)], p.turn, p.turn + 1);
  }

  /** One reply, executed or not. */
  lemma ReplyFollows(e: Entry, w: World, p: Progress, rs: seq<Request>, maxSteps: int)
    requires Tracks(e, w, p, rs) && !p.completed && !p.forced && w.respond(|rs|).Reply?
    ensures GoesOn(e, w, Answered(e, p, w, |rs|, maxSteps), rs + [Asking(p)], maxSteps)
  {
    if Executed(w, Asking(p), |rs|).Some? {
      ExecutedFollows(e, w, p, rs, maxSteps);
    } else {
      TurnFollows(e, w, p, rs, maxSteps);
    }
  }

  /** A failed or malformed response cuts the entry short where it stands. */
  lemma FailureConcludes(e: Entry, w: World, p: Progress, rs: seq<Request>, maxSteps: int)
    requires Tracks(e, w, p, rs) && (w.respond(|rs|).Failure? || w.respond(|rs|).Malformed?)
    ensures Concludes(e, w, ForceTerminate(p), rs + [Asking(p)], maxSteps)
  {
    Recorded(e, w, p, rs);
  }

  lemma TranscriptGrows(e: Entry, w: World, rs: seq<Request>, r: Request, maxSteps: int)
    requires Transcript(e, w, rs, maxSteps) && rs != []
    requires w.respond(|rs| - 1).Reply? && Judge(e, w, rs, maxSteps) == GoOn && r == Next(e, w, rs[|rs| - 1], |rs| - 1)
    ensures Transcript(e, w, rs + [r], maxSteps)
  {
    var all := rs + [r];
    forall k: nat | 0 < k < |all| ensures Follows(e, w, all, k, maxSteps) {
      assert all[..k] == rs[..k];
      if k == |rs| {
        assert rs[..k] == rs;
      } else {
        assert Follows(e, w, rs, k, maxSteps);
      }
    }
  }

  /** Where the loop stands, what it has sent and, until it is over, what it sends next. */
  ghost predicate LoopAt(e: Entry, w: World, p: Progress, requests: seq<Request>, maxSteps: int) {
    && LoopOk(e, p, requests, maxSteps) && Transcript(e, w, requests, maxSteps)
    && (p.completed ==> Concludes(e, w, p, requests, maxSteps))
    && (!p.completed ==> Tracks(e, w, p, requests) && Transcript(e, w, requests + [Asking(p)], maxSteps))
  }

  lemma LoopNext(e: Entry, w: World, p: Progress, requests: seq<Request>, maxSteps: int)
    requires LoopAt(e, w, p, requests, maxSteps) && !p.completed && !w.respond(|requests|).Unparsable?
    ensures var q := Answered(e, p, w, |requests|, maxSteps);
      && LoopAt(e, w, q, requests + [Asking(p)], maxSteps)
      && (!q.completed ==> q.turn > p.turn || (q.turn == p.turn && q.step > p.step))
  {
    LoopStep(e, p, requests, w, maxSteps);
    var q, all := Answered(e, p, w, |requests|, maxSteps), requests + [Asking(p)];
    if w.respond(|requests|).Reply? {
      ReplyFollows(e, w, p, requests, maxSteps);
      if !q.completed { TranscriptGrows(e, w, all, Asking(q), maxSteps); }
    } else {
      FailureConcludes(e, w, p, requests, maxSteps);
    }
  }

  lemma LoopBegin(e: Entry, w: World, maxSteps: int)
    requires HasTurn(e, 0)
    ensures LoopAt(e, w, InitialRequest(e, Progress(0, 0, [], e.tools, [], [], false, false)), [], maxSteps)
  {
    assert HoldoutsUpTo(e, 0) == Holdouts(e, 0);
    var p := InitialRequest(e, Progress(0, 0, [], e.tools, [], [], false, false));
    assert p.messages == [] + Opening(e, 0) == Opening(e, 0);
    assert [] + [Asking(p)] == [Asking(p)];
    assert p.results == DecodedBefore(w, [], 0);
  }

  /** A failed or malformed response cuts the entry short, a reply is processed. */
  method Absorb(state: Conversation, w: World, n: nat, maxSteps: int)
    requires !w.respond(n).Unparsable?
    modifies state
    ensures state.State() == Answered(state.entry, old(state.State()), w, n, maxSteps)
  {
    match w.respond(n) {
      case Reply(content, calls) => state.Process(content, calls, w, n, maxSteps);
      case Failure | Malformed => state.Terminate();
    }
  }

  /** Runs an entry to its end, whatever the endpoint answers. The requests are those the
      entry and the answers call for, within turns times steps; an exception is raised
      exactly at a response that does not parse; the results are the decoded calls of
      every turn begun, and the entry is cut short exactly on a failure or when a turn
      has used up its steps. */
  method RunEntry(e: Entry, w: World, maxSteps: int) returns (outcome: Outcome)
    ensures outcome.NoTurn? <==> !HasTurn(e, 0)
    ensures !outcome.NoTurn? ==> 1 <= |outcome.requests| <= AtLeastOne(|e.turns|) * AtLeastOne(maxSteps)
    ensures !outcome.NoTurn? ==> RequestsOk(e, outcome.requests)
    ensures !outcome.NoTurn? ==> Transcript(e, w, outcome.requests, maxSteps)
    ensures outcome.Raised? ==> w.respond(|outcome.requests| - 1).Unparsable?
    ensures outcome.Finished? ==> Finishes(e, w, outcome, maxSteps)
    ensures outcome.Finished? && !outcome.forced ==> |outcome.results| == outcome.turns == AtLeastOne(|e.turns|)
    ensures outcome.Finished? && outcome.forced ==> 1 <= |outcome.results| <= AtLeastOne(|e.turns|)
  {
    if 0 !in e.holdouts && |e.turns| == 0 { return NoTurn; }
    var state := new Conversation(e);
    state.GetInitialRequest();
    LoopBegin(e, w, maxSteps);
    var requests: seq<Request> := [];
    while !state.completed
      invariant state.entry == e && LoopAt(e, w, state.State(), requests, maxSteps)
      decreases !state.completed, AtLeastOne(|e.turns|) - state.currentTurn, AtLeastOne(maxSteps) - state.currentStep
    {
      var n := |requests|;
      var asked := requests + [Request(state.currentTurn, state.messages, state.tools)];
      if w.respond(n).Unparsable? {
        LoopRaises(e, state.State(), requests, maxSteps);
        return Raised(asked);
      }
      LoopNext(e, w, state.State(), requests, maxSteps);
      requests := asked;
      Absorb(state, w, n, maxSteps);
    }
    return Finished(requests, state.modelResultsPerTurn, state.forceTerminated, state.currentTurn);
  }
}
