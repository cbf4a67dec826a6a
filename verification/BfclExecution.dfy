/** The multi-turn evaluation loop: a conversation advances by steps and turns while an
    endpoint answers whatever it likes. Decoding and executing function calls is foreign
    code, given here as functions of the calls. */
module BfclExecution {
  import opened Collections

  datatype Tool = Tool(name: Option<string>, schema: string)
  datatype Call = Call(id: string, name: string, arguments: string)

  datatype Message =
    | Prompt(role: string, content: string)
    | Answer(content: string, calls: seq<Call>)
    | Result(content: string, callId: string)

  const HOLDOUT_PROMPT := Prompt("user",
    "I have updated the available functions. You have access to new functions now. "
    + "Please re-evaluate the latest user request and use the appropriate function(s) to handle the request.")

  datatype Entry = Entry(turns: seq<seq<Message>>, tools: seq<Tool>, holdouts: map<nat, seq<Tool>>)

  /** Transport failure, a body without a message, a message or tool calls of the wrong
      shape, or a message with its tool calls. */
  datatype Response = Failure | Malformed | Unparsable | Reply(content: string, calls: seq<Call>)

  datatype World = World(
    respond: nat -> Response,                          // by request number
    decode: seq<Call> -> Option<seq<string>>,          // `None` when decoding raises
    empty: seq<string> -> bool,
    execute: (nat, seq<string>) -> seq<string>)

  datatype Progress = Progress(
    turn: nat,
    step: nat,
    messages: seq<Message>,
    tools: seq<Tool>,
    results: seq<seq<seq<string>>>,    // per turn, the decoded calls of each step
    current: seq<seq<string>>,
    forced: bool,
    completed: bool)

  predicate HasTurn(e: Entry, turn: nat) {
    turn in e.holdouts || turn < |e.turns|
  }

  function TurnMessages(e: Entry, turn: nat): seq<Message>
    requires HasTurn(e, turn)
  {
    if turn in e.holdouts then [HOLDOUT_PROMPT] else e.turns[turn]
  }

  function Holdouts(e: Entry, turn: nat): seq<Tool> {
    if turn in e.holdouts then e.holdouts[turn] else []
  }

  function InitialRequest(e: Entry, p: Progress): Progress
    requires HasTurn(e, p.turn)
  {
    p.(tools := p.tools + Holdouts(e, p.turn), messages := p.messages + TurnMessages(e, p.turn),
       step := 0, current := [])
  }

  function AdvanceTurn(e: Entry, p: Progress): Progress {
    var next := p.(results := p.results + [p.current], turn := p.turn + 1);
    if next.turn >= |e.turns| then next.(completed := true) else InitialRequest(e, next)
  }

  function ForceTerminate(p: Progress): Progress {
    p.(forced := true, completed := true, results := p.results + [p.current])
  }

  function AllowedNames(tools: seq<Tool>): set<string> {
    set t | t in tools && t.name.Some? :: t.name.value
  }

  predicate Declared(allowed: set<string>, c: Call) {
    allowed == {} || c.name in allowed
  }

  /** The calls that may be executed: the undeclared ones are dropped. */
  function Kept(calls: seq<Call>, allowed: set<string>): seq<Call> {
    if calls == [] then []
    else (if Declared(allowed, calls[0]) then [calls[0]] else []) + Kept(calls[1..], allowed)
  }

  function Ids(calls: seq<Call>): (ids: seq<string>)
    ensures |ids| == |calls| && forall k :: 0 <= k < |ids| ==> ids[k] == calls[k].id
  {
    seq(|calls|, k requires 0 <= k < |calls| => calls[k].id)
  }

  /** Result messages pair results with ids by position, up to the shorter list. */
  function ResultMessages(results: seq<string>, ids: seq<string>): seq<Message> {
    if results == [] || ids == [] then []
    else [Result(results[0], ids[0])] + ResultMessages(results[1..], ids[1..])
  }

  function ProcessReply(e: Entry, p: Progress, content: string, calls: seq<Call>, w: World, n: nat, maxSteps: int)
    : Progress
  {
    var said := p.(messages := p.messages + [Answer(content, calls)]);
    if calls == [] then AdvanceTurn(e, said)
    else match w.decode(Kept(calls, AllowedNames(p.tools)))
      case None => AdvanceTurn(e, said)
      case Some(decoded) =>
        if w.empty(decoded) then AdvanceTurn(e, said)
        else
          var next := said.(
            current := p.current + [decoded], step := p.step + 1,
            messages := said.messages + ResultMessages(w.execute(n, decoded), Ids(calls)));
          if next.step >= maxSteps then ForceTerminate(next) else next
  }

  method DropUndeclared(calls: seq<Call>, allowed: set<string>) returns (kept: seq<Call>)
    ensures kept == Kept(calls, allowed)
  {
    kept := [];
    var k := 0;
    while k < |calls|
      invariant k <= |calls| && kept + Kept(calls[k..], allowed) == Kept(calls, allowed)
    {
      if Declared(allowed, calls[k]) { kept := kept + [calls[k]]; }
      k := k + 1;
    }
  }

  /** The conversation state, updated in place by the bridge. */
  class Conversation {
    const entry: Entry
    var currentTurn: nat
    var currentStep: nat
    var messages: seq<Message>
    var tools: seq<Tool>
    var modelResultsPerTurn: seq<seq<seq<string>>>
    var currentTurnResults: seq<seq<string>>
    var forceTerminated: bool
    var completed: bool

    ghost function State(): Progress
      reads this
    {
      Progress(currentTurn, currentStep, messages, tools, modelResultsPerTurn, currentTurnResults,
               forceTerminated, completed)
    }

    constructor (entry: Entry)
      ensures this.entry == entry && State() == Progress(0, 0, [], entry.tools, [], [], false, false)
    {
      this.entry := entry;
      currentTurn, currentStep, messages, tools := 0, 0, [], entry.tools;
      modelResultsPerTurn, currentTurnResults, forceTerminated, completed := [], [], false, false;
    }

    method GetInitialRequest()
      requires HasTurn(entry, currentTurn)
      modifies this
      ensures State() == InitialRequest(entry, old(State()))
    {
      if currentTurn in entry.holdouts { tools := tools + entry.holdouts[currentTurn]; }
      messages := messages + TurnMessages(entry, currentTurn);
      currentStep := 0;
      currentTurnResults := [];
    }

    method Advance()
      modifies this
      ensures State() == AdvanceTurn(entry, old(State()))
    {
      modelResultsPerTurn := modelResultsPerTurn + [currentTurnResults];
      currentTurn := currentTurn + 1;
      if currentTurn >= |entry.turns| {
        completed := true;
        return;
      }
      GetInitialRequest();
    }

    method Terminate()
      modifies this
      ensures State() == ForceTerminate(old(State()))
    {
      forceTerminated := true;
      completed := true;
      modelResultsPerTurn := modelResultsPerTurn + [currentTurnResults];
    }

    method Process(content: string, calls: seq<Call>, w: World, n: nat, maxSteps: int)
      modifies this
      ensures State() == ProcessReply(entry, old(State()), content, calls, w, n, maxSteps)
    {
      messages := messages + [Answer(content, calls)];
      if calls == [] { Advance(); return; }
      var kept := DropUndeclared(calls, AllowedNames(tools));
      var decoded := w.decode(kept);
      if decoded.None? || w.empty(decoded.value) { Advance(); return; }
      currentTurnResults := currentTurnResults + [decoded.value];
      messages := messages + ResultMessages(w.execute(n, decoded.value), Ids(calls));
      currentStep := currentStep + 1;
      if currentStep >= maxSteps { Terminate(); }
    }
  }

  // ---- which call a result answers ----

  /** Every declared call comes before every undeclared one. */
  ghost predicate DeclaredFirst(calls: seq<Call>, allowed: set<string>) {
    forall i, j :: 0 <= i < j < |calls| && Declared(allowed, calls[j]) ==> Declared(allowed, calls[i])
  }

  lemma {:induction false} KeptConcat(a: seq<Call>, b: seq<Call>, allowed: set<string>)
    ensures Kept(a + b, allowed) == Kept(a, allowed) + Kept(b, allowed)
  {
    if a == [] {
      assert a + b == b;
    } else {
      KeptConcat(a[1..], b, allowed);
      var all := a + b;
      assert all[0] == a[0] && all[1..] == a[1..] + b;
      var own := if Declared(allowed, a[0]) then [a[0]] else [];
      assert own + (Kept(a[1..], allowed) + Kept(b, allowed)) == (own + Kept(a[1..], allowed)) + Kept(b, allowed);
    }
  }

  lemma {:induction false} KeptAll(calls: seq<Call>, allowed: set<string>)
    ensures (forall c :: c in calls ==> Declared(allowed, c)) ==> Kept(calls, allowed) == calls
    ensures Kept(calls, allowed) == [] <==> forall c :: c in calls ==> !Declared(allowed, c)
    ensures |Kept(calls, allowed)| <= |calls|
    ensures forall c :: c in Kept(calls, allowed) ==> c in calls && Declared(allowed, c)
  {
    if calls != [] {
      KeptAll(calls[1..], allowed);
      assert calls == [calls[0]] + calls[1..];
    }
  }

  /** Cut where the declared calls end, keeping keeps the first part and nothing else. */
  lemma DeclaredFirstKept(calls: seq<Call>, allowed: set<string>, m: nat)
    requires m <= |calls|
    requires forall k :: 0 <= k < m ==> Declared(allowed, calls[k])
    requires forall k :: m <= k < |calls| ==> !Declared(allowed, calls[k])
    ensures Kept(calls, allowed) == calls[..m]
  {
    assert calls == calls[..m] + calls[m..];
    KeptConcat(calls[..m], calls[m..], allowed);
    KeptAll(calls[..m], allowed);
    KeptAll(calls[m..], allowed);
  }

  function DeclaredUpTo(calls: seq<Call>, allowed: set<string>): (m: nat)
    ensures m <= |calls|
    ensures forall k :: 0 <= k < m ==> Declared(allowed, calls[k])
    ensures m < |calls| ==> !Declared(allowed, calls[m])
  {
    if calls == [] || !Declared(allowed, calls[0]) then 0
    else 1 + DeclaredUpTo(calls[1..], allowed)
  }

  /** If the kept calls are the first calls, the others were dropped. */
  lemma KeptPrefixDrops(calls: seq<Call>, allowed: set<string>, m: nat)
    requires m <= |calls| && Kept(calls, allowed) == calls[..m]
    ensures Kept(calls[m..], allowed) == []
  {
    assert calls == calls[..m] + calls[m..];
    KeptConcat(calls[..m], calls[m..], allowed);
    KeptAll(calls[..m], allowed);
    AllKeptIfContained(calls[..m], allowed, calls);
  }

  /** The calls of a list that all turn up among the kept ones are all kept. */
  lemma AllKeptIfContained(part: seq<Call>, allowed: set<string>, calls: seq<Call>)
    requires Kept(calls, allowed) == part
    ensures Kept(part, allowed) == part
  {
    KeptAll(calls, allowed);
    KeptAll(part, allowed);
  }

  lemma KeptPrefixDeclaresFirst(calls: seq<Call>, allowed: set<string>, m: nat)
    requires m <= |calls| && Kept(calls, allowed) == calls[..m]
    ensures DeclaredFirst(calls, allowed)
  {
    KeptPrefixDrops(calls, allowed, m);
    KeptAll(calls, allowed);
    KeptAll(calls[m..], allowed);
    forall k | m <= k < |calls| ensures !Declared(allowed, calls[k]) {
      assert calls[k] == calls[m..][k - m];
    }
    forall k | 0 <= k < m ensures Declared(allowed, calls[k]) {
      assert calls[k] == calls[..m][k];
    }
  }

  lemma AlignedArePrefix(calls: seq<Call>, kept: seq<Call>)
    requires Distinct(Ids(calls)) && |kept| <= |calls| && forall c :: c in kept ==> c in calls
    requires forall k :: 0 <= k < |kept| ==> kept[k].id == calls[k].id
    ensures kept == calls[..|kept|]
  {
    forall k | 0 <= k < |kept| ensures kept[k] == calls[k] {
      assert kept[k] in kept;
      var i :| 0 <= i < |calls| && calls[i] == kept[k];
      assert Ids(calls)[i] == calls[i].id == Ids(calls)[k];
    }
  }

  /** The kept calls have the ids of the first calls. */
  ghost predicate IdsAligned(calls: seq<Call>, allowed: set<string>) {
    var kept := Kept(calls, allowed);
    |kept| <= |calls| && forall k :: 0 <= k < |kept| ==> kept[k].id == calls[k].id
  }

  lemma DeclaredFirstAligns(calls: seq<Call>, allowed: set<string>)
    requires DeclaredFirst(calls, allowed)
    ensures IdsAligned(calls, allowed)
  {
    DeclaredFirstKept(calls, allowed, DeclaredUpTo(calls, allowed));
  }

  lemma AlignedDeclaresFirst(calls: seq<Call>, allowed: set<string>)
    requires Distinct(Ids(calls)) && IdsAligned(calls, allowed)
    ensures DeclaredFirst(calls, allowed)
  {
    KeptAll(calls, allowed);
    AlignedArePrefix(calls, Kept(calls, allowed));
    KeptPrefixDeclaresFirst(calls, allowed, |Kept(calls, allowed)|);
  }

  lemma {:induction false} ResultMessagesAt(results: seq<string>, ids: seq<string>)
    requires |results| <= |ids|
    ensures |ResultMessages(results, ids)| == |results|
    ensures forall k :: 0 <= k < |results| ==> ResultMessages(results, ids)[k] == Result(results[k], ids[k])
  {
    if results != [] { ResultMessagesAt(results[1..], ids[1..]); }
  }

  /** Every result is sent back under the id of the call it answers. */
  ghost predicate AnswersOwnCalls(calls: seq<Call>, allowed: set<string>, results: seq<string>) {
    var kept, sent := Kept(calls, allowed), ResultMessages(results, Ids(calls));
    |sent| == |kept| == |results| && forall k :: 0 <= k < |sent| ==> sent[k] == Result(results[k], kept[k].id)
  }

  /** Exactly when that is: each kept call has the id of the call at its own position in
      the reply. Dropping a call in the middle shifts the ids of all results after it. */
  lemma ResultsAlignedExactlyWhen(calls: seq<Call>, allowed: set<string>, results: seq<string>)
    requires |results| == |Kept(calls, allowed)|
    ensures AnswersOwnCalls(calls, allowed, results) <==> IdsAligned(calls, allowed)
    ensures DeclaredFirst(calls, allowed) ==> AnswersOwnCalls(calls, allowed, results)
  {
    KeptAll(calls, allowed);
    ResultMessagesAt(results, Ids(calls));
    var kept, sent := Kept(calls, allowed), ResultMessages(results, Ids(calls));
    assert forall k :: 0 <= k < |sent| ==> sent[k] == Result(results[k], calls[k].id);
    if AnswersOwnCalls(calls, allowed, results) {
      forall k | 0 <= k < |kept| ensures kept[k].id == calls[k].id {
        assert sent[k] == Result(results[k], kept[k].id);
      }
    }
    if DeclaredFirst(calls, allowed) { DeclaredFirstAligns(calls, allowed); }
  }

  /** With distinct ids that is: no declared call follows an undeclared one. */
  lemma DistinctIdsAlignedExactlyWhen(calls: seq<Call>, allowed: set<string>, results: seq<string>)
    requires Distinct(Ids(calls)) && |results| == |Kept(calls, allowed)|
    ensures AnswersOwnCalls(calls, allowed, results) <==> DeclaredFirst(calls, allowed)
  {
    ResultsAlignedExactlyWhen(calls, allowed, results);
    if IdsAligned(calls, allowed) { AlignedDeclaresFirst(calls, allowed); }
  }

  /** An undeclared call ahead of a declared one: the result goes back under the id of
      the call that was dropped. */
  lemma DroppedCallTakesTheResult()
    ensures var calls := [Call("1", "ghost", ""), Call("2", "search", "")];
      && Kept(calls, {"search"}) == [calls[1]]
      && ResultMessages(["found"], Ids(calls)) == [Result("found", "1")]
  {
    var calls := [Call("1", "ghost", ""), Call("2", "search", "")];
    assert calls[1..] == [calls[1]] && [calls[1]][1..] == [];
    assert Kept([calls[1]], {"search"}) == [calls[1]];
    assert "ghost" != "search";
    ResultMessagesAt(["found"], Ids(calls));
  }
}
