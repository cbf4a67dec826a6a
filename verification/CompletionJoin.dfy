/** Joining issued turns with their completions in one pass over the event log, where a
    completion may be logged before or after its issue. */
module CompletionJoin {
  import opened Collections

  datatype TurnKey = TurnKey(conversation: string, turn: int)
  datatype Key = Key(conversation: string, repetition: int, turn: int)

  /** What the extractors find in a model completion. */
  datatype Model = Model(intent: Option<string>, actions: seq<string>)

  /** A completion without model output (a failed turn) carries `None`. */
  datatype Kind = Issue | Completion(model: Option<Model>) | Unrelated | Malformed

  datatype Record = Record(kind: Kind, uuid: string, conversation: string, turn: Option<int>)

  /** The turns that have an expected answer, and how a repeat suffix is split off. */
  datatype Filter = Filter(expected: set<TurnKey>, split: string -> (string, int))

  function KeyOf(r: Record, f: Filter): Option<Key> {
    if !(r.kind.Issue? || r.kind.Completion?) || r.turn.None? || r.conversation == "" then None
    else
      var (conversation, repetition) := f.split(r.conversation);
      if TurnKey(conversation, r.turn.value) !in f.expected then None
      else Some(Key(conversation, repetition, r.turn.value))
  }

  /** A record counts for a key exactly when it is an issue or a completion with a turn and
      a conversation, whose parts are the key's and whose turn expects an answer. */
  lemma KeyOfExactly(r: Record, f: Filter, key: Key)
    ensures KeyOf(r, f) == Some(key) <==>
      && (r.kind.Issue? || r.kind.Completion?) && r.conversation != "" && r.turn == Some(key.turn)
      && f.split(r.conversation) == (key.conversation, key.repetition)
      && TurnKey(key.conversation, key.turn) in f.expected
  {
  }

  predicate Issues(r: Record, f: Filter, uuid: string, key: Key) {
    r.kind.Issue? && r.uuid == uuid && KeyOf(r, f) == Some(key)
  }

  predicate Completes(r: Record, f: Filter, uuid: string) {
    r.kind.Completion? && r.uuid == uuid && KeyOf(r, f).Some?
  }

  // ---- What the log says

  /** The answer to `uuid`: absent without a completion, otherwise the last one with model
      output, or a null one if none has any. */
  function Answer(log: seq<Record>, f: Filter, uuid: string): Option<Option<Model>> {
    if log == [] then None
    else
      var before, last := Answer(log[..|log| - 1], f, uuid), log[|log| - 1];
      if !Completes(last, f, uuid) then before
      else if last.kind.model.Some? || before.None? then Some(last.kind.model)
      else before
  }

  /** Each uuid is issued for one key only, and each key under one uuid only. */
  ghost predicate OneToOne(log: seq<Record>, f: Filter) {
    forall i, j, u, v, k, l :: 0 <= i < |log| && 0 <= j < |log| && Issues(log[i], f, u, k) && Issues(log[j], f, v, l)
      ==> (u == v <==> k == l)
  }

  ghost predicate WasIssued(log: seq<Record>, f: Filter, uuid: string, key: Key) {
    exists i :: 0 <= i < |log| && Issues(log[i], f, uuid, key)
  }

  // ---- The fold

  datatype State = State(
    keys: map<string, Key>,
    completed: map<string, Option<Model>>,
    issued: set<Key>,
    turns: map<Key, Option<Model>>)

  function Next(s: State, r: Record, f: Filter): State {
    match KeyOf(r, f)
    case None => s
    case Some(key) =>
      match r.kind
      case Issue =>
        s.(keys := s.keys[r.uuid := key], issued := s.issued + {key},
           turns := if r.uuid in s.completed then s.turns[key := s.completed[r.uuid]] else s.turns)
      case Completion(model) =>
        var t := if model.Some? || r.uuid !in s.completed then s.(completed := s.completed[r.uuid := model]) else s;
        if r.uuid in s.keys && (model.Some? || s.keys[r.uuid] !in s.turns)
        then t.(turns := s.turns[s.keys[r.uuid] := model]) else t
      case _ => s
  }

  function After(log: seq<Record>, f: Filter): State {
    if log == [] then State(map[], map[], {}, map[])
    else Next(After(log[..|log| - 1], f), log[|log| - 1], f)
  }

  function Lookup<K, V>(m: map<K, V>, k: K): Option<V> {
    if k in m then Some(m[k]) else None
  }

  lemma {:induction false} CompletedAreAnswers(log: seq<Record>, f: Filter, uuid: string)
    ensures Lookup(After(log, f).completed, uuid) == Answer(log, f, uuid)
  {
    if log != [] { CompletedAreAnswers(log[..|log| - 1], f, uuid); }
  }

  lemma {:induction false} KeysWereIssued(log: seq<Record>, f: Filter, uuid: string)
    ensures var keys := After(log, f).keys;
      if uuid in keys then WasIssued(log, f, uuid, keys[uuid]) else forall k :: !WasIssued(log, f, uuid, k)
  {
    if log != [] {
      var before := log[..|log| - 1];
      KeysWereIssued(before, f, uuid);
      forall k
        ensures WasIssued(log, f, uuid, k) <==> WasIssued(before, f, uuid, k) || Issues(log[|log| - 1], f, uuid, k)
      {
        IssuedNext(log, f, uuid, k);
      }
    }
  }

  lemma IssuedNext(log: seq<Record>, f: Filter, uuid: string, key: Key)
    requires log != []
    ensures var n := |log| - 1;
      WasIssued(log, f, uuid, key) <==> WasIssued(log[..n], f, uuid, key) || Issues(log[n], f, uuid, key)
  {
    var n := |log| - 1;
    if WasIssued(log[..n], f, uuid, key) {
      var i :| 0 <= i < n && Issues(log[..n][i], f, uuid, key);
      assert Issues(log[i], f, uuid, key);
    }
    if WasIssued(log, f, uuid, key) && !Issues(log[n], f, uuid, key) {
      var i :| 0 <= i < |log| && Issues(log[i], f, uuid, key);
      assert Issues(log[..n][i], f, uuid, key);
    }
  }

  lemma {:induction false} IssuedSet(log: seq<Record>, f: Filter, key: Key)
    ensures key in After(log, f).issued <==> exists u :: WasIssued(log, f, u, key)
  {
    if log != [] {
      var n := |log| - 1;
      IssuedSet(log[..n], f, key);
      forall u ensures WasIssued(log, f, u, key) <==> WasIssued(log[..n], f, u, key) || Issues(log[n], f, u, key) {
        IssuedNext(log, f, u, key);
      }
      if Issues(log[n], f, log[n].uuid, key) { assert WasIssued(log, f, log[n].uuid, key); }
    }
  }

  lemma OneToOnePrefix(log: seq<Record>, f: Filter)
    requires log != [] && OneToOne(log, f)
    ensures OneToOne(log[..|log| - 1], f)
  {
  }

  lemma OneToOneIssues(log: seq<Record>, f: Filter, u: string, k: Key, v: string, l: Key)
    requires OneToOne(log, f) && WasIssued(log, f, u, k) && WasIssued(log, f, v, l)
    ensures u == v <==> k == l
  {
  }

  lemma {:induction false} OnlyIssuedHeld(log: seq<Record>, f: Filter, key: Key)
    requires key in After(log, f).turns
    ensures key in After(log, f).issued
  {
    if log != [] {
      var before, r := log[..|log| - 1], log[|log| - 1];
      if key in After(before, f).turns { OnlyIssuedHeld(before, f, key); }
      KeysWereIssued(before, f, r.uuid);
      IssuedSet(before, f, key);
    }
  }

  /** An issue that the prefix does not have is of a key that the prefix does not hold. */
  lemma NewIssueUnheld(log: seq<Record>, f: Filter, uuid: string, key: Key)
    requires log != [] && OneToOne(log, f) && WasIssued(log, f, uuid, key)
    requires !WasIssued(log[..|log| - 1], f, uuid, key)
    ensures key !in After(log[..|log| - 1], f).turns
  {
    var before := log[..|log| - 1];
    if key in After(before, f).turns {
      OnlyIssuedHeld(before, f, key);
      IssuedSet(before, f, key);
      var u :| WasIssued(before, f, u, key);
      IssuedNext(log, f, u, key);
      OneToOneIssues(log, f, u, key, uuid, key);
    }
  }

  /** The join: every issued key holds the answer to its uuid, wherever the issue stands
      relative to the completions. */
  lemma {:induction false} TurnsAreAnswers(log: seq<Record>, f: Filter, uuid: string, key: Key)
    requires OneToOne(log, f) && WasIssued(log, f, uuid, key)
    ensures Lookup(After(log, f).turns, key) == Answer(log, f, uuid)
  {
    var before, r := log[..|log| - 1], log[|log| - 1];
    OneToOnePrefix(log, f);
    IssuedNext(log, f, uuid, key);
    CompletedAreAnswers(before, f, uuid);
    KeysWereIssued(before, f, r.uuid);
    var keys := After(before, f).keys;
    if r.uuid in keys {
      IssuedNext(log, f, r.uuid, keys[r.uuid]);
      OneToOneIssues(log, f, r.uuid, keys[r.uuid], uuid, key);
    }
    if WasIssued(before, f, uuid, key) {
      TurnsAreAnswers(before, f, uuid, key);
      KeysWereIssued(before, f, uuid);
    } else {
      NewIssueUnheld(log, f, uuid, key);
    }
    if r.kind.Issue? && KeyOf(r, f).Some? {
      assert WasIssued(log, f, r.uuid, KeyOf(r, f).value);
      OneToOneIssues(log, f, r.uuid, KeyOf(r, f).value, uuid, key);
    }
  }

  /** Two logs with the same issues and, uuid by uuid, the same answers join alike: only the
      order of one uuid's own completions can matter. */
  lemma JoinIgnoresOrder(a: seq<Record>, b: seq<Record>, f: Filter)
    requires OneToOne(a, f) && OneToOne(b, f)
    requires forall u, k :: WasIssued(a, f, u, k) <==> WasIssued(b, f, u, k)
    requires forall u :: Answer(a, f, u) == Answer(b, f, u)
    ensures After(a, f).issued == After(b, f).issued && After(a, f).turns == After(b, f).turns
  {
    var s, t := After(a, f), After(b, f);
    forall k ensures (k in s.issued <==> k in t.issued) && Lookup(s.turns, k) == Lookup(t.turns, k) {
      IssuedSet(a, f, k);
      IssuedSet(b, f, k);
      if k in s.issued {
        var u :| WasIssued(a, f, u, k);
        TurnsAreAnswers(a, f, u, k);
        TurnsAreAnswers(b, f, u, k);
      } else {
        if k in s.turns { OnlyIssuedHeld(a, f, k); }
        if k in t.turns { OnlyIssuedHeld(b, f, k); }
      }
    }
    assert forall k :: k in s.turns ==> Lookup(s.turns, k) == Lookup(t.turns, k);
    assert forall k :: k in t.turns ==> Lookup(s.turns, k) == Lookup(t.turns, k);
  }

  lemma FourSteps(log: seq<Record>, f: Filter)
    requires |log| == 4
    ensures After(log, f) == Next(Next(Next(Next(After([], f), log[0], f), log[1], f), log[2], f), log[3], f)
  {
    assert log[..3][..2] == log[..2] && log[..2][..1] == log[..1] && log[..1][..0] == [];
    assert After(log[..2], f) == Next(After(log[..1], f), log[1], f);
    assert After(log[..3], f) == Next(After(log[..2], f), log[2], f);
  }

  lemma AnswerOfFour(log: seq<Record>, f: Filter, u: string)
    requires |log| == 4 && log[0].kind.Issue? && log[1].kind.Issue?
    ensures Answer(log, f, u) == (
      var third := if Completes(log[2], f, u) then Some(log[2].kind.model) else None;
      if Completes(log[3], f, u) && (log[3].kind.model.Some? || third.None?) then Some(log[3].kind.model) else third)
  {
    assert log[..3][..2] == log[..2] && log[..2][..1] == log[..1] && log[..1][..0] == [];
    assert Answer(log[..2], f, u) == Answer(log[..1], f, u) == None;
  }

  const PLAIN := Filter({TurnKey("c", 1)}, s => (s, 1))
  const FIRST := Model(Some("I001"), [])
  const SECOND := Model(Some("I002"), [])

  /** Two uuids issued for the one turn. */
  function SharedIssue(uuid: string): Record {
    Record(Issue, uuid, "c", Some(1))
  }

  function SharedAnswer(uuid: string, model: Model): Record {
    Record(Completion(Some(model)), uuid, "c", Some(1))
  }

  /** Both issues, then the answers in one order or the other. */
  function InOrder(): seq<Record> {
    [SharedIssue("x"), SharedIssue("y"), SharedAnswer("x", FIRST), SharedAnswer("y", SECOND)]
  }

  function Swapped(): seq<Record> {
    [SharedIssue("x"), SharedIssue("y"), SharedAnswer("y", SECOND), SharedAnswer("x", FIRST)]
  }

  lemma SharedAnswers(u: string)
    ensures Answer(InOrder(), PLAIN, u) == Answer(Swapped(), PLAIN, u)
  {
    AnswerOfFour(InOrder(), PLAIN, u);
    AnswerOfFour(Swapped(), PLAIN, u);
  }

  /** What two answered issues of one key leave behind. */
  lemma SharedTurns(u: string, v: string, p: Model, q: Model)
    requires u != v
    ensures var log := [SharedIssue("x"), SharedIssue("y"), SharedAnswer(u, p), SharedAnswer(v, q)];
      var key := Key("c", 1, 1);
      {u, v} == {"x", "y"} ==> After(log, PLAIN).issued == {key} && After(log, PLAIN).turns == map[key := Some(q)]
  {
    FourSteps([SharedIssue("x"), SharedIssue("y"), SharedAnswer(u, p), SharedAnswer(v, q)], PLAIN);
  }

  /** With two uuids issued for one key the order across uuids does matter. */
  lemma SharedKeyDependsOnOrder()
    ensures forall u :: Answer(InOrder(), PLAIN, u) == Answer(Swapped(), PLAIN, u)
    ensures After(InOrder(), PLAIN).issued == After(Swapped(), PLAIN).issued
    ensures After(InOrder(), PLAIN).turns != After(Swapped(), PLAIN).turns
  {
    forall u ensures Answer(InOrder(), PLAIN, u) == Answer(Swapped(), PLAIN, u) {
      SharedAnswers(u);
    }
    SharedTurns("x", "y", FIRST, SECOND);
    SharedTurns("y", "x", SECOND, FIRST);
    assert {"y", "x"} == {"x", "y"};
    var key := Key("c", 1, 1);
    assert map[key := Some(SECOND)][key] != map[key := Some(FIRST)][key];
  }

  /** The one-pass reader of the event log. */
  method IssuedAndCompleted(log: seq<Record>, f: Filter)
    returns (issued: set<Key>, turns: map<Key, Option<Model>>)
    ensures issued == After(log, f).issued && turns == After(log, f).turns
  {
    var keys: map<string, Key> := map[];
    var completed: map<string, Option<Model>> := map[];
    issued, turns := {}, map[];
    for k := 0 to |log|
      invariant State(keys, completed, issued, turns) == After(log[..k], f)
    {
      var r := log[k];
      assert log[..k + 1][..k] == log[..k];
      if r.kind.Malformed? || r.kind.Unrelated? { continue; }
      if r.turn.None? || r.conversation == "" { continue; }
      var (conversation, repetition) := f.split(r.conversation);
      if TurnKey(conversation, r.turn.value) !in f.expected { continue; }
      var key := Key(conversation, repetition, r.turn.value);
      if r.kind.Issue? {
        keys := keys[r.uuid := key];
        issued := issued + {key};
        if r.uuid in completed { turns := turns[key := completed[r.uuid]]; }
        continue;
      }
      var model := r.kind.model;
      if model.Some? || r.uuid !in completed { completed := completed[r.uuid := model]; }
      if r.uuid in keys {
        key := keys[r.uuid];
        if model.Some? || key !in turns { turns := turns[key := model]; }
      }
    }
    assert log[..|log|] == log;
  }
}
