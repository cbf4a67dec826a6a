/** The inline scorer as a whole: expected turns from the dataset, the join over the event
    log, and the report over the sorted issued turns. */
module LogScore {
  import opened Collections
  import opened ConversationData
  import AgenticDataset
  import opened CompletionJoin
  import opened ExpectedTurns
  import opened InlineScoring

  type TurnKey = CompletionJoin.TurnKey

  // ---- the order of the issued turns

  predicate TextLess(a: string, b: string) {
    if a == "" || b == "" then |a| < |b|
    else a[0] < b[0] || (a[0] == b[0] && TextLess(a[1..], b[1..]))
  }

  /** Conversation, then repetition, then turn. */
  predicate Less(a: Key, b: Key) {
    TextLess(a.conversation, b.conversation)
    || (a.conversation == b.conversation
        && (a.repetition < b.repetition || (a.repetition == b.repetition && a.turn < b.turn)))
  }

  lemma {:induction false} TextLessTotal(a: string, b: string)
    ensures if a == b then !TextLess(a, b) else TextLess(a, b) != TextLess(b, a)
  {
    if a != "" && b != "" {
      TextLessTotal(a[1..], b[1..]);
      assert a == [a[0]] + a[1..] && b == [b[0]] + b[1..];
    }
  }

  lemma {:induction false} TextLessTransitive(a: string, b: string, c: string)
    requires TextLess(a, b) && TextLess(b, c)
    ensures TextLess(a, c)
  {
    if a != "" && b != "" && c != "" && a[0] == b[0] == c[0] { TextLessTransitive(a[1..], b[1..], c[1..]); }
  }

  /** Where two texts first differ decides, or that one of them ends there. */
  lemma {:induction false} TextLessAt(a: string, b: string, k: nat)
    requires k <= |a| && k <= |b| && a[..k] == b[..k]
    ensures k < |a| && k < |b| && a[k] != b[k] ==> (TextLess(a, b) <==> a[k] < b[k])
    ensures k == |a| || k == |b| ==> (TextLess(a, b) <==> |a| < |b|)
  {
    if k > 0 {
      assert a[0] == a[..k][0] == b[..k][0] == b[0];
      assert a[1..][..k - 1] == a[..k][1..] && b[1..][..k - 1] == b[..k][1..];
      TextLessAt(a[1..], b[1..], k - 1);
    }
  }

  /** The first of conversation, repetition and turn in which two keys differ decides. */
  lemma LessExactly(a: Key, b: Key)
    ensures a.conversation != b.conversation ==> (Less(a, b) <==> TextLess(a.conversation, b.conversation))
    ensures a.conversation == b.conversation && a.repetition != b.repetition
            ==> (Less(a, b) <==> a.repetition < b.repetition)
    ensures a.conversation == b.conversation && a.repetition == b.repetition ==> (Less(a, b) <==> a.turn < b.turn)
  {
    TextLessTotal(a.conversation, b.conversation);
  }

  lemma LessTotal(a: Key, b: Key)
    ensures if a == b then !Less(a, b) else Less(a, b) != Less(b, a)
  {
    TextLessTotal(a.conversation, b.conversation);
    TextLessTotal(b.conversation, a.conversation);
  }

  lemma LessTransitive(a: Key, b: Key, c: Key)
    requires Less(a, b) && Less(b, c)
    ensures Less(a, c)
  {
    if a.conversation != b.conversation && b.conversation != c.conversation {
      TextLessTransitive(a.conversation, b.conversation, c.conversation);
    }
  }

  ghost predicate Sorted(keys: seq<Key>) {
    forall i, j :: 0 <= i < j < |keys| ==> Less(keys[i], keys[j])
  }

  function Insert(key: Key, keys: seq<Key>): seq<Key> {
    if keys == [] || Less(keys[|keys| - 1], key) then keys + [key]
    else Insert(key, keys[..|keys| - 1]) + [keys[|keys| - 1]]
  }

  lemma {:induction false} InsertOk(key: Key, keys: seq<Key>)
    requires Sorted(keys) && key !in keys
    ensures Sorted(Insert(key, keys)) && Elements(Insert(key, keys)) == Elements(keys) + {key}
  {
    if keys != [] {
      var n := |keys| - 1;
      var front, last := keys[..n], keys[n];
      assert keys == front + [last];
      ElementsAppend(front, last);
      LessTotal(last, key);
      if Less(last, key) {
        ElementsAppend(keys, key);
        forall k | 0 <= k < n ensures Less(keys[k], key) { LessTransitive(keys[k], last, key); }
      } else {
        InsertOk(key, front);
        ElementsAppend(Insert(key, front), last);
        forall k | k in Insert(key, front) ensures Less(k, last) {
          assert k in Elements(Insert(key, front));
        }
      }
    }
  }

  lemma SortedDistinct(keys: seq<Key>)
    requires Sorted(keys)
    ensures Distinct(keys)
  {
    forall i, j | 0 <= i < j < |keys| ensures keys[i] != keys[j] {
      LessTotal(keys[i], keys[j]);
    }
  }

  method SortKeys(keys: set<Key>) returns (ordered: seq<Key>)
    ensures Sorted(ordered) && Elements(ordered) == keys
  {
    ordered := [];
    var left := keys;
    while left != {}
      invariant Sorted(ordered) && left <= keys && Elements(ordered) == keys - left
      decreases |left|
    {
      var key :| key in left;
      assert key !in Elements(ordered);
      InsertOk(key, ordered);
      ordered, left := Insert(key, ordered), left - {key};
    }
  }

  lemma NoElements(keys: seq<Key>)
    ensures keys == [] <==> Elements(keys) == {}
  {
    if keys != [] { assert keys[0] in Elements(keys); }
  }

  /** A set of keys has one sorted listing. */
  lemma {:induction false} SortedUnique(a: seq<Key>, b: seq<Key>)
    requires Sorted(a) && Sorted(b) && Elements(a) == Elements(b)
    ensures a == b
  {
    NoElements(a);
    NoElements(b);
    if a != [] {
      var m, n := |a| - 1, |b| - 1;
      assert a[m] in Elements(b);
      LastIsGreatest(a, b[n]);
      LastIsGreatest(b, a[m]);
      LessTotal(a[m], b[n]);
      FrontElements(a);
      FrontElements(b);
      SortedUnique(a[..m], b[..n]);
      assert a == a[..m] + [a[m]] && b == b[..n] + [b[n]];
    }
  }

  lemma LastIsGreatest(keys: seq<Key>, key: Key)
    requires Sorted(keys) && key in Elements(keys)
    ensures key == keys[|keys| - 1] || Less(key, keys[|keys| - 1])
  {
    var k :| 0 <= k < |keys| && keys[k] == key;
  }

  lemma FrontElements(keys: seq<Key>)
    requires Sorted(keys) && keys != []
    ensures Elements(keys[..|keys| - 1]) == Elements(keys) - {keys[|keys| - 1]}
  {
    var n := |keys| - 1;
    SortedDistinct(keys);
    assert keys == keys[..n] + [keys[n]];
    ElementsAppend(keys[..n], keys[n]);
    assert keys[n] !in keys[..n];
  }

  // ---- the scorer

  /** The report over the listed keys, the number of issued turns and of repetitions. */
  datatype LogReport = LogReport(keys: seq<Key>, report: Report, issued: nat, repetitions: nat)

  function ScorableKeys(x: Extractors, expected: map<TurnKey, Row>, issued: set<Key>): set<Key> {
    set k | k in issued && Scorable(x, expected, k)
  }

  ghost predicate IsLogReport(x: Extractors, expected: map<TurnKey, Row>, split: string -> (string, int),
                              log: seq<Record>, r: LogReport)
  {
    var end := After(log, Filter(expected.Keys, split));
    && Sorted(r.keys) && Elements(r.keys) == ScorableKeys(x, expected, end.issued)
    && IsReport(x, expected, end.turns, r.keys, r.report)
    && r.issued == |end.issued| && r.repetitions == |set k | k in end.issued :: k.repetition|
  }

  method ScoreLog(x: Extractors, file: seq<Row>, split: string -> (string, int), log: seq<Record>)
    returns (expected: map<TurnKey, Row>, r: LogReport)
    ensures forall key: TurnKey ::
      var rows := AgenticDataset.TurnOrder(file, key.conversation); ExpectsExactly(rows, |rows|, key, expected)
    ensures IsLogReport(x, expected, split, log, r)
  {
    expected := ExpectedAssistantTurns(file);
    var issued, turns := IssuedAndCompleted(log, Filter(expected.Keys, split));
    var ordered := SortKeys(ScorableKeys(x, expected, issued));
    SortedDistinct(ordered);
    var report := Score(x, expected, issued, turns, ordered);
    r := LogReport(ordered, report, |issued|, |set k | k in issued :: k.repetition|);
  }

  /** A turn's line scores the answer the log holds for its uuid, wherever its records
      stand, against the row the dataset expects. */
  lemma EachTurnScoresItsAnswer(x: Extractors, expected: map<TurnKey, Row>, split: string -> (string, int),
                                log: seq<Record>, r: LogReport, uuid: string, k: nat)
    requires OneToOne(log, Filter(expected.Keys, split)) && IsLogReport(x, expected, split, log, r)
    requires k < |r.keys| && WasIssued(log, Filter(expected.Keys, split), uuid, r.keys[k])
    ensures |r.report.perTurn| == |r.keys| && Where(r.keys[k]) in expected
    ensures var conv, truth := r.keys[k].conversation, expected[Where(r.keys[k])];
      var answer := Answer(log, Filter(expected.Keys, split), uuid);
      var model := if answer.Some? then answer.value else None;
      HasTruth(x, conv, truth)
      && r.report.perTurn[k] == TurnRow(x.workflow(conv), model.Some?, TurnScore(x, conv, truth, model))
  {
    var f := Filter(expected.Keys, split);
    TurnsAreAnswers(log, f, uuid, r.keys[k]);
    RowsExactly(x, expected, After(log, f).turns, r.keys, r.report.perTurn, k);
    assert CompletionJoin.Lookup(After(log, f).turns, r.keys[k]) == Answer(log, f, uuid);
  }

  // ---- what of the log's order shows in the score

  /** The completions of one uuid, in the order of the log. */
  function CompletionsOf(log: seq<Record>, uuid: string): seq<Record> {
    if log == [] then []
    else
      var last := log[|log| - 1];
      CompletionsOf(log[..|log| - 1], uuid) + if last.kind.Completion? && last.uuid == uuid then [last] else []
  }

  /** The same ISSUED records anywhere, and uuid by uuid the same completions in order. */
  ghost predicate SameRecords(a: seq<Record>, b: seq<Record>) {
    && (forall r: Record :: r.kind.Issue? ==> (r in a <==> r in b))
    && forall u :: CompletionsOf(a, u) == CompletionsOf(b, u)
  }

  lemma {:induction false} AnswerOfCompletions(log: seq<Record>, f: Filter, uuid: string)
    ensures Answer(log, f, uuid) == Answer(CompletionsOf(log, uuid), f, uuid)
  {
    if log != [] {
      var n := |log| - 1;
      var before := CompletionsOf(log[..n], uuid);
      AnswerOfCompletions(log[..n], f, uuid);
      assert before + [] == before && (before + [log[n]])[..|before|] == before;
    }
  }

  lemma IssuesOfRecords(a: seq<Record>, b: seq<Record>, f: Filter, uuid: string, key: Key)
    requires forall r: Record :: r.kind.Issue? ==> (r in a <==> r in b)
    ensures WasIssued(a, f, uuid, key) ==> WasIssued(b, f, uuid, key)
  {
    if WasIssued(a, f, uuid, key) {
      var i :| 0 <= i < |a| && Issues(a[i], f, uuid, key);
      assert a[i] in b;
      var j :| 0 <= j < |b| && b[j] == a[i];
      assert Issues(b[j], f, uuid, key);
    }
  }

  lemma OneToOneOfRecords(a: seq<Record>, b: seq<Record>, f: Filter)
    requires SameRecords(a, b) && OneToOne(a, f)
    ensures OneToOne(b, f)
  {
    forall i, j, u, v, k, l | 0 <= i < |b| && 0 <= j < |b| && Issues(b[i], f, u, k) && Issues(b[j], f, v, l)
      ensures u == v <==> k == l
    {
      assert WasIssued(b, f, u, k) && WasIssued(b, f, v, l);
      IssuesOfRecords(b, a, f, u, k);
      IssuesOfRecords(b, a, f, v, l);
      OneToOneIssues(a, f, u, k, v, l);
    }
  }

  lemma JoinOfRecords(a: seq<Record>, b: seq<Record>, f: Filter)
    requires SameRecords(a, b) && OneToOne(a, f)
    ensures After(a, f).issued == After(b, f).issued && After(a, f).turns == After(b, f).turns
  {
    OneToOneOfRecords(a, b, f);
    forall u, k ensures WasIssued(a, f, u, k) <==> WasIssued(b, f, u, k) {
      IssuesOfRecords(a, b, f, u, k);
      IssuesOfRecords(b, a, f, u, k);
    }
    forall u ensures Answer(a, f, u) == Answer(b, f, u) {
      AnswerOfCompletions(a, f, u);
      AnswerOfCompletions(b, f, u);
    }
    JoinIgnoresOrder(a, b, f);
  }

  /** The score of a log does not depend on where its ISSUED records stand, nor on how the
      samples interleave: only the order of one uuid's own completions can matter. */
  lemma ScoreIgnoresOrder(x: Extractors, expected: map<TurnKey, Row>, split: string -> (string, int),
                          a: seq<Record>, b: seq<Record>, r: LogReport, s: LogReport)
    requires OneToOne(a, Filter(expected.Keys, split)) && SameRecords(a, b)
    requires IsLogReport(x, expected, split, a, r) && IsLogReport(x, expected, split, b, s)
    ensures r == s
  {
    var f := Filter(expected.Keys, split);
    JoinOfRecords(a, b, f);
    SortedUnique(r.keys, s.keys);
    ReportUnique(x, expected, After(a, f).turns, r.keys, r.report, s.report);
  }

  // ---- two uuids for one key

  const TRUTH := Row("c", 2, Assistant, None, None, None, None, None, None)
  const WANTED: map<TurnKey, Row> := map[TurnKey("c", 1) := TRUTH]
  const WORKFLOW := Extractors(conv => true, row => {"I002"}, row => [])

  lemma OneKey(keys: seq<Key>, key: Key)
    requires Elements(keys) == {key} && Sorted(keys)
    ensures keys == [key]
  {
    SortedUnique(keys, [key]);
  }

  /** What a workflow run of one turn scores. */
  lemma OneTurnScore(model: Model, turns: Turns, keys: seq<Key>, r: Report)
    requires model.intent.Some? && model.intent.value in {"I001", "I002"}
    requires keys == [Key("c", 1, 1)] && turns == map[Key("c", 1, 1) := Some(model)]
    requires IsReport(WORKFLOW, WANTED, turns, keys, r)
    ensures r.score == Some(Mean(if model.intent.value == "I002" then 1.0 else 0.0, 1))
  {
    var row := RowOf(WORKFLOW, WANTED, turns, keys[0]);
    assert keys[..0] == [];
    assert r.perTurn == [row] by {
      assert RowsOf(WORKFLOW, WANTED, turns, keys[..0], r.perTurn[..|r.perTurn| - 1]);
    }
    assert [row][..0] == [];
    assert Total([row], true) == row.score && Total([row], false) == 0.0;
    assert "I001" != "I002";
  }

  /** The same issues, and per uuid the same answers, score full marks in one order and
      nothing in the other when two uuids were issued for one turn. */
  lemma SharedKeyScoreDependsOnOrder(r: LogReport, s: LogReport)
    requires IsLogReport(WORKFLOW, WANTED, PLAIN.split, InOrder(), r)
    requires IsLogReport(WORKFLOW, WANTED, PLAIN.split, Swapped(), s)
    ensures SameRecords(InOrder(), Swapped())
    ensures r.report.score == Some(Mean(1.0, 1)) && s.report.score == Some(Mean(0.0, 1))
  {
    var key := Key("c", 1, 1);
    assert Filter(WANTED.Keys, PLAIN.split) == PLAIN;
    SharedTurns("x", "y", FIRST, SECOND);
    SharedTurns("y", "x", SECOND, FIRST);
    assert {"y", "x"} == {"x", "y"};
    assert Where(key) in WANTED && Scorable(WORKFLOW, WANTED, key);
    assert ScorableKeys(WORKFLOW, WANTED, {key}) == {key};
    OneKey(r.keys, key);
    OneKey(s.keys, key);
    OneTurnScore(SECOND, map[key := Some(SECOND)], r.keys, r.report);
    OneTurnScore(FIRST, map[key := Some(FIRST)], s.keys, s.report);
    SharedRecords();
  }

  lemma SharedRecords()
    ensures SameRecords(InOrder(), Swapped())
  {
    var a, b := InOrder(), Swapped();
    forall u ensures CompletionsOf(a, u) == CompletionsOf(b, u) {
      CompletionsOfFour(a, u);
      CompletionsOfFour(b, u);
    }
  }

  lemma CompletionsOfFour(log: seq<Record>, u: string)
    requires |log| == 4 && log[0].kind.Issue? && log[1].kind.Issue?
    ensures CompletionsOf(log, u)
      == (if log[2].kind.Completion? && log[2].uuid == u then [log[2]] else [])
       + (if log[3].kind.Completion? && log[3].uuid == u then [log[3]] else [])
  {
    assert log[..3][..2] == log[..2] && log[..2][..1] == log[..1] && log[..1][..0] == [];
    assert CompletionsOf(log[..2], u) == CompletionsOf(log[..1], u) == [];
  }
}
