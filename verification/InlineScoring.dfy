/** Scoring the answers of an agentic run against the dataset's assistant turns. Intent and
    command extraction are text processing and are given as functions. */
module InlineScoring {
  import opened Collections
  import opened ConversationData
  import opened CompletionJoin

  datatype Extractors = Extractors(
    workflow: string -> bool,              // is this a workflow conversation?
    intents: Row -> set<string>,
    actions: Row -> seq<string>)

  // ---- One turn

  predicate HasTruth(x: Extractors, conv: string, truth: Row) {
    if x.workflow(conv) then x.intents(truth) != {} else x.actions(truth) != []
  }

  /** Multiset union takes the larger count of each action. */
  function Union(a: multiset<string>, b: multiset<string>): multiset<string> {
    a + (b - a)
  }

  function Overlap(a: seq<string>, b: seq<string>): (r: real)
    requires a != []
    ensures 0.0 <= r <= 1.0
  {
    var common, union := multiset(a) * multiset(b), Union(multiset(a), multiset(b));
    UnionCovers(multiset(a), multiset(b));
    assert |multiset(a)| == |a|;
    Ratio(|common|, |union|);
    |common| as real / |union| as real
  }

  lemma Ratio(n: nat, d: nat)
    requires n <= d && d > 0
    ensures 0.0 <= n as real / d as real <= 1.0
    ensures n as real / d as real == 1.0 <==> n == d
    ensures n as real / d as real == 0.0 <==> n == 0
  {
    var q := n as real / d as real;
    assert q * d as real == n as real;
  }

  lemma MultisetInside<T>(small: multiset<T>, big: multiset<T>)
    requires small <= big
    ensures |small| <= |big| && (|small| == |big| <==> small == big)
  {
    assert big == small + (big - small);
    if |big - small| == 0 { assert big - small == multiset{}; }
  }

  lemma UnionCovers(a: multiset<string>, b: multiset<string>)
    ensures |a * b| <= |Union(a, b)| && |a| <= |Union(a, b)|
    ensures |a * b| == |Union(a, b)| <==> a == b
  {
    assert a * b <= Union(a, b) && a <= Union(a, b);
    MultisetInside(a * b, Union(a, b));
    MultisetInside(a, Union(a, b));
    if a * b == Union(a, b) {
      forall x ensures a[x] == b[x] { assert (a * b)[x] == Union(a, b)[x]; }
    }
  }

  lemma CommonAction(a: seq<string>, b: seq<string>)
    ensures |multiset(a) * multiset(b)| == 0 <==> forall x :: x in a ==> x !in b
  {
    var common := multiset(a) * multiset(b);
    if |common| == 0 {
      assert common == multiset{};
      forall x | x in a ensures x !in b { assert common[x] == 0 && x in multiset(a); }
    } else {
      var x :| x in common;
      assert x in multiset(a) && x in multiset(b);
      assert x in a && x in b;
    }
  }

  /** Full marks exactly for the same actions equally often, none exactly without a common
      action; and the measure is symmetric. */
  lemma OverlapExactly(a: seq<string>, b: seq<string>)
    requires a != []
    ensures Overlap(a, b) == 1.0 <==> multiset(a) == multiset(b)
    ensures Overlap(a, b) == 0.0 <==> forall x :: x in a ==> x !in b
    ensures b != [] ==> Overlap(a, b) == Overlap(b, a)
  {
    var ma, mb := multiset(a), multiset(b);
    UnionCovers(ma, mb);
    assert |ma| == |a|;
    Ratio(|ma * mb|, |Union(ma, mb)|);
    CommonAction(a, b);
    assert ma * mb == mb * ma && Union(ma, mb) == Union(mb, ma);
  }

  const NO_MODEL := Model(None, [])

  /** A turn without model output is scored as an empty answer. */
  function TurnScore(x: Extractors, conv: string, truth: Row, model: Option<Model>): real
    requires HasTruth(x, conv, truth)
  {
    var m := if model.Some? then model.value else NO_MODEL;
    if x.workflow(conv) then
      if m.intent.Some? && m.intent.value in x.intents(truth) then 1.0 else 0.0
    else Overlap(x.actions(truth), m.actions)
  }

  /** `least` and `most` hold every action as often as the less and the more frequent of
      two lists do. */
  ghost predicate MinMax(a: multiset<string>, b: multiset<string>, least: multiset<string>, most: multiset<string>) {
    && (forall x :: least[x] == if a[x] <= b[x] then a[x] else b[x])
    && (forall x :: most[x] == if a[x] <= b[x] then b[x] else a[x])
  }

  lemma MinMaxAre(a: multiset<string>, b: multiset<string>, least: multiset<string>, most: multiset<string>)
    requires MinMax(a, b, least, most)
    ensures least == a * b && most == Union(a, b)
  {
    forall x ensures least[x] == (a * b)[x] && most[x] == Union(a, b)[x] {}
  }

  lemma OverlapQuotient(a: seq<string>, b: seq<string>)
    requires a != []
    ensures var common, union := multiset(a) * multiset(b), Union(multiset(a), multiset(b));
      |union| > 0 && Overlap(a, b) == |common| as real / |union| as real
  {
    UnionCovers(multiset(a), multiset(b));
    assert |multiset(a)| == |a|;
  }

  /** The overlap is the sum of the smaller counts over the sum of the larger ones. */
  lemma OverlapIsMinOverMax(a: seq<string>, b: seq<string>, least: multiset<string>, most: multiset<string>)
    requires a != [] && MinMax(multiset(a), multiset(b), least, most)
    ensures |most| > 0 && Overlap(a, b) == |least| as real / |most| as real
  {
    MinMaxAre(multiset(a), multiset(b), least, most);
    OverlapQuotient(a, b);
  }

  function ActionsOf(model: Option<Model>): seq<string> {
    if model.Some? then model.value.actions else []
  }

  /** A workflow turn scores whether its intent is one of the expected ones, a coding turn
      the smaller over the larger counts of the actions; no output is no intent and no
      action. */
  lemma TurnScoreExactly(x: Extractors, conv: string, truth: Row, model: Option<Model>,
                         least: multiset<string>, most: multiset<string>)
    requires HasTruth(x, conv, truth)
    requires MinMax(multiset(x.actions(truth)), multiset(ActionsOf(model)), least, most)
    ensures var score := TurnScore(x, conv, truth, model);
      if x.workflow(conv) then
        score == if model.Some? && model.value.intent.Some? && model.value.intent.value in x.intents(truth) then 1.0
                 else 0.0
      else |most| > 0 && score == |least| as real / |most| as real
  {
    if !x.workflow(conv) { OverlapIsMinOverMax(x.actions(truth), ActionsOf(model), least, most); }
  }

  lemma TurnScoreInUnit(x: Extractors, conv: string, truth: Row, model: Option<Model>)
    requires HasTruth(x, conv, truth)
    ensures 0.0 <= TurnScore(x, conv, truth, model) <= 1.0
    ensures model.None? ==> TurnScore(x, conv, truth, model) == 0.0
  {
    if model.None? && !x.workflow(conv) { OverlapExactly(x.actions(truth), []); }
  }

  // ---- The run

  type Turns = map<Key, Option<Model>>

  function Where(key: Key): TurnKey {
    TurnKey(key.conversation, key.turn)
  }

  predicate Scorable(x: Extractors, expected: map<TurnKey, Row>, key: Key) {
    Where(key) in expected && HasTruth(x, key.conversation, expected[Where(key)])
  }

  /** A turn is scored exactly when an answer is expected there and has an intent, in a
      workflow conversation, or an action. */
  lemma ScorableExactlyWhen(x: Extractors, expected: map<TurnKey, Row>, key: Key)
    ensures Scorable(x, expected, key) <==>
      var at := TurnKey(key.conversation, key.turn);
      at in expected && if x.workflow(key.conversation) then exists i :: i in x.intents(expected[at])
                        else |x.actions(expected[at])| > 0
  {
    var at := TurnKey(key.conversation, key.turn);
    if at in expected && x.workflow(key.conversation) && x.intents(expected[at]) != {} {
      var i :| i in x.intents(expected[at]);
    }
  }

  function ModelAt(turns: Turns, key: Key): Option<Model> {
    if key in turns then turns[key] else None
  }

  predicate Observed(turns: Turns, key: Key) {
    key in turns && turns[key].Some?
  }

  /** One line of the report. */
  datatype TurnRow = TurnRow(workflow: bool, observed: bool, score: real)

  function RowOf(x: Extractors, expected: map<TurnKey, Row>, turns: Turns, key: Key): (row: TurnRow)
    requires Scorable(x, expected, key)
  {
    TurnRow(x.workflow(key.conversation), Observed(turns, key),
            TurnScore(x, key.conversation, expected[Where(key)], ModelAt(turns, key)))
  }

  predicate Fair(row: TurnRow) {
    0.0 <= row.score <= 1.0 && (row.observed || row.score == 0.0)
  }

  lemma RowIsFair(x: Extractors, expected: map<TurnKey, Row>, turns: Turns, key: Key)
    requires Scorable(x, expected, key)
    ensures Fair(RowOf(x, expected, turns, key))
  {
    TurnScoreInUnit(x, key.conversation, expected[Where(key)], ModelAt(turns, key));
  }

  /** Sum of the scores in one domain. */
  function Total(rows: seq<TurnRow>, workflow: bool): real {
    if rows == [] then 0.0
    else
      Total(rows[..|rows| - 1], workflow)
      + if rows[|rows| - 1].workflow == workflow then rows[|rows| - 1].score else 0.0
  }

  function Count(rows: seq<TurnRow>, workflow: bool): nat {
    if rows == [] then 0
    else Count(rows[..|rows| - 1], workflow) + if rows[|rows| - 1].workflow == workflow then 1 else 0
  }

  lemma TotalsNext(rows: seq<TurnRow>, row: TurnRow, workflow: bool)
    ensures Total(rows + [row], workflow) == Total(rows, workflow) + if row.workflow == workflow then row.score else 0.0
    ensures Count(rows + [row], workflow) == Count(rows, workflow) + if row.workflow == workflow then 1 else 0
  {
    assert (rows + [row])[..|rows|] == rows;
  }

  function ObservedRows(rows: seq<TurnRow>): nat {
    if rows == [] then 0
    else ObservedRows(rows[..|rows| - 1]) + if rows[|rows| - 1].observed then 1 else 0
  }

  /** Each domain's total is at most its number of turns, and both together at most the
      number of turns that were answered: an unanswered turn earns nothing. */
  lemma {:induction false} TotalsBounded(rows: seq<TurnRow>)
    requires forall k :: 0 <= k < |rows| ==> Fair(rows[k])
    ensures 0.0 <= Total(rows, false) <= Count(rows, false) as real
    ensures 0.0 <= Total(rows, true) <= Count(rows, true) as real
    ensures Count(rows, false) + Count(rows, true) == |rows| && ObservedRows(rows) <= |rows|
    ensures Total(rows, false) + Total(rows, true) <= ObservedRows(rows) as real
  {
    if rows != [] { TotalsBounded(rows[..|rows| - 1]); }
  }

  /** `rows` are, in order, the rows of the listed keys. */
  ghost predicate RowsOf(x: Extractors, expected: map<TurnKey, Row>, turns: Turns, keys: seq<Key>, rows: seq<TurnRow>) {
    if keys == [] || rows == [] then keys == [] && rows == []
    else
      var k, r := |keys| - 1, |rows| - 1;
      RowsOf(x, expected, turns, keys[..k], rows[..r]) && Scorable(x, expected, keys[k])
      && rows[r] == RowOf(x, expected, turns, keys[k])
  }

  lemma {:induction false} RowsOfKeys(x: Extractors, expected: map<TurnKey, Row>, turns: Turns, keys: seq<Key>,
                                      rows: seq<TurnRow>)
    requires RowsOf(x, expected, turns, keys, rows)
    ensures |rows| == |keys|
    ensures forall k :: 0 <= k < |rows| ==> Fair(rows[k]) && rows[k].observed == Observed(turns, keys[k])
  {
    if keys != [] {
      var front, before := keys[..|keys| - 1], rows[..|rows| - 1];
      RowsOfKeys(x, expected, turns, front, before);
      RowIsFair(x, expected, turns, keys[|keys| - 1]);
      assert forall k :: 0 <= k < |front| ==> rows[k] == before[k] && keys[k] == front[k];
    }
  }

  lemma {:induction false} ObservedSet(turns: Turns, keys: seq<Key>, rows: seq<TurnRow>)
    requires Distinct(keys) && |rows| == |keys|
    requires forall k :: 0 <= k < |rows| ==> rows[k].observed == Observed(turns, keys[k])
    ensures |set k | k in keys && Observed(turns, k)| == ObservedRows(rows)
  {
    if keys != [] {
      var n := |keys| - 1;
      ObservedSet(turns, keys[..n], rows[..n]);
      var before := set k | k in keys[..n] && Observed(turns, k);
      assert (set k | k in keys && Observed(turns, k))
          == if Observed(turns, keys[n]) then before + {keys[n]} else before;
    }
  }

  /** Each listed key has a row with its domain, whether it was answered, and the score of
      its answer against the expected one. */
  lemma {:induction false} RowsExactly(x: Extractors, expected: map<TurnKey, Row>, turns: Turns, keys: seq<Key>,
                                       rows: seq<TurnRow>, k: nat)
    requires RowsOf(x, expected, turns, keys, rows) && k < |keys|
    ensures |rows| == |keys| && TurnKey(keys[k].conversation, keys[k].turn) in expected
    ensures var truth := expected[TurnKey(keys[k].conversation, keys[k].turn)];
      var answer := if keys[k] in turns then turns[keys[k]] else None;
      && (if x.workflow(keys[k].conversation) then x.intents(truth) != {} else x.actions(truth) != [])
      && rows[k] == TurnRow(x.workflow(keys[k].conversation), answer.Some?,
                            TurnScore(x, keys[k].conversation, truth, answer))
  {
    var n, r := |keys| - 1, |rows| - 1;
    RowsOfKeys(x, expected, turns, keys, rows);
    if k < n { RowsExactly(x, expected, turns, keys[..n], rows[..r], k); }
  }

  /** Totals and counts add up row by row. */
  lemma {:induction false} TotalsConcat(a: seq<TurnRow>, b: seq<TurnRow>, workflow: bool)
    ensures Total(a + b, workflow) == Total(a, workflow) + Total(b, workflow)
    ensures Count(a + b, workflow) == Count(a, workflow) + Count(b, workflow)
  {
    if b == [] {
      assert a + b == a;
    } else {
      var n := |b| - 1;
      assert a + b == (a + b[..n]) + [b[n]] && b == b[..n] + [b[n]];
      TotalsConcat(a, b[..n], workflow);
      TotalsNext(a + b[..n], b[n], workflow);
      TotalsNext(b[..n], b[n], workflow);
    }
  }

  datatype Domain = Domain(total: real, scored: nat)

  /** A mean, kept as sum and number of scores. */
  datatype Mean = Mean(total: real, scored: nat)

  function Value(m: Mean): (v: real)
    requires m.scored > 0 && 0.0 <= m.total <= m.scored as real
    ensures 0.0 <= v <= 1.0 && v * m.scored as real == m.total
  {
    m.total / m.scored as real
  }

  datatype Report = Report(score: Option<Mean>, expected: nat, observed: nat, missing: nat,
                           coding: Domain, workflow: Domain, perTurn: seq<TurnRow>)

  method ScoreTurn(x: Extractors, expected: map<TurnKey, Row>, turns: Turns, keys: seq<Key>, k: nat,
                   ghost rows: seq<TurnRow>)
    returns (row: TurnRow)
    requires k < |keys| && RowsOf(x, expected, turns, keys[..k], rows) && Scorable(x, expected, keys[k])
    ensures RowsOf(x, expected, turns, keys[..k + 1], rows + [row])
  {
    row := RowOf(x, expected, turns, keys[k]);
    assert keys[..k + 1][..k] == keys[..k] && (rows + [row])[..|rows|] == rows;
  }

  function DomainOf(rows: seq<TurnRow>, workflow: bool): Domain {
    Domain(Total(rows, workflow), Count(rows, workflow))
  }

  lemma DomainNext(rows: seq<TurnRow>, row: TurnRow, workflow: bool)
    ensures var before := DomainOf(rows, workflow);
      DomainOf(rows + [row], workflow)
      == if row.workflow == workflow then Domain(before.total + row.score, before.scored + 1) else before
  {
    TotalsNext(rows, row, workflow);
  }

  /** The loop over the turns, with its running totals. */
  method Tally(x: Extractors, expected: map<TurnKey, Row>, turns: Turns, ordered: seq<Key>)
    returns (rows: seq<TurnRow>, total: real, coding: Domain, workflow: Domain)
    requires forall k :: 0 <= k < |ordered| ==> Scorable(x, expected, ordered[k])
    ensures RowsOf(x, expected, turns, ordered, rows)
    ensures coding == DomainOf(rows, false) && workflow == DomainOf(rows, true)
    ensures total == coding.total + workflow.total
  {
    assert ordered[..0] == [];
    rows, total, coding, workflow := [], 0.0, Domain(0.0, 0), Domain(0.0, 0);
    for k := 0 to |ordered|
      invariant RowsOf(x, expected, turns, ordered[..k], rows)
      invariant coding == DomainOf(rows, false) && workflow == DomainOf(rows, true)
      invariant total == coding.total + workflow.total
    {
      var row := ScoreTurn(x, expected, turns, ordered, k, rows);
      DomainNext(rows, row, false);
      DomainNext(rows, row, true);
      rows, total := rows + [row], total + row.score;
      if row.workflow {
        workflow := Domain(workflow.total + row.score, workflow.scored + 1);
      } else {
        coding := Domain(coding.total + row.score, coding.scored + 1);
      }
    }
    assert ordered[..|ordered|] == ordered;
  }

  lemma OutputCounts(turns: Turns, keys: seq<Key>, rows: seq<TurnRow>, expected: set<Key>, observed: set<Key>)
    requires Distinct(keys) && |rows| == |keys|
    requires forall k :: 0 <= k < |rows| ==> rows[k].observed == Observed(turns, keys[k])
    requires expected == (set k | k in keys) && observed == set k | k in turns && turns[k].Some? && k in expected
    ensures |expected| == |keys| && |observed| == ObservedRows(rows) && |observed| + |expected - observed| == |expected|
  {
    ObservedSet(turns, keys, rows);
    DistinctSize(keys);
    assert expected == Elements(keys);
    assert observed == set k | k in keys && Observed(turns, k);
    SubsetSize(observed, expected);
  }

  /** The mean over the expected turns; it cannot exceed the share of turns observed. */
  ghost predicate MeanOf(m: Mean, r: Report) {
    && m.scored == r.expected && m.total == r.coding.total + r.workflow.total
    && m.scored > 0 && 0.0 <= m.total <= r.observed as real <= m.scored as real
  }

  /** The report of the tallied rows. */
  method Summarise(turns: Turns, keys: seq<Key>, rows: seq<TurnRow>, total: real, coding: Domain, workflow: Domain)
    returns (r: Report)
    requires Distinct(keys) && |rows| == |keys| && total == Total(rows, false) + Total(rows, true)
    requires coding == DomainOf(rows, false) && workflow == DomainOf(rows, true)
    requires forall k :: 0 <= k < |rows| ==> Fair(rows[k]) && rows[k].observed == Observed(turns, keys[k])
    ensures r.perTurn == rows && r.coding == coding && r.workflow == workflow
    ensures r.expected == |keys| == r.coding.scored + r.workflow.scored && r.observed + r.missing == r.expected
    ensures r.observed == |set k | k in keys && Observed(turns, k)|
    ensures if keys == [] then r.score.None? else r.score.Some? && MeanOf(r.score.value, r)
  {
    TotalsBounded(rows);
    var expected := set k | k in keys;
    var observed := set k | k in turns && turns[k].Some? && k in expected;
    OutputCounts(turns, keys, rows, expected, observed);
    assert observed == set k | k in keys && Observed(turns, k);
    r := Report(if |keys| > 0 then Some(Mean(total, |keys|)) else None,
                |expected|, |observed|, |expected - observed|, coding, workflow, rows);
  }

  /** What a report says about the listed keys: their rows in order, the totals of the two
      domains, the counts, and the mean, which is missing exactly when nothing is listed. */
  ghost predicate IsReport(x: Extractors, expected: map<TurnKey, Row>, turns: Turns, keys: seq<Key>, r: Report) {
    && RowsOf(x, expected, turns, keys, r.perTurn)
    && r.coding == DomainOf(r.perTurn, false) && r.workflow == DomainOf(r.perTurn, true)
    && r.expected == |keys| == r.coding.scored + r.workflow.scored && r.observed + r.missing == r.expected
    && r.observed == |set k | k in keys && Observed(turns, k)|
    && if keys == [] then r.score.None? else r.score.Some? && MeanOf(r.score.value, r)
  }

  lemma {:induction false} RowsUnique(x: Extractors, expected: map<TurnKey, Row>, turns: Turns, keys: seq<Key>,
                                      a: seq<TurnRow>, b: seq<TurnRow>)
    requires RowsOf(x, expected, turns, keys, a) && RowsOf(x, expected, turns, keys, b)
    ensures a == b
  {
    if keys != [] {
      var m, n := |a| - 1, |b| - 1;
      RowsUnique(x, expected, turns, keys[..|keys| - 1], a[..m], b[..n]);
      assert a == a[..m] + [a[m]] && b == b[..n] + [b[n]];
    }
  }

  /** There is only one such report. */
  lemma ReportUnique(x: Extractors, expected: map<TurnKey, Row>, turns: Turns, keys: seq<Key>, a: Report, b: Report)
    requires IsReport(x, expected, turns, keys, a) && IsReport(x, expected, turns, keys, b)
    ensures a == b
  {
    RowsUnique(x, expected, turns, keys, a.perTurn, b.perTurn);
    assert a.coding == b.coding && a.workflow == b.workflow && a.observed == b.observed && a.missing == b.missing;
    if keys != [] { assert a.score.value == b.score.value; }
  }

  /** Scores the issued turns that have a ground truth, listed without repeats. No division
      is by zero, and every reported score lies between 0 and 1. */
  method Score(x: Extractors, expected: map<TurnKey, Row>, issued: set<Key>, turns: Turns, ordered: seq<Key>)
    returns (r: Report)
    requires Distinct(ordered) && Elements(ordered) == set k | k in issued && Scorable(x, expected, k)
    ensures IsReport(x, expected, turns, ordered, r)
  {
    forall k | 0 <= k < |ordered| ensures Scorable(x, expected, ordered[k]) {
      assert ordered[k] in Elements(ordered);
    }
    var rows, total, coding, workflow := Tally(x, expected, turns, ordered);
    RowsOfKeys(x, expected, turns, ordered, rows);
    r := Summarise(turns, ordered, rows, total, coding, workflow);
  }
}
