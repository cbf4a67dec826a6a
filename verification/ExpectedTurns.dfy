/** The assistant turns a dataset expects, found by pairing each client row with the row
    that follows it in turn order. */
module ExpectedTurns {
  import opened Collections
  import opened ConversationData
  import opened ConversationChecks
  import opened AgenticDataset
  import CompletionJoin
  import SampleIndex

  type TurnKey = CompletionJoin.TurnKey

  function At(r: Row): TurnKey {
    CompletionJoin.TurnKey(r.conv, r.turn)
  }

  /** The row at `k` is a client row directly followed, in turn order, by an assistant row. */
  predicate IsAnswered(rows: seq<Row>, k: nat) {
    k + 1 < |rows| && IsClient(rows[k].role) && rows[k + 1].role == Assistant
  }

  /** `answer` is what the conversation expects at `key`: where a turn number repeats, the
      last such pair counts. */
  ghost predicate Expects(rows: seq<Row>, n: nat, key: TurnKey, answer: Row) {
    exists k: nat ::
      k < n && IsAnswered(rows, k) && At(rows[k]) == key && rows[k + 1] == answer && NoneAt(rows, k + 1, n, key)
  }

  ghost predicate NoneAt(rows: seq<Row>, m: nat, n: nat, key: TurnKey) {
    forall j: nat :: m <= j < n && IsAnswered(rows, j) ==> At(rows[j]) != key
  }

  ghost predicate ExpectsExactly(rows: seq<Row>, n: nat, key: TurnKey, expected: map<TurnKey, Row>) {
    if key in expected then Expects(rows, n, key, expected[key]) else NoneAt(rows, 0, n, key)
  }

  method ExpectedIn(rows: seq<Row>, conv: string) returns (expected: map<TurnKey, Row>)
    requires forall k :: 0 <= k < |rows| ==> rows[k].conv == conv
    ensures forall key :: ExpectsExactly(rows, |rows|, key, expected)
    ensures forall key :: key in expected ==> key.conversation == conv
  {
    expected := map[];
    for k := 0 to |rows|
      invariant forall key :: ExpectsExactly(rows, k, key, expected)
      invariant forall key :: key in expected ==> key.conversation == conv
    {
      ghost var was := expected;
      if k + 1 < |rows| && IsClient(rows[k].role) && rows[k + 1].role == Assistant {
        expected := expected[At(rows[k]) := rows[k + 1]];
      }
      ghost var next := k + 1;
      forall key ensures ExpectsExactly(rows, next, key, expected) {
        assert ExpectsExactly(rows, k, key, was);
        ExpectsNext(rows, k, key, was, expected);
      }
    }
  }

  lemma ExpectsNext(rows: seq<Row>, k: nat, key: TurnKey, was: map<TurnKey, Row>, now: map<TurnKey, Row>)
    requires k < |rows| && ExpectsExactly(rows, k, key, was)
    requires now == if IsAnswered(rows, k) then was[At(rows[k]) := rows[k + 1]] else was
    ensures ExpectsExactly(rows, k + 1, key, now)
  {
    if IsAnswered(rows, k) && At(rows[k]) == key {
      assert Expects(rows, k + 1, key, rows[k + 1]);
    } else if key in was {
      var i: nat :| i < k && IsAnswered(rows, i) && At(rows[i]) == key && rows[i + 1] == was[key]
        && NoneAt(rows, i + 1, k, key);
      assert Expects(rows, k + 1, key, was[key]);
    }
  }

  lemma SameAnswer(rows: seq<Row>, n: nat, key: TurnKey, a: map<TurnKey, Row>, b: map<TurnKey, Row>)
    requires ExpectsExactly(rows, n, key, a)
    requires (key in a <==> key in b) && (key in a ==> a[key] == b[key])
    ensures ExpectsExactly(rows, n, key, b)
  {
  }

  lemma NoRowsNoTurns(file: seq<Row>, key: TurnKey, expected: map<TurnKey, Row>)
    requires key.conversation !in Conversations(file) && key !in expected
    ensures ExpectsExactly(TurnOrder(file, key.conversation), |TurnOrder(file, key.conversation)|, key, expected)
  {
    SampleIndex.NewConversationIsEmpty(file, key.conversation);
  }

  /** The expected answers of a whole file, conversation by conversation: each client row
      that an assistant row directly follows in turn order, and nothing else. */
  method ExpectedAssistantTurns(file: seq<Row>) returns (expected: map<TurnKey, Row>)
    ensures forall key: TurnKey ::
      ExpectsExactly(TurnOrder(file, key.conversation), |TurnOrder(file, key.conversation)|, key, expected)
  {
    var convs := Conversations(file);
    SampleIndex.ConversationsDistinct(file);
    expected := map[];
    for n := 0 to |convs|
      invariant forall key :: key in expected ==> key.conversation in convs[..n]
      invariant forall key: TurnKey :: key.conversation in convs[..n] ==>
        ExpectsExactly(TurnOrder(file, key.conversation), |TurnOrder(file, key.conversation)|, key, expected)
    {
      TurnOrderOk(file, convs[n]);
      var more := ExpectedIn(TurnOrder(file, convs[n]), convs[n]);
      ghost var before, now := expected, expected + more;
      forall key: TurnKey | key.conversation in convs[..n + 1]
        ensures ExpectsExactly(TurnOrder(file, key.conversation), |TurnOrder(file, key.conversation)|, key, now)
      {
        var rows := TurnOrder(file, key.conversation);
        if key.conversation in convs[..n] {
          assert key.conversation != convs[n] && key !in more;
          SameAnswer(rows, |rows|, key, before, now);
        } else {
          assert key.conversation == convs[n] && key !in before;
          SameAnswer(rows, |rows|, key, more, now);
        }
      }
      expected := expected + more;
    }
    assert convs[..|convs|] == convs;
    forall key: TurnKey
      ensures ExpectsExactly(TurnOrder(file, key.conversation), |TurnOrder(file, key.conversation)|, key, expected)
    {
      if key.conversation !in convs { NoRowsNoTurns(file, key, expected); }
    }
  }
}
