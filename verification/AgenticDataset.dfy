/** Loading one conversation: one message list per client turn, from a single pass over
    its rows in turn order. */
module AgenticDataset {
  import opened Collections
  import opened ConversationData
  import opened ConversationChecks

  // ---- one row as messages ----

  predicate Complete(r: ToolResult) {
    r.callId.Some? && r.content.Value?
  }

  function ToolWire(r: ToolResult): Wire
    requires Complete(r)
  {
    Wire(Tool, Some(r.content.text), None, None, None, None, r.callId)
  }

  function ToolWires(rs: seq<ToolResult>): (ws: seq<Wire>)
    requires forall r :: r in rs ==> Complete(r)
    ensures |ws| == |rs|
  {
    if rs == [] then [] else ToolWires(rs[..|rs| - 1]) + [ToolWire(rs[|rs| - 1])]
  }

  /** A row's messages; `None` is the error for an incomplete tool result. */
  function Format(r: Row): Option<seq<Wire>> {
    if r.toolResults.Some? && r.toolResults.value != [] then
      if forall x :: x in r.toolResults.value ==> Complete(x)
      then Some(ToolWires(r.toolResults.value)) else None
    else Some([Wire(r.role, r.content, r.name, r.toolCalls, r.toolResults, r.reasoning, None)])
  }

  lemma {:induction false} ToolWireAt(rs: seq<ToolResult>, k: nat)
    requires k < |rs| && forall r :: r in rs ==> Complete(r)
    ensures ToolWires(rs)[k] == ToolWire(rs[k])
  {
    if k < |rs| - 1 { ToolWireAt(rs[..|rs| - 1], k); }
  }

  /** One message per tool result with its id and content, or the row's own fields as one
      message; an error exactly when a result lacks its id or its content. */
  lemma FormatExactly(r: Row)
    ensures var results := if r.toolResults.Some? then r.toolResults.value else [];
      && (Format(r).None? <==> exists x :: x in results && (x.callId.None? || !x.content.Value?))
      && (Format(r).Some? && results != [] ==>
            |Format(r).value| == |results|
            && forall k :: 0 <= k < |results| ==>
                 Format(r).value[k]
                 == Wire(Tool, Some(results[k].content.text), None, None, None, None, results[k].callId))
      && (results == [] ==> Format(r).Some? && |Format(r).value| == 1
                            && var w := Format(r).value[0];
                               w.role == r.role && w.content == r.content && w.name == r.name
                               && w.toolCalls == r.toolCalls && w.toolResults == r.toolResults
                               && w.reasoning == r.reasoning && w.toolCallId.None?)
  {
    if Format(r).Some? && r.toolResults.Some? && r.toolResults.value != [] {
      forall k | 0 <= k < |r.toolResults.value| {
        ToolWireAt(r.toolResults.value, k);
      }
    }
  }

  /** The messages of the first `n` rows, one after the other. */
  function History(rows: seq<Row>, n: nat): Option<seq<Wire>>
    requires n <= |rows|
  {
    if n == 0 then Some([])
    else match (History(rows, n - 1), Format(rows[n - 1]))
      case (Some(before), Some(msgs)) => Some(before + msgs)
      case _ => None
  }

  lemma {:induction false} HistoryGrows(rows: seq<Row>, m: nat, n: nat)
    requires m <= n <= |rows| && History(rows, n).Some?
    ensures History(rows, m).Some? && History(rows, m).value <= History(rows, n).value
  {
    if m < n { HistoryGrows(rows, m, n - 1); }
  }

  /** The history holds every row's messages, right after those of the rows before it. */
  lemma HistoryHoldsRows(rows: seq<Row>, n: nat, k: nat)
    requires k < n <= |rows| && History(rows, n).Some?
    ensures History(rows, k).Some? && Format(rows[k]).Some?
    ensures History(rows, k).value + Format(rows[k]).value <= History(rows, n).value
    ensures k == n - 1 ==> History(rows, k).value + Format(rows[k]).value == History(rows, n).value
    ensures k == 0 ==> History(rows, k).value == []
  {
    HistoryGrows(rows, k + 1, n);
  }

  lemma HistoryFails(rows: seq<Row>, k: nat)
    requires k < |rows| && Format(rows[k]).None?
    ensures History(rows, |rows|).None?
  {
    if History(rows, |rows|).Some? { HistoryGrows(rows, k + 1, |rows|); }
  }

  lemma HistoryNext(rows: seq<Row>, k: nat, system: seq<Wire>)
    requires k < |rows| && History(rows, k).Some? && Format(rows[k]).Some?
    ensures History(rows, k + 1).Some?
    ensures system + History(rows, k).value + Format(rows[k]).value == system + History(rows, k + 1).value
  {
  }

  function SystemOf(rows: seq<Row>): Option<Text> {
    if rows == [] then None
    else if Truthy(rows[0].system) then rows[0].system
    else SystemOf(rows[1..])
  }

  /** The prompt of the first row that has one. */
  lemma {:induction false} SystemOfExactly(rows: seq<Row>)
    ensures (forall k :: 0 <= k < |rows| ==> !Truthy(rows[k].system)) ==> SystemOf(rows) == None
    ensures forall k ::
      0 <= k < |rows| && Truthy(rows[k].system) && (forall j :: 0 <= j < k ==> !Truthy(rows[j].system))
      ==> SystemOf(rows) == rows[k].system
  {
    if rows != [] {
      var rest := rows[1..];
      SystemOfExactly(rest);
      assert forall j :: 0 <= j < |rest| ==> rest[j] == rows[j + 1];
      assert forall j :: 0 < j < |rows| ==> rows[j] == rest[j - 1];
    }
  }

  type Key = (string, int)

  function KeyOf(r: Row): Key {
    (r.conv, r.turn)
  }

  function ClientKeys(rows: seq<Row>): seq<Key> {
    if rows == [] then []
    else ClientKeys(rows[..|rows| - 1]) + if IsClient(rows[|rows| - 1].role) then [KeyOf(rows[|rows| - 1])] else []
  }

  lemma ClientKeysAppend(rows: seq<Row>, r: Row)
    ensures ClientKeys(rows + [r]) == ClientKeys(rows) + if IsClient(r.role) then [KeyOf(r)] else []
  {
    assert (rows + [r])[..|rows|] == rows;
  }

  lemma ClientKeysNext(rows: seq<Row>, k: nat)
    requires k < |rows|
    ensures ClientKeys(rows[..k + 1])
         == ClientKeys(rows[..k]) + if IsClient(rows[k].role) then [KeyOf(rows[k])] else []
  {
    assert rows[..k + 1] == rows[..k] + [rows[k]];
    ClientKeysAppend(rows[..k], rows[k]);
  }

  /** The keys are, in order, the conversation and turn of every user and every tool row. */
  lemma {:induction false} ClientKeysExactly(rows: seq<Row>)
    ensures var clients := Selected(rows, (r: Row) => r.role == User || r.role == Tool);
      |ClientKeys(rows)| == |clients|
      && forall k :: 0 <= k < |clients| ==> ClientKeys(rows)[k] == (clients[k].conv, clients[k].turn)
  {
    if rows != [] { ClientKeysExactly(rows[..|rows| - 1]); }
  }

  ghost predicate InTurnOrder(rows: seq<Row>) {
    forall i, j :: 0 <= i < j < |rows| ==> rows[i].turn < rows[j].turn
  }

  /** What a client turn is sent: the system prompt, all earlier rows, and its own. */
  ghost predicate Snapshots(rows: seq<Row>, prebuilt: map<Key, seq<Wire>>, n: nat)
    requires n <= |rows|
  {
    forall k :: 0 <= k < n && IsClient(rows[k].role) ==> SnapshotAt(rows, prebuilt, k)
  }

  ghost predicate SnapshotAt(rows: seq<Row>, prebuilt: map<Key, seq<Wire>>, k: nat)
    requires k < |rows|
  {
    && KeyOf(rows[k]) in prebuilt && History(rows, k + 1).Some?
    && prebuilt[KeyOf(rows[k])] == SystemWire(SystemOf(rows)) + History(rows, k + 1).value
  }

  /** A client turn's messages begin with the prompt if its conversation has one, and are the
      history after it. */
  lemma SnapshotExactly(rows: seq<Row>, prebuilt: map<Key, seq<Wire>>, k: nat)
    requires k < |rows| && SnapshotAt(rows, prebuilt, k)
    ensures var sent, history := prebuilt[KeyOf(rows[k])], History(rows, k + 1).value;
      if exists i :: 0 <= i < |rows| && Truthy(rows[i].system) then
        sent != [] && sent[0].role == System && sent[0].content == SystemOf(rows) && sent[1..] == history
      else sent == history
  {
    SystemOfExactly(rows);
    if i :| 0 <= i < |rows| && Truthy(rows[i].system) { PromptIsThere(rows, i); }
  }

  lemma {:induction false} PromptIsThere(rows: seq<Row>, i: nat)
    requires i < |rows| && Truthy(rows[i].system)
    ensures Truthy(SystemOf(rows))
  {
    if i > 0 && !Truthy(rows[0].system) { PromptIsThere(rows[1..], i - 1); }
  }

  /** One more row: a client row adds its own snapshot, any other row none. */
  lemma SnapshotsStep(rows: seq<Row>, prebuilt: map<Key, seq<Wire>>, k: nat, history: seq<Wire>)
    requires InTurnOrder(rows) && k < |rows| && Snapshots(rows, prebuilt, k)
    requires History(rows, k + 1).Some? && history == SystemWire(SystemOf(rows)) + History(rows, k + 1).value
    ensures Snapshots(rows, if IsClient(rows[k].role) then prebuilt[KeyOf(rows[k]) := history] else prebuilt, k + 1)
  {
    if IsClient(rows[k].role) {
      var next := prebuilt[KeyOf(rows[k]) := history];
      forall j | 0 <= j < k && IsClient(rows[j].role) ensures SnapshotAt(rows, next, j) {
        assert SnapshotAt(rows, prebuilt, j);
        assert rows[j].turn < rows[k].turn;
      }
    }
  }

  method FindSystem(rows: seq<Row>) returns (system: Option<Text>)
    ensures system == SystemOf(rows)
  {
    system := None;
    var k := 0;
    while k < |rows|
      invariant k <= |rows| && system == None && SystemOf(rows) == SystemOf(rows[k..])
    {
      if Truthy(rows[k].system) { return rows[k].system; }
      k := k + 1;
    }
  }

  datatype Built = Failed | Built(prebuilt: map<Key, seq<Wire>>, samples: seq<Key>)

  /** The single pass over one conversation, carrying the running history. */
  method BuildConversation(rows: seq<Row>) returns (built: Built)
    requires InTurnOrder(rows) && forall i, j :: 0 <= i < j < |rows| ==> rows[i].conv == rows[j].conv
    ensures built.Failed? <==> History(rows, |rows|).None?
    ensures built.Built? ==> Snapshots(rows, built.prebuilt, |rows|) && built.samples == ClientKeys(rows)
    ensures built.Built? ==> built.prebuilt.Keys == Elements(built.samples)
  {
    var system := FindSystem(rows);
    var prebuilt: map<Key, seq<Wire>> := map[];
    var samples: seq<Key> := [];
    var history := SystemWire(system);
    var k := 0;
    while k < |rows|
      invariant k <= |rows| && History(rows, k).Some?
      invariant history == SystemWire(system) + History(rows, k).value
      invariant Snapshots(rows, prebuilt, k)
      invariant samples == ClientKeys(rows[..k]) && prebuilt.Keys == Elements(samples)
    {
      var row := rows[k];
      var msgs := Format(row);
      if msgs.None? {
        HistoryFails(rows, k);
        return Failed;
      }
      ClientKeysNext(rows, k);
      ElementsAppend(samples, KeyOf(row));
      HistoryNext(rows, k, SystemWire(system));
      SnapshotsStep(rows, prebuilt, k, history + msgs.value);
      if IsClient(row.role) {
        prebuilt := prebuilt[KeyOf(row) := history + msgs.value];
        samples := samples + [KeyOf(row)];
      }
      history := history + msgs.value;
      k := k + 1;
    }
    assert rows[..|rows|] == rows;
    return Built(prebuilt, samples);
  }

  /** Earlier snapshots are prefixes of later ones. */
  lemma SnapshotsGrow(rows: seq<Row>, prebuilt: map<Key, seq<Wire>>, i: nat, j: nat)
    requires Snapshots(rows, prebuilt, |rows|) && i <= j < |rows|
    requires IsClient(rows[i].role) && IsClient(rows[j].role)
    ensures prebuilt[KeyOf(rows[i])] <= prebuilt[KeyOf(rows[j])]
  {
    assert SnapshotAt(rows, prebuilt, i) && SnapshotAt(rows, prebuilt, j);
    HistoryGrows(rows, i + 1, j + 1);
    PrefixUnderPrefix(SystemWire(SystemOf(rows)), History(rows, i + 1).value, History(rows, j + 1).value);
  }

  lemma PrefixUnderPrefix<T>(s: seq<T>, a: seq<T>, b: seq<T>)
    requires a <= b
    ensures s + a <= s + b
  {
  }

  // ---- the whole file ----

  function RowsFor(file: seq<Row>, conv: string): seq<Row> {
    if file == [] then []
    else RowsFor(file[..|file| - 1], conv) + if file[|file| - 1].conv == conv then [file[|file| - 1]] else []
  }

  /** The conversations in order of first appearance. */
  function Conversations(file: seq<Row>): seq<string> {
    if file == [] then []
    else
      var before := Conversations(file[..|file| - 1]);
      if file[|file| - 1].conv in before then before else before + [file[|file| - 1].conv]
  }

  /** A conversation's rows, in file order. */
  lemma {:induction false} RowsForExactly(file: seq<Row>, conv: string)
    ensures RowsFor(file, conv) == Selected(file, (r: Row) => r.conv == conv)
  {
    if file != [] { RowsForExactly(file[..|file| - 1], conv); }
  }

  /** Where a conversation first appears, or the length of the file. */
  function FirstRow(file: seq<Row>, conv: string): (k: nat)
    ensures k <= |file|
  {
    if file == [] || file[0].conv == conv then 0 else 1 + FirstRow(file[1..], conv)
  }

  lemma {:induction false} FirstRowIs(file: seq<Row>, conv: string)
    ensures var n := FirstRow(file, conv);
      (n < |file| ==> file[n].conv == conv) && forall k :: 0 <= k < n ==> file[k].conv != conv
  {
    if file != [] && file[0].conv != conv {
      FirstRowIs(file[1..], conv);
      assert forall k :: 0 < k < |file| ==> file[k] == file[1..][k - 1];
    }
  }

  lemma {:induction false} FirstRowOfMore(file: seq<Row>, r: Row, conv: string)
    ensures FirstRow(file + [r], conv)
         == if FirstRow(file, conv) < |file| then FirstRow(file, conv) else |file| + if r.conv == conv then 0 else 1
  {
    if file != [] {
      assert (file + [r])[1..] == file[1..] + [r];
      FirstRowOfMore(file[1..], r, conv);
    } else {
      assert (file + [r])[1..] == [];
    }
  }

  /** Conversations of the file, by first appearance. */
  ghost predicate ByFirstRow(file: seq<Row>, convs: seq<string>) {
    && (forall i :: 0 <= i < |convs| ==> FirstRow(file, convs[i]) < |file|)
    && (forall i, j :: 0 <= i < j < |convs| ==> FirstRow(file, convs[i]) < FirstRow(file, convs[j]))
  }

  lemma ByFirstRowNext(front: seq<Row>, r: Row, convs: seq<string>, more: seq<string>)
    requires ByFirstRow(front, convs) && FirstRow(front, r.conv) == |front| && more == convs + [r.conv]
    ensures ByFirstRow(front + [r], more)
  {
    forall i | 0 <= i < |more|
      ensures FirstRow(front + [r], more[i]) == if i < |convs| then FirstRow(front, convs[i]) else |front|
    {
      FirstRowOfMore(front, r, more[i]);
    }
  }

  lemma ByFirstRowStays(front: seq<Row>, r: Row, convs: seq<string>)
    requires ByFirstRow(front, convs)
    ensures ByFirstRow(front + [r], convs)
  {
    forall i | 0 <= i < |convs| ensures FirstRow(front + [r], convs[i]) == FirstRow(front, convs[i]) {
      FirstRowOfMore(front, r, convs[i]);
    }
  }

  /** The conversations are listed by first appearance, every one of them. */
  lemma {:induction false} ConversationsInOrder(file: seq<Row>, conv: string)
    ensures ByFirstRow(file, Conversations(file))
    ensures conv in Conversations(file) <==> FirstRow(file, conv) < |file|
  {
    if file != [] {
      var front, r := file[..|file| - 1], file[|file| - 1];
      assert file == front + [r];
      FirstRowOfMore(front, r, conv);
      ConversationsInOrder(front, conv);
      ConversationsInOrder(front, r.conv);
      if r.conv in Conversations(front) {
        ByFirstRowStays(front, r, Conversations(front));
      } else {
        ByFirstRowNext(front, r, Conversations(front), Conversations(file));
      }
    }
  }

  function TurnOrder(file: seq<Row>, conv: string): seq<Row> {
    SortByTurn(RowsFor(file, conv))
  }

  lemma {:induction false} RowsForOk(file: seq<Row>, conv: string)
    ensures forall k :: 0 <= k < |RowsFor(file, conv)| ==> RowsFor(file, conv)[k].conv == conv
    ensures forall r :: r in RowsFor(file, conv) <==> r in file && r.conv == conv
  {
    if file != [] {
      RowsForOk(file[..|file| - 1], conv);
      assert file == file[..|file| - 1] + [file[|file| - 1]];
    }
  }

  /** In turn order the rows are those of the conversation, and those of a validated one
      have distinct turns. */
  lemma TurnOrderOk(file: seq<Row>, conv: string)
    ensures forall k :: 0 <= k < |TurnOrder(file, conv)| ==> TurnOrder(file, conv)[k].conv == conv
    ensures multiset(TurnOrder(file, conv)) == multiset(RowsFor(file, conv))
    ensures Numbered(RowsFor(file, conv)) ==> InTurnOrder(TurnOrder(file, conv))
  {
    RowsForOk(file, conv);
    SortByTurnOk(RowsFor(file, conv));
    var rows := TurnOrder(file, conv);
    forall k | 0 <= k < |rows| ensures rows[k].conv == conv {
      assert rows[k] in multiset(rows);
    }
  }
}
