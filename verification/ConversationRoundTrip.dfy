/** From a snapshot through the flat rows and back: what the loader sends for each client
    turn, compared with the snapshot's own messages. */
module ConversationRoundTrip {
  import opened Collections
  import opened Sorting
  import opened ConversationData
  import opened ConversationChecks
  import opened SnapshotConversion
  import opened AgenticDataset
  import opened SampleIndex

  // ---- what the loader makes of a message ----

  /** A message as it comes out of its row: the row keeps a tool message's id and
      content, and any other message's content and tool calls. */
  function LoadedWire(m: Msg): Wire {
    if m.role == Tool then Wire(Tool, m.content, None, None, None, None, m.toolCallId)
    else Wire(m.role, m.content, None, if m.toolCalls != [] then Some(m.toolCalls) else None, None, None, None)
  }

  function LoadedWires(ms: seq<Msg>): (ws: seq<Wire>)
    ensures |ws| == |ms| && forall j :: 0 <= j < |ms| ==> ws[j] == LoadedWire(ms[j])
  {
    seq(|ms|, j requires 0 <= j < |ms| => LoadedWire(ms[j]))
  }

  function ResultWire(r: ToolResult): Wire {
    Wire(Tool, if r.content.Value? then Some(r.content.text) else None, None, None, None, None, r.callId)
  }

  function ResultWires(rs: seq<ToolResult>): (ws: seq<Wire>)
    ensures |ws| == |rs| && forall j :: 0 <= j < |rs| ==> ws[j] == ResultWire(rs[j])
  {
    seq(|rs|, j requires 0 <= j < |rs| => ResultWire(rs[j]))
  }

  function ItemWires(i: Item): seq<Wire> {
    if RoleOf(i) == Tool then ResultWires(ResultsOf(i)) else [LoadedWire(i.msg)]
  }

  /** The messages of the first `n` rows. */
  function AllWires(items: seq<Item>, n: nat): seq<Wire>
    requires n <= |items|
  {
    if n == 0 then [] else AllWires(items, n - 1) + ItemWires(items[n - 1])
  }

  lemma {:induction false} AllWiresSame(a: seq<Item>, b: seq<Item>, n: nat)
    requires n <= |a| && n <= |b| && forall k :: 0 <= k < n ==> a[k] == b[k]
    ensures AllWires(a, n) == AllWires(b, n)
  {
    if n > 0 { AllWiresSame(a, b, n - 1); }
  }

  lemma {:induction false} AllWiresPrefix(items: seq<Item>, n: nat)
    requires n <= |items|
    ensures AllWires(items, n) <= AllWires(items, |items|)
    decreases |items| - n
  {
    if n < |items| {
      AllWiresPrefix(items, n + 1);
      LongerPrefix(AllWires(items, n), ItemWires(items[n]), AllWires(items, |items|));
    }
  }

  lemma LongerPrefix<T>(a: seq<T>, b: seq<T>, c: seq<T>)
    requires a + b <= c
    ensures a <= c
  {
  }

  lemma WiresOfLast(front: seq<Item>, last: Item)
    ensures AllWires(front + [last], |front + [last]|) == AllWires(front, |front|) + ItemWires(last)
  {
    AllWiresSame(front, front + [last], |front|);
  }

  lemma PlainWires(m: Msg)
    ensures ItemWires(Plain(m)) == [LoadedWire(m)]
  {
  }

  lemma AddToolWires(done: seq<Item>, m: Msg)
    ensures AllWires(AddTool(done, m), |AddTool(done, m)|) == AllWires(done, |done|) + [LoadedWire(m)]
  {
    if |AddTool(done, m)| == |done| + 1 {
      PlainWires(m);
      WiresOfLast(done, Plain(m));
    } else {
      var front, last := done[..|done| - 1], done[|done| - 1];
      assert done == front + [last];
      MergedWires(last, m);
      WiresOfLast(front, last);
      WiresOfLast(front, Merged(ResultsOf(last) + [ResultOf(m)]));
      ConcatAssociates(AllWires(front, |front|), ItemWires(last), [LoadedWire(m)]);
    }
  }

  /** Merging tool messages into one row and expanding the row again gives back one
      message per result. */
  lemma {:induction false} MergeKeepsWires(ms: seq<Msg>, items: seq<Item>)
    requires items == MergeTools(ms)
    ensures AllWires(items, |items|) == LoadedWires(ms)
    decreases |ms|
  {
    if ms != [] {
      var front, m := ms[..|ms| - 1], ms[|ms| - 1];
      var done := MergeTools(front);
      assert items == AddTool(done, m);
      MergeKeepsWires(front, done);
      AddToolWires(done, m);
      LoadedAppend(ms);
    }
  }

  lemma LoadedAppend(ms: seq<Msg>)
    requires ms != []
    ensures LoadedWires(ms) == LoadedWires(ms[..|ms| - 1]) + [LoadedWire(ms[|ms| - 1])]
  {
  }

  lemma MergedWires(last: Item, m: Msg)
    requires RoleOf(last) == Tool && m.role == Tool
    ensures ItemWires(Merged(ResultsOf(last) + [ResultOf(m)])) == ItemWires(last) + [LoadedWire(m)]
  {
  }

  // ---- what the loader makes of the converted rows ----

  function RowsFrom(conv: string, messages: seq<Msg>): seq<Row> {
    var items := ItemsFrom(messages);
    RowsOf(conv, items, SystemContent(messages), |items|)
  }

  /** The snapshot's messages with user messages collapsed, tool messages one by one. */
  function Source(messages: seq<Msg>): seq<Msg> {
    CollapseUsers(NonSystem(messages))
  }

  function ItemsFrom(messages: seq<Msg>): seq<Item> {
    MergeTools(Source(messages))
  }

  lemma {:induction false} RowsOfAt(conv: string, items: seq<Item>, system: Option<Text>, n: nat, k: nat)
    requires k < n <= |items|
    ensures RowsOf(conv, items, system, n)[k] == RowAt(conv, items, system, k)
  {
    if k < n - 1 { RowsOfAt(conv, items, system, n - 1, k); }
  }

  lemma {:induction false} ToolWiresAre(rs: seq<ToolResult>)
    requires forall r :: r in rs ==> Complete(r)
    ensures ToolWires(rs) == ResultWires(rs)
  {
    if rs != [] {
      var front, last := rs[..|rs| - 1], rs[|rs| - 1];
      assert forall r :: r in front ==> r in rs;
      ToolWiresAre(front);
      assert last in rs && ToolWire(last) == ResultWire(last);
      assert ResultWires(rs) == ResultWires(front) + [ResultWire(last)];
    }
  }

  predicate ItemComplete(i: Item) {
    RoleOf(i) == Tool ==> forall r :: r in ResultsOf(i) ==> Complete(r)
  }

  lemma FormatOfRow(conv: string, k: nat, i: Item, system: Option<Text>)
    requires RoleOf(i) == Tool ==> ResultsOf(i) != []
    ensures Format(ItemRow(conv, k, i, system)) == if ItemComplete(i) then Some(ItemWires(i)) else None
  {
    if RoleOf(i) == Tool && ItemComplete(i) { ToolWiresAre(ResultsOf(i)); }
  }

  lemma {:induction false} MergedHaveResults(ms: seq<Msg>)
    ensures forall k :: 0 <= k < |MergeTools(ms)| ==> ResultsOf(MergeTools(ms)[k]) != []
  {
    if ms != [] { MergedHaveResults(ms[..|ms| - 1]); }
  }

  ghost predicate AllComplete(items: seq<Item>, n: nat)
    requires n <= |items|
  {
    forall k :: 0 <= k < n ==> ItemComplete(items[k])
  }

  lemma AllCompleteNext(items: seq<Item>, n: nat)
    requires n < |items|
    ensures AllComplete(items, n + 1) <==> AllComplete(items, n) && ItemComplete(items[n])
  {
  }

  lemma FormatOfConverted(conv: string, items: seq<Item>, system: Option<Text>, k: nat)
    requires k < |items| && ResultsOf(items[k]) != []
    ensures Format(RowsOf(conv, items, system, |items|)[k])
            == if ItemComplete(items[k]) then Some(ItemWires(items[k])) else None
  {
    RowsOfAt(conv, items, system, |items|, k);
    FormatOfRow(conv, k, items[k], RowAt(conv, items, system, k).system);
  }

  function WiresIfComplete(items: seq<Item>, n: nat): Option<seq<Wire>>
    requires n <= |items|
  {
    if forall k :: 0 <= k < n ==> ItemComplete(items[k]) then Some(AllWires(items, n)) else None
  }

  lemma HistoryOfMore(rows: seq<Row>, items: seq<Item>, n: nat)
    requires |rows| == |items| && n < |items| && History(rows, n) == WiresIfComplete(items, n)
    requires Format(rows[n]) == if ItemComplete(items[n]) then Some(ItemWires(items[n])) else None
    ensures History(rows, n + 1) == WiresIfComplete(items, n + 1)
  {
    AllCompleteNext(items, n);
  }

  lemma {:induction false} HistoryOfRows(conv: string, items: seq<Item>, system: Option<Text>, n: nat)
    requires n <= |items| && forall k :: 0 <= k < |items| ==> ResultsOf(items[k]) != []
    ensures History(RowsOf(conv, items, system, |items|), n) == WiresIfComplete(items, n)
  {
    if n > 0 {
      HistoryOfRows(conv, items, system, n - 1);
      FormatOfConverted(conv, items, system, n - 1);
      HistoryOfMore(RowsOf(conv, items, system, |items|), items, n - 1);
    }
  }

  // ---- the round trip ----

  /** What the flat form can carry: no call id outside tool messages, and no tool calls
      on them. */
  predicate Clean(m: Msg) {
    if m.role == Tool then m.toolCalls == [] else !Truthy(m.toolCallId)
  }

  lemma LoadedIsWireExactlyWhen(m: Msg)
    requires m.role == Tool ==> Truthy(m.toolCallId)
    ensures LoadedWire(m) == MsgWire(m) <==> Clean(m)
  {
  }

  lemma {:induction false} MsgWiresAt(ms: seq<Msg>, j: nat)
    requires j < |ms|
    ensures MsgWires(ms)[j] == MsgWire(ms[j])
  {
    if j < |ms| - 1 { MsgWiresAt(ms[..|ms| - 1], j); }
  }

  lemma LoadedAreWiresExactlyWhen(ms: seq<Msg>)
    requires forall m :: m in ms && m.role == Tool ==> Truthy(m.toolCallId)
    ensures LoadedWires(ms) == MsgWires(ms) <==> forall m :: m in ms ==> Clean(m)
  {
    forall j | 0 <= j < |ms|
      ensures MsgWires(ms)[j] == MsgWire(ms[j]) && (LoadedWire(ms[j]) == MsgWire(ms[j]) <==> Clean(ms[j]))
    {
      MsgWiresAt(ms, j);
      LoadedIsWireExactlyWhen(ms[j]);
    }
    if LoadedWires(ms) == MsgWires(ms) {
      forall m | m in ms ensures Clean(m) {
        var j :| 0 <= j < |ms| && ms[j] == m;
        assert LoadedWires(ms)[j] == MsgWires(ms)[j];
      }
    }
  }

  /** How many source messages the first `n` rows stand for. */
  function Covered(messages: seq<Msg>, n: nat): (c: nat)
    requires n <= |ItemsFrom(messages)|
    ensures c <= |Source(messages)|
  {
    MergeKeepsWires(Source(messages), ItemsFrom(messages));
    AllWiresPrefix(ItemsFrom(messages), n);
    |AllWires(ItemsFrom(messages), n)|
  }

  lemma CoveredWires(messages: seq<Msg>, n: nat)
    requires n <= |ItemsFrom(messages)|
    ensures AllWires(ItemsFrom(messages), n) == LoadedWires(Source(messages)[..Covered(messages, n)])
    ensures n == |ItemsFrom(messages)| ==> Covered(messages, n) == |Source(messages)|
  {
    var items, ms := ItemsFrom(messages), Source(messages);
    MergeKeepsWires(ms, items);
    AllWiresPrefix(items, n);
    var part := AllWires(items, n);
    assert part == LoadedWires(ms)[..|part|];
    assert LoadedWires(ms[..|part|]) == LoadedWires(ms)[..|part|];
  }

  /** The converted rows are already in turn order and numbered 1, 2, 3, … */
  lemma ConvertedInTurnOrder(conv: string, messages: seq<Msg>)
    ensures InTurnOrder(RowsFrom(conv, messages))
    ensures SortByTurn(RowsFrom(conv, messages)) == RowsFrom(conv, messages)
    ensures Numbered(RowsFrom(conv, messages))
  {
    var rows := RowsFrom(conv, messages);
    forall k | 0 <= k < |rows| ensures rows[k].turn == k + 1 {
      RowsOfAt(conv, ItemsFrom(messages), SystemContent(messages), |rows|, k);
    }
    SortedStays(rows);
  }

  lemma {:induction false} SortedStays(rows: seq<Row>)
    requires forall i, j :: 0 <= i < j < |rows| ==> rows[i].turn < rows[j].turn
    ensures SortByTurn(rows) == rows
  {
    if rows != [] {
      var n := |rows| - 1;
      SortedStays(rows[..n]);
      InsertLast(rows[n], rows[..n]);
    }
  }

  lemma {:induction false} InsertLast(r: Row, rows: seq<Row>)
    requires forall k :: 0 <= k < |rows| ==> rows[k].turn < r.turn
    ensures InsertBy(TurnOf(), r, rows) == rows + [r]
  {
    if rows != [] { InsertLast(r, rows[1..]); }
  }

  /** The prompt comes back from the first user row. */
  lemma SystemComesBack(conv: string, messages: seq<Msg>)
    requires WellFormed(RowsFrom(conv, messages)) && RowsFrom(conv, messages) != []
    ensures SystemWire(SystemOf(RowsFrom(conv, messages))) == SystemWire(SystemContent(messages))
  {
    var rows, items, system := RowsFrom(conv, messages), ItemsFrom(messages), SystemContent(messages);
    RowsOfAt(conv, items, system, |items|, 0);
    assert rows[0].system == system;
    if !Truthy(system) {
      forall k | 0 <= k < |rows| ensures !Truthy(rows[k].system) {
        RowsOfAt(conv, items, system, |items|, k);
      }
      NoSystem(rows);
    }
  }

  lemma {:induction false} NoSystem(rows: seq<Row>)
    requires forall k :: 0 <= k < |rows| ==> !Truthy(rows[k].system)
    ensures SystemOf(rows) == None
  {
    if rows != [] { NoSystem(rows[1..]); }
  }

  // ---- the results of the tool rows are those of the tool messages ----

  function OwnResults(i: Item): seq<ToolResult> {
    if RoleOf(i) == Tool then ResultsOf(i) else []
  }

  function ToolResults(items: seq<Item>, n: nat): seq<ToolResult>
    requires n <= |items|
  {
    if n == 0 then [] else ToolResults(items, n - 1) + OwnResults(items[n - 1])
  }

  function MessageResults(ms: seq<Msg>): seq<ToolResult> {
    if ms == [] then []
    else MessageResults(ms[..|ms| - 1]) + if ms[|ms| - 1].role == Tool then [ResultOf(ms[|ms| - 1])] else []
  }

  lemma {:induction false} ToolResultsSame(a: seq<Item>, b: seq<Item>, n: nat)
    requires n <= |a| && n <= |b| && forall k :: 0 <= k < n ==> a[k] == b[k]
    ensures ToolResults(a, n) == ToolResults(b, n)
  {
    if n > 0 { ToolResultsSame(a, b, n - 1); }
  }

  lemma AddToolResults(done: seq<Item>, m: Msg)
    ensures var items := AddTool(done, m);
      ToolResults(items, |items|) == ToolResults(done, |done|) + if m.role == Tool then [ResultOf(m)] else []
  {
    var items := AddTool(done, m);
    if |items| == |done| + 1 {
      ToolResultsSame(done, items, |done|);
    } else {
      var n := |done| - 1;
      ToolResultsSame(done, items, n);
      assert ToolResults(items, n + 1) == ToolResults(done, n) + (ResultsOf(done[n]) + [ResultOf(m)]);
    }
  }

  lemma {:induction false} MergeKeepsResults(ms: seq<Msg>, items: seq<Item>)
    requires items == MergeTools(ms)
    ensures ToolResults(items, |items|) == MessageResults(ms)
    decreases |ms|
  {
    if ms != [] {
      var front := ms[..|ms| - 1];
      var done := MergeTools(front);
      assert items == AddTool(done, ms[|ms| - 1]);
      MergeKeepsResults(front, done);
      AddToolResults(done, ms[|ms| - 1]);
    }
  }

  lemma {:induction false} ResultInRow(items: seq<Item>, n: nat, r: ToolResult) returns (k: nat)
    requires n <= |items| && r in ToolResults(items, n)
    ensures k < n && RoleOf(items[k]) == Tool && r in ResultsOf(items[k])
  {
    if r in OwnResults(items[n - 1]) { k := n - 1; } else { k := ResultInRow(items, n - 1, r); }
  }

  lemma {:induction false} RowResultListed(items: seq<Item>, n: nat, k: nat)
    requires k < n <= |items| && RoleOf(items[k]) == Tool
    ensures forall r :: r in ResultsOf(items[k]) ==> r in ToolResults(items, n)
  {
    if k < n - 1 { RowResultListed(items, n - 1, k); }
  }

  lemma {:induction false} MessageResultListed(ms: seq<Msg>, m: Msg)
    requires m in ms && m.role == Tool
    ensures ResultOf(m) in MessageResults(ms)
  {
    if m != ms[|ms| - 1] { MessageResultListed(ms[..|ms| - 1], m); }
  }

  lemma {:induction false} ResultOfMessage(ms: seq<Msg>, r: ToolResult) returns (m: Msg)
    requires r in MessageResults(ms)
    ensures m in ms && m.role == Tool && r == ResultOf(m)
  {
    var last := ms[|ms| - 1];
    if last.role == Tool && r == ResultOf(last) { m := last; } else { m := ResultOfMessage(ms[..|ms| - 1], r); }
  }

  /** Validated rows name every tool call they answer, so the source does. */
  lemma IdsAreNamed(conv: string, messages: seq<Msg>)
    requires WellFormed(RowsFrom(conv, messages))
    ensures forall m :: m in Source(messages) && m.role == Tool ==> Truthy(m.toolCallId)
    ensures forall r :: r in MessageResults(Source(messages)) ==> r.callId.Some?
  {
    var items, ms := ItemsFrom(messages), Source(messages);
    MergeKeepsResults(ms, items);
    forall r | r in MessageResults(ms) ensures Truthy(r.callId) {
      var k := ResultInRow(items, |items|, r);
      RowsOfAt(conv, items, SystemContent(messages), |items|, k);
      assert RowOk(RowsFrom(conv, messages)[k]);
    }
    forall m | m in ms && m.role == Tool ensures Truthy(m.toolCallId) {
      MessageResultListed(ms, m);
    }
  }

  /** Exactly when converted rows that pass validation load: every tool message has a
      content. The validator lets a null content through, the loader refuses it. */
  lemma LoadsExactlyWhen(conv: string, messages: seq<Msg>)
    requires WellFormed(RowsFrom(conv, messages))
    ensures History(RowsFrom(conv, messages), |RowsFrom(conv, messages)|).Some?
            <==> forall m :: m in Source(messages) && m.role == Tool ==> m.content.Some?
  {
    var items, ms := ItemsFrom(messages), Source(messages);
    MergedHaveResults(ms);
    HistoryOfRows(conv, items, SystemContent(messages), |items|);
    MergeKeepsResults(ms, items);
    IdsAreNamed(conv, messages);
    if AllComplete(items, |items|) {
      forall m | m in ms && m.role == Tool ensures m.content.Some? {
        MessageResultListed(ms, m);
        var k := ResultInRow(items, |items|, ResultOf(m));
        assert ItemComplete(items[k]);
      }
    }
    if forall m :: m in ms && m.role == Tool ==> m.content.Some? {
      forall k | 0 <= k < |items| ensures ItemComplete(items[k]) {
        if RoleOf(items[k]) == Tool {
          RowResultListed(items, |items|, k);
          forall r | r in ResultsOf(items[k]) ensures Complete(r) {
            var m := ResultOfMessage(ms, r);
          }
        }
      }
    }
  }

  /** The row of tool messages passes the row check exactly when every one of them names its
      call, with or without a content. */
  lemma ToolRowChecksExactlyWhen(conv: string, k: nat, i: Item, system: Option<Text>)
    requires RoleOf(i) == Tool && ResultsOf(i) != []
    ensures RowOk(ItemRow(conv, k, i, system))
            <==> forall r :: r in ResultsOf(i) ==> Truthy(r.callId) && !r.content.Absent?
    ensures i.Plain? ==> (RowOk(ItemRow(conv, k, i, system)) <==> Truthy(i.msg.toolCallId))
  {
    if i.Plain? { assert ResultOf(i.msg) in ResultsOf(i); }
  }

  // ---- a file the validators accept and the loader refuses

  /** A question, a tool call, and a tool row whose result has a null content. */
  function NullResultFile(): seq<Row> {
    [Row("c", 1, User, None, Some("hi"), None, None, None, None),
     Row("c", 2, Assistant, None, None, None, Some([Call(true, "{}")]), None, None),
     Row("c", 3, Tool, None, None, None, None, Some([ToolResult(Some("id"), Null)]), None)]
  }

  lemma {:induction false} OneConversation(file: seq<Row>, conv: string)
    requires forall k :: 0 <= k < |file| ==> file[k].conv == conv
    ensures RowsFor(file, conv) == file
    ensures Conversations(file) == if file == [] then [] else [conv]
  {
    if file != [] {
      OneConversation(file[..|file| - 1], conv);
      assert file == file[..|file| - 1] + [file[|file| - 1]];
    }
  }

  lemma OneToCheck(file: seq<Row>, conv: string)
    requires WellFormed(TurnOrder(file, conv)) && Numbered(RowsFor(file, conv))
    ensures StructureOk(file, [conv]) && NumberingOk(file, [conv])
  {
    assert [conv][1..] == [];
  }

  lemma OneInTurnOrder(file: seq<Row>, conv: string)
    requires forall k :: 0 <= k < |file| ==> file[k].conv == conv && file[k].turn == k + 1
    ensures TurnOrder(file, conv) == file == RowsFor(file, conv) && Numbered(file)
  {
    OneConversation(file, conv);
    SortedStays(file);
  }

  lemma OneGroup(file: seq<Row>, conv: string)
    requires IdOk(Some(conv)) && forall k :: 0 <= k < |file| ==> file[k].conv == conv
    ensures GroupingOk(ConversationIds(file))
  {
  }

  /** What it takes for a file of one conversation in turn order to be accepted. */
  lemma OneConversationAccepted(file: seq<Row>, conv: string)
    requires file != [] && IdOk(Some(conv)) && WellFormed(file)
    requires forall k :: 0 <= k < |file| ==> file[k].conv == conv && file[k].turn == k + 1
    ensures Accepted(file)
  {
    assert Conversations(file) == [conv] by { OneConversation(file, conv); }
    OneInTurnOrder(file, conv);
    OneGroup(file, conv);
    OneToCheck(file, conv);
  }

  lemma NullResultWellFormed()
    ensures WellFormed(NullResultFile())
  {
    var file := NullResultFile();
    assert RowOk(file[0]) && RowOk(file[1]) && RowOk(file[2]);
    assert Follows(file[0], file[1]) && Follows(file[1], file[2]);
  }

  /** The validators do not look at the value of a content, the loader does. */
  lemma NullContentAcceptedAndRefused()
    ensures Accepted(NullResultFile()) && !ResultsComplete(NullResultFile()[2])
  {
    NullResultWellFormed();
    OneConversationAccepted(NullResultFile(), "c");
    var result := ToolResult(Some("id"), Null);
    assert result in NullResultFile()[2].toolResults.value && !Complete(result);
  }

  /** The round trip, exactly: for a snapshot whose rows pass validation and load, the
      messages built for a client turn are the system prompt and the snapshot's own
      messages up to that turn, if and only if none of those messages carries a call id
      or tool calls the flat form has no place for. */
  lemma RoundTripExactlyWhen(conv: string, messages: seq<Msg>, prebuilt: map<Key, seq<Wire>>, k: nat)
    requires WellFormed(RowsFrom(conv, messages)) && k < |RowsFrom(conv, messages)|
    requires IsClient(RowsFrom(conv, messages)[k].role)
    requires Snapshots(RowsFrom(conv, messages), prebuilt, |RowsFrom(conv, messages)|)
    ensures (conv, k + 1) in prebuilt
    ensures prebuilt[(conv, k + 1)]
            == SystemWire(SystemContent(messages)) + MsgWires(Source(messages)[..Covered(messages, k + 1)])
            <==> forall m :: m in Source(messages)[..Covered(messages, k + 1)] ==> Clean(m)
  {
    var rows, items, ms := RowsFrom(conv, messages), ItemsFrom(messages), Source(messages);
    RowsOfAt(conv, items, SystemContent(messages), |items|, k);
    assert KeyOf(rows[k]) == (conv, k + 1);
    assert SnapshotAt(rows, prebuilt, k);
    MergedHaveResults(ms);
    HistoryOfRows(conv, items, SystemContent(messages), k + 1);
    SystemComesBack(conv, messages);
    CoveredWires(messages, k + 1);
    IdsAreNamed(conv, messages);
    var part := ms[..Covered(messages, k + 1)];
    LoadedAreWiresExactlyWhen(part);
    SamePrefix(SystemWire(SystemContent(messages)), LoadedWires(part), MsgWires(part));
  }

  lemma SamePrefix<T>(s: seq<T>, a: seq<T>, b: seq<T>)
    ensures s + a == s + b <==> a == b
  {
    if s + a == s + b {
      assert a == (s + a)[|s|..] == (s + b)[|s|..] == b;
    }
  }

  /** The last client turn of a clean snapshot sees all of it, one message per result. */
  lemma WholeSnapshotComesBack(conv: string, messages: seq<Msg>, prebuilt: map<Key, seq<Wire>>)
    requires WellFormed(RowsFrom(conv, messages)) && RowsFrom(conv, messages) != []
    requires var rows := RowsFrom(conv, messages); IsClient(rows[|rows| - 1].role)
    requires Snapshots(RowsFrom(conv, messages), prebuilt, |RowsFrom(conv, messages)|)
    requires forall m :: m in Source(messages) ==> Clean(m)
    ensures (conv, |RowsFrom(conv, messages)|) in prebuilt
    ensures prebuilt[(conv, |RowsFrom(conv, messages)|)]
            == SystemWire(SystemContent(messages)) + MsgWires(Source(messages))
  {
    var n := |RowsFrom(conv, messages)|;
    RoundTripExactlyWhen(conv, messages, prebuilt, n - 1);
    CoveredWires(messages, n);
    assert Source(messages)[..|Source(messages)|] == Source(messages);
  }

  /** The last client turn of any other snapshot does not see it as it was. */
  lemma NotAllComeBack(conv: string, messages: seq<Msg>, prebuilt: map<Key, seq<Wire>>, m: Msg)
    requires WellFormed(RowsFrom(conv, messages)) && RowsFrom(conv, messages) != []
    requires var rows := RowsFrom(conv, messages); IsClient(rows[|rows| - 1].role)
    requires Snapshots(RowsFrom(conv, messages), prebuilt, |RowsFrom(conv, messages)|)
    requires m in Source(messages) && !Clean(m)
    ensures (conv, |RowsFrom(conv, messages)|) in prebuilt
    ensures prebuilt[(conv, |RowsFrom(conv, messages)|)]
            != SystemWire(SystemContent(messages)) + MsgWires(Source(messages))
  {
    var n := |RowsFrom(conv, messages)|;
    RoundTripExactlyWhen(conv, messages, prebuilt, n - 1);
    CoveredWires(messages, n);
    assert Source(messages)[..|Source(messages)|] == Source(messages);
  }

  // ---- a snapshot that does not come back

  /** A snapshot of one plain user message. */
  predicate PlainUser(m: Msg) {
    m.role == User && Truthy(m.content) && m.toolCalls == []
  }

  lemma OneMessageSource(m: Msg)
    requires m.role == User
    ensures Source([m]) == [m] && ItemsFrom([m]) == [Plain(m)]
  {
    var none: seq<Msg> := [];
    assert [m][..0] == none;
    assert NonSystem([m]) == NonSystem(none) + [m] == [m];
    assert CollapseUsers([m]) == AddUser(CollapseUsers(none), m) == [m];
    assert MergeTools([m]) == AddTool(MergeTools(none), m);
  }

  lemma UserRowOk(conv: string, k: nat, m: Msg, system: Option<Text>)
    requires PlainUser(m)
    ensures var row := ItemRow(conv, k, Plain(m), system); row.role == User && RowOk(row)
  {
  }

  lemma OneUserRow(conv: string, items: seq<Item>, system: Option<Text>, m: Msg)
    requires PlainUser(m) && items == [Plain(m)]
    ensures var rows := RowsOf(conv, items, system, |items|);
      |rows| == 1 && rows[0].role == User && WellFormed(rows)
  {
    RowsOfAt(conv, items, system, 1, 0);
    UserRowOk(conv, 0, m, RowAt(conv, items, system, 0).system);
  }

  lemma OneMessageRows(conv: string, m: Msg)
    requires PlainUser(m)
    ensures var rows := RowsFrom(conv, [m]); |rows| == 1 && rows[0].role == User && WellFormed(rows)
  {
    OneMessageSource(m);
    OneUserRow(conv, ItemsFrom([m]), SystemContent([m]), m);
  }

  /** A user message with a call id, which a flat user row has no place for. */
  const TAGGED := Msg(User, Some("hi"), [], Some("id"))

  /** Its row passes validation and loads, and the message comes back without the id. */
  lemma CallIdIsLost(conv: string, prebuilt: map<Key, seq<Wire>>)
    requires Snapshots(RowsFrom(conv, [TAGGED]), prebuilt, |RowsFrom(conv, [TAGGED])|)
    ensures WellFormed(RowsFrom(conv, [TAGGED])) && (conv, 1) in prebuilt
    ensures prebuilt[(conv, 1)] != SystemWire(SystemContent([TAGGED])) + MsgWires(Source([TAGGED]))
  {
    OneMessageRows(conv, TAGGED);
    assert TAGGED in Source([TAGGED]) by { OneMessageSource(TAGGED); }
    NotAllComeBack(conv, [TAGGED], prebuilt, TAGGED);
  }
}
