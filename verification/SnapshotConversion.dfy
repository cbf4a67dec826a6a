/** The snapshot converter: the system message is taken out, consecutive user messages
    are joined, consecutive tool messages are merged into one row, and every resulting
    message becomes a numbered flat row. */
module SnapshotConversion {
  import opened Collections
  import opened ConversationData
  import opened Texts

  // ---- system message ----

  method SplitSystem(messages: seq<Msg>) returns (system: Option<Text>, rest: seq<Msg>)
    ensures rest == NonSystem(messages) && system == SystemContent(messages)
  {
    system, rest := None, [];
    for k := 0 to |messages|
      invariant rest == NonSystem(messages[..k]) && system == SystemContent(messages[..k])
    {
      assert messages[..k + 1][..k] == messages[..k];
      if messages[k].role == System {
        system := messages[k].content;
      } else {
        rest := rest + [messages[k]];
      }
    }
    assert messages[..|messages|] == messages;
  }

  function NonSystem(messages: seq<Msg>): seq<Msg> {
    if messages == [] then []
    else
      var n := |messages| - 1;
      NonSystem(messages[..n]) + if messages[n].role == System then [] else [messages[n]]
  }

  /** The content of the last system message, wherever it stands. */
  function SystemContent(messages: seq<Msg>): Option<Text> {
    if messages == [] then None
    else
      var n := |messages| - 1;
      if messages[n].role == System then messages[n].content else SystemContent(messages[..n])
  }

  /** The messages of every other role stay, in order; the prompt is the content of the
      last system message, if there is one. */
  lemma {:induction false} SystemTakenOut(messages: seq<Msg>)
    ensures NonSystem(messages) == Selected(messages, (m: Msg) => m.role != System)
    ensures SystemContent(messages)
         == var own := Selected(messages, (m: Msg) => m.role == System);
            if own == [] then None else own[|own| - 1].content
  {
    if messages != [] {
      var n := |messages| - 1;
      SystemTakenOut(messages[..n]);
      assert messages == messages[..n] + [messages[n]];
    }
  }

  // ---- user collapse ----

  function TextOf(t: Option<Text>): Text {
    if t.Some? then t.value else ""
  }

  function Join(a: Msg, b: Msg): Msg {
    a.(content := Some(Strip(TextOf(a.content) + "\n\n" + TextOf(b.content))))
  }

  function AddUser(done: seq<Msg>, m: Msg): seq<Msg> {
    if done != [] && done[|done| - 1].role == User && m.role == User
    then done[..|done| - 1] + [Join(done[|done| - 1], m)]
    else done + [m]
  }

  function CollapseUsers(ms: seq<Msg>): seq<Msg> {
    if ms == [] then [] else AddUser(CollapseUsers(ms[..|ms| - 1]), ms[|ms| - 1])
  }

  ghost predicate NoTwoUsers(ms: seq<Msg>) {
    forall k :: 0 < k < |ms| ==> !(ms[k - 1].role == User && ms[k].role == User)
  }

  function OtherThanUsers(ms: seq<Msg>): seq<Msg> {
    if ms == [] then []
    else OtherThanUsers(ms[..|ms| - 1]) + if ms[|ms| - 1].role == User then [] else [ms[|ms| - 1]]
  }

  lemma OthersAppend(ms: seq<Msg>, m: Msg)
    ensures OtherThanUsers(ms + [m]) == OtherThanUsers(ms) + if m.role == User then [] else [m]
  {
    assert (ms + [m])[..|ms|] == ms;
  }

  lemma AddUserOk(done: seq<Msg>, m: Msg)
    requires NoTwoUsers(done)
    ensures NoTwoUsers(AddUser(done, m))
    ensures OtherThanUsers(AddUser(done, m)) == OtherThanUsers(done) + if m.role == User then [] else [m]
  {
    OthersAppend(done, m);
    if |AddUser(done, m)| == |done| {
      var front, last := done[..|done| - 1], done[|done| - 1];
      assert done == front + [last];
      OthersAppend(front, last);
      OthersAppend(front, Join(last, m));
    }
  }

  /** Collapsing leaves no two user messages in a row and keeps every other message, in
      order. */
  lemma {:induction false} CollapseUsersOk(ms: seq<Msg>)
    ensures NoTwoUsers(CollapseUsers(ms))
    ensures OtherThanUsers(CollapseUsers(ms)) == OtherThanUsers(ms)
  {
    if ms != [] {
      var n := |ms| - 1;
      CollapseUsersOk(ms[..n]);
      AddUserOk(CollapseUsers(ms[..n]), ms[n]);
      assert ms == ms[..n] + [ms[n]];
      OthersAppend(ms[..n], ms[n]);
    }
  }

  /** A text without its white space. */
  function Dense(s: string): string {
    if s == [] then []
    else Dense(s[..|s| - 1]) + if IsSpace(s[|s| - 1]) then [] else [s[|s| - 1]]
  }

  lemma {:induction false} DenseConcat(a: string, b: string)
    ensures Dense(a + b) == Dense(a) + Dense(b)
  {
    if b == [] {
      assert a + b == a;
    } else {
      var n := |b| - 1;
      assert (a + b)[..|a| + n] == a + b[..n];
      DenseConcat(a, b[..n]);
    }
  }

  lemma {:induction false} DenseStrip(s: string)
    ensures Dense(Strip(s)) == Dense(s)
  {
    if s != [] {
      if IsSpace(s[0]) {
        assert s == [s[0]] + s[1..];
        DenseConcat([s[0]], s[1..]);
        DenseStrip(s[1..]);
      } else if IsSpace(s[|s| - 1]) {
        DenseStrip(s[..|s| - 1]);
      }
    }
  }

  lemma DenseGap()
    ensures Dense("\n\n") == []
  {
    assert Dense("\n") == [] by { assert "\n"[..0] == ""; }
    assert "\n\n"[..1] == "\n";
  }

  lemma DenseAround(x: string, gap: string, y: string)
    requires Dense(gap) == []
    ensures Dense(x + gap + y) == Dense(x) + Dense(y)
  {
    DenseConcat(x + gap, y);
    DenseConcat(x, gap);
  }

  lemma DenseJoin(a: Msg, b: Msg)
    ensures Dense(TextOf(Join(a, b).content)) == Dense(TextOf(a.content)) + Dense(TextOf(b.content))
  {
    var x, y := TextOf(a.content), TextOf(b.content);
    DenseStrip(x + "\n\n" + y);
    DenseGap();
    DenseAround(x, "\n\n", y);
  }

  /** Everything the user said, in order, white space aside. */
  function UserSpeech(ms: seq<Msg>): string {
    if ms == [] then []
    else UserSpeech(ms[..|ms| - 1])
         + if ms[|ms| - 1].role == User then Dense(TextOf(ms[|ms| - 1].content)) else []
  }

  lemma SpeechAppend(ms: seq<Msg>, m: Msg)
    ensures UserSpeech(ms + [m]) == UserSpeech(ms) + if m.role == User then Dense(TextOf(m.content)) else []
  {
    assert (ms + [m])[..|ms|] == ms;
  }

  lemma SpeechOfLonger(front: seq<Msg>, last: Msg, longer: Msg, more: string)
    requires last.role == User && longer.role == User
    requires Dense(TextOf(longer.content)) == Dense(TextOf(last.content)) + more
    ensures UserSpeech(front + [longer]) == UserSpeech(front + [last]) + more
  {
    SpeechAppend(front, last);
    SpeechAppend(front, longer);
    ConcatAssociates(UserSpeech(front), Dense(TextOf(last.content)), more);
  }

  lemma JoinKeepsSpeech(front: seq<Msg>, last: Msg, m: Msg)
    requires last.role == User
    ensures UserSpeech(front + [Join(last, m)]) == UserSpeech(front + [last]) + Dense(TextOf(m.content))
  {
    DenseJoin(last, m);
    SpeechOfLonger(front, last, Join(last, m), Dense(TextOf(m.content)));
  }

  lemma AddUserKeepsSpeech(done: seq<Msg>, m: Msg)
    ensures UserSpeech(AddUser(done, m)) == UserSpeech(done) + if m.role == User then Dense(TextOf(m.content)) else []
  {
    if |AddUser(done, m)| == |done| {
      var front, last := done[..|done| - 1], done[|done| - 1];
      assert done == front + [last];
      JoinKeepsSpeech(front, last, m);
    } else {
      SpeechAppend(done, m);
    }
  }

  /** Collapsing loses none of what the user said. */
  lemma {:induction false} CollapseKeepsSpeech(ms: seq<Msg>)
    ensures UserSpeech(CollapseUsers(ms)) == UserSpeech(ms)
  {
    if ms != [] {
      var n := |ms| - 1;
      CollapseKeepsSpeech(ms[..n]);
      var done, m := CollapseUsers(ms[..n]), ms[n];
      AddUserKeepsSpeech(done, m);
    }
  }

  /** A user message after another is joined to it by a blank line, white space at the ends
      taken off; any other message is added as it is. */
  lemma JoinedByBlankLine(ms: seq<Msg>, m: Msg) returns (before: string, after: string)
    ensures var done, more := CollapseUsers(ms), CollapseUsers(ms + [m]);
      if done != [] && done[|done| - 1].role == User && m.role == User then
        var last := done[|done| - 1];
        && |more| == |done| && more[..|done| - 1] == done[..|done| - 1]
        && more[|done| - 1] == last.(content := more[|done| - 1].content) && more[|done| - 1].content.Some?
        && Stripped(TextOf(last.content) + "\n\n" + TextOf(m.content), more[|done| - 1].content.value, before, after)
      else more == done + [m]
  {
    assert (ms + [m])[..|ms|] == ms;
    var done := CollapseUsers(ms);
    before, after := "", "";
    if done != [] && done[|done| - 1].role == User && m.role == User {
      before, after := StripExactly(TextOf(done[|done| - 1].content) + "\n\n" + TextOf(m.content));
    }
  }

  lemma FrontStays(ms: seq<Msg>)
    requires NoTwoUsers(ms) && ms != []
    ensures NoTwoUsers(ms[..|ms| - 1])
    ensures AddUser(ms[..|ms| - 1], ms[|ms| - 1]) == ms
  {
  }

  /** Collapsing again changes nothing. */
  lemma {:induction false} CollapsedStays(ms: seq<Msg>)
    requires NoTwoUsers(ms)
    ensures CollapseUsers(ms) == ms
  {
    if ms != [] {
      var n := |ms| - 1;
      FrontStays(ms);
      CollapsedStays(ms[..n]);
    }
  }

  // ---- tool merge ----

  /** A message after both passes: as it was, or several tool results in one. */
  datatype Item = Plain(msg: Msg) | Merged(results: seq<ToolResult>)

  function RoleOf(i: Item): Role {
    if i.Plain? then i.msg.role else Tool
  }

  function ResultOf(m: Msg): ToolResult {
    ToolResult(m.toolCallId, if m.content.Some? then Value(m.content.value) else Null)
  }

  function ResultsOf(i: Item): seq<ToolResult> {
    if i.Plain? then [ResultOf(i.msg)] else i.results
  }

  function AddTool(done: seq<Item>, m: Msg): seq<Item> {
    if done != [] && RoleOf(done[|done| - 1]) == Tool && m.role == Tool
    then done[..|done| - 1] + [Merged(ResultsOf(done[|done| - 1]) + [ResultOf(m)])]
    else done + [Plain(m)]
  }

  function MergeTools(ms: seq<Msg>): seq<Item> {
    if ms == [] then [] else AddTool(MergeTools(ms[..|ms| - 1]), ms[|ms| - 1])
  }

  ghost predicate NoTwoTools(items: seq<Item>) {
    forall k :: 0 < k < |items| ==> !(RoleOf(items[k - 1]) == Tool && RoleOf(items[k]) == Tool)
  }

  /** No two tool rows in a row remain: every run of tool messages is one row. */
  lemma {:induction false} MergeToolsOk(ms: seq<Msg>)
    ensures NoTwoTools(MergeTools(ms))
  {
    if ms != [] {
      MergeToolsOk(ms[..|ms| - 1]);
    }
  }

  /** The first pass: each user message after another is joined to it. */
  method JoinUserMessages(nonSystem: seq<Msg>) returns (collapsed: seq<Msg>)
    ensures collapsed == CollapseUsers(nonSystem)
  {
    collapsed := [];
    for k := 0 to |nonSystem|
      invariant collapsed == CollapseUsers(nonSystem[..k])
    {
      assert nonSystem[..k + 1][..k] == nonSystem[..k];
      var msg := nonSystem[k];
      var last := |collapsed| - 1;
      if last >= 0 && collapsed[last].role == User && msg.role == User {
        collapsed := collapsed[..last] + [Join(collapsed[last], msg)];
      } else {
        collapsed := collapsed + [msg];
      }
    }
    assert nonSystem[..|nonSystem|] == nonSystem;
  }

  /** The second pass: each tool message after another is merged into its row. */
  method MergeToolMessages(collapsed: seq<Msg>) returns (merged: seq<Item>)
    ensures merged == MergeTools(collapsed)
  {
    merged := [];
    for k := 0 to |collapsed|
      invariant merged == MergeTools(collapsed[..k])
    {
      assert collapsed[..k + 1][..k] == collapsed[..k];
      var msg := collapsed[k];
      var last := |merged| - 1;
      if last >= 0 && RoleOf(merged[last]) == Tool && msg.role == Tool {
        merged := merged[..last] + [Merged(ResultsOf(merged[last]) + [ResultOf(msg)])];
      } else {
        merged := merged + [Plain(msg)];
      }
    }
    assert collapsed[..|collapsed|] == collapsed;
  }

  method ApplyCollapses(nonSystem: seq<Msg>) returns (merged: seq<Item>)
    ensures merged == MergeTools(CollapseUsers(nonSystem))
  {
    var collapsed := JoinUserMessages(nonSystem);
    merged := MergeToolMessages(collapsed);
  }

  // ---- rows ----

  function ItemRow(conv: string, k: nat, i: Item, system: Option<Text>): Row {
    Row(conv, k + 1, RoleOf(i), system,
        if RoleOf(i) != Tool then i.msg.content else None, None,
        if i.Plain? && i.msg.toolCalls != [] then Some(i.msg.toolCalls) else None,
        if RoleOf(i) == Tool then Some(ResultsOf(i)) else None, None)
  }

  predicate UserAmong(items: seq<Item>, n: nat)
    requires n <= |items|
  {
    n > 0 && (UserAmong(items, n - 1) || RoleOf(items[n - 1]) == User)
  }

  /** The row of one item: the system prompt goes on the first user row only. */
  function RowAt(conv: string, items: seq<Item>, system: Option<Text>, k: nat): Row
    requires k < |items|
  {
    var first := RoleOf(items[k]) == User && !UserAmong(items, k);
    ItemRow(conv, k, items[k], if first then system else None)
  }

  function RowsOf(conv: string, items: seq<Item>, system: Option<Text>, n: nat): (rows: seq<Row>)
    requires n <= |items|
    ensures |rows| == n
  {
    if n == 0 then [] else RowsOf(conv, items, system, n - 1) + [RowAt(conv, items, system, n - 1)]
  }

  lemma {:induction false} RowsOfExactly(conv: string, items: seq<Item>, system: Option<Text>, n: nat, k: nat)
    requires k < n <= |items|
    ensures RowsOf(conv, items, system, n)[k] == RowAt(conv, items, system, k)
  {
    if k < n - 1 { RowsOfExactly(conv, items, system, n - 1, k); }
  }

  lemma {:induction false} UserAmongExactly(items: seq<Item>, n: nat)
    requires n <= |items|
    ensures UserAmong(items, n) <==> exists j :: 0 <= j < n && RoleOf(items[j]) == User
  {
    if n > 0 { UserAmongExactly(items, n - 1); }
  }

  /** The prompt stands on the first user row and on no other. */
  lemma PromptOnFirstUserRow(conv: string, items: seq<Item>, system: Option<Text>, k: nat)
    requires k < |items|
    ensures RowsOf(conv, items, system, |items|)[k].system
         == if RoleOf(items[k]) == User && forall j :: 0 <= j < k ==> RoleOf(items[j]) != User then system else None
  {
    RowsOfExactly(conv, items, system, |items|, k);
    UserAmongExactly(items, k);
  }

  /** Row `k` has the conversation, the turn `k + 1` and the role; a tool row has the results
      and no content, any other row the message's content and no results; the tool calls
      are the message's, if it has any. */
  lemma RowExactly(conv: string, items: seq<Item>, system: Option<Text>, k: nat)
    requires k < |items|
    ensures var row, item := RowsOf(conv, items, system, |items|)[k], items[k];
      && row.conv == conv && row.turn == k + 1 && row.role == RoleOf(item)
      && (row.role == Tool ==> row.content == None && row.toolResults == Some(ResultsOf(item)))
      && (row.role != Tool ==> item.Plain? && row.content == item.msg.content && row.toolResults == None)
      && (row.toolCalls.Some? <==> item.Plain? && item.msg.toolCalls != [])
      && (row.toolCalls.Some? ==> row.toolCalls.value == item.msg.toolCalls)
  {
    RowsOfExactly(conv, items, system, |items|, k);
  }

  method Convert(conv: string, messages: seq<Msg>) returns (rows: seq<Row>)
    ensures var items := MergeTools(CollapseUsers(NonSystem(messages)));
      rows == RowsOf(conv, items, SystemContent(messages), |items|)
  {
    var system, nonSystem := SplitSystem(messages);
    var items := ApplyCollapses(nonSystem);
    rows := [];
    var firstUserSeen := false;
    for position := 0 to |items|
      invariant firstUserSeen == UserAmong(items, position)
      invariant rows == RowsOf(conv, items, system, position)
    {
      var item := items[position];
      var rowSystem := None;
      if RoleOf(item) == User && !firstUserSeen {
        rowSystem := system;
        firstUserSeen := true;
      }
      rows := rows + [ItemRow(conv, position, item, rowSystem)];
    }
  }
}
