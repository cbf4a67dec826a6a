/** The dataset's validators as the loops that run them, each proved to accept exactly
    the conversations its rules describe. */
module ConversationChecks {
  import opened Collections
  import opened Sorting
  import opened ConversationData

  // ---- role sequence ----

  predicate HasCalls(r: Row) {
    r.toolCalls.Some? && r.toolCalls.value != []
  }

  /** What is asked of one row alone: a tool row has results, each with a call id and a
      content that is present, if only as null; an assistant row has a text or calls, and
      no empty list of calls; a user row has a text. */
  predicate RowOk(r: Row) {
    match r.role
    case Tool =>
      r.toolResults.Some? && r.toolResults.value != []
      && forall x :: x in r.toolResults.value ==> Truthy(x.callId) && x.content != Absent
    case Assistant =>
      && (HasCalls(r) ==> forall c :: c in r.toolCalls.value ==> c.wellFormed)
      && (Truthy(r.content) || HasCalls(r))
      && (r.toolCalls.Some? ==> HasCalls(r))
    case User => Truthy(r.content)
    case _ => true
  }

  datatype State = Begin | After(role: Role)

  predicate Allowed(s: State, r: Role) {
    match s
    case Begin => r == User
    case After(User) => r == Assistant
    case After(Assistant) => r == Tool || r == User
    case After(Tool) => r == Assistant || r == User
    case After(_) => false
  }

  /** The rules, without a scan: where a conversation starts, which roles may follow
      which, that tool rows answer calls, and that calls are answered. */
  ghost predicate WellFormed(rows: seq<Row>) {
    && (forall k :: 0 <= k < |rows| ==> RowOk(rows[k]))
    && (rows != [] ==> rows[0].role == User)
    && (forall k :: 0 < k < |rows| ==> Follows(rows[k - 1], rows[k]))
  }

  ghost predicate Follows(before: Row, row: Row) {
    && (before.role, row.role)
       in {(User, Assistant), (Assistant, Tool), (Assistant, User), (Tool, Assistant), (Tool, User)}
    && (row.role == Tool ==> before.role == Assistant && HasCalls(before))
    && (before.role == Assistant && HasCalls(before) ==> row.role == Tool)
  }

  method CheckResults(results: seq<ToolResult>) returns (ok: bool)
    ensures ok <==> forall x :: x in results ==> Truthy(x.callId) && x.content != Absent
  {
    for k := 0 to |results|
      invariant forall j :: 0 <= j < k ==> Truthy(results[j].callId) && results[j].content != Absent
    {
      var result := results[k];
      if result.callId.None? || result.callId.value == "" || result.content.Absent? { return false; }
    }
    return true;
  }

  method CheckCalls(calls: seq<Call>) returns (ok: bool)
    ensures ok <==> forall c :: c in calls ==> c.wellFormed
  {
    for k := 0 to |calls|
      invariant forall j :: 0 <= j < k ==> calls[j].wellFormed
    {
      if !calls[k].wellFormed { return false; }
    }
    return true;
  }

  method CheckRow(r: Row) returns (ok: bool)
    ensures ok <==> RowOk(r)
  {
    var text := r.content.Some? && r.content.value != "";
    if r.role == Tool {
      if r.toolResults.None? || r.toolResults.value == [] { return false; }
      ok := CheckResults(r.toolResults.value);
    } else if r.role == Assistant {
      var called := r.toolCalls.Some? && r.toolCalls.value != [];
      if called {
        ok := CheckCalls(r.toolCalls.value);
      } else {
        ok := text && r.toolCalls.None?;
      }
    } else {
      ok := r.role != User || text;
    }
  }

  method ValidateStructure(rows: seq<Row>) returns (ok: bool)
    ensures ok <==> WellFormed(rows)
  {
    var state := Begin;
    var prevAssistantHadToolCalls := false;
    var k := 0;
    while k < |rows|
      invariant k <= |rows|
      invariant state == if k == 0 then Begin else After(rows[k - 1].role)
      invariant prevAssistantHadToolCalls <==> k > 0 && rows[k - 1].role == Assistant && HasCalls(rows[k - 1])
      invariant forall j :: 0 <= j < k ==> RowOk(rows[j])
      invariant k > 0 ==> rows[0].role == User
      invariant forall j :: 0 < j < k ==> Follows(rows[j - 1], rows[j])
    {
      var row := rows[k];
      var rowOk := CheckRow(row);
      if !Allowed(state, row.role)
         || (row.role == Tool && state == After(Assistant) && !prevAssistantHadToolCalls)
         || !rowOk
         || (row.role == User && state == After(Assistant) && prevAssistantHadToolCalls)
      {
        assert k > 0 ==> !RowOk(row) || !Follows(rows[k - 1], row);
        return false;
      }
      prevAssistantHadToolCalls := row.role == Assistant && row.toolCalls.Some? && row.toolCalls.value != [];
      state := After(row.role);
      k := k + 1;
    }
    return true;
  }

  // ---- grouping ----

  /** A usable conversation id: not missing, not the text of a missing number, and all
      printable ASCII. */
  predicate IdOk(id: Option<string>) {
    id.Some? && id.value != "" && id.value != "nan" && forall c :: c in id.value ==> ' ' <= c <= '~'
  }

  /** All rows of a conversation stand together. */
  ghost predicate Consecutive(ids: seq<Option<string>>) {
    forall i, j, k :: 0 <= i < j < k < |ids| && ids[i] == ids[k] ==> ids[j] == ids[i]
  }

  ghost predicate GroupingOk(ids: seq<Option<string>>) {
    (forall k :: 0 <= k < |ids| ==> IdOk(ids[k])) && Consecutive(ids)
  }

  method CheckId(id: Option<string>) returns (ok: bool)
    ensures ok <==> IdOk(id)
  {
    if id.None? || id.value == "" || id.value == "nan" { return false; }
    for k := 0 to |id.value|
      invariant forall j :: 0 <= j < k ==> ' ' <= id.value[j] <= '~'
    {
      if id.value[k] < ' ' || id.value[k] > '~' {
        assert id.value[k] in id.value;
        return false;
      }
    }
    return true;
  }

  method ValidateGrouping(ids: seq<Option<string>>) returns (ok: bool)
    ensures ok <==> GroupingOk(ids)
  {
    var seen: set<Option<string>> := {};
    var k := 0;
    while k < |ids|
      invariant k <= |ids|
      invariant forall x :: x in seen <==> x in ids[..k]
      invariant forall j :: 0 <= j < k ==> IdOk(ids[j])
      invariant Consecutive(ids[..k])
    {
      var idOk := CheckId(ids[k]);
      if !idOk { return false; }
      var last := k > 0 && ids[k - 1] == ids[k];
      ghost var upTo := ids[..k + 1];
      if !last {
        if ids[k] in seen {
          var i :| 0 <= i < k && ids[i] == ids[k];
          assert i < k - 1 < k && ids[k - 1] != ids[i];
          return false;
        }
        seen := seen + {ids[k]};
      }
      assert Consecutive(upTo) by {
        forall a, b, c | 0 <= a < b < c < |upTo| && upTo[a] == upTo[c] ensures upTo[b] == upTo[a] {
          if c == k {
            assert upTo[a] in ids[..k];
            assert ids[..k][a] == ids[a] && ids[..k][b] == ids[b] && ids[..k][k - 1] == ids[k - 1];
          } else {
            assert ids[..k][a] == ids[a] && ids[..k][b] == ids[b] && ids[..k][c] == ids[c];
          }
        }
      }
      assert upTo == ids[..k] + [ids[k]];
      k := k + 1;
    }
    assert ids[..|ids|] == ids;
    return true;
  }

  // ---- turn numbers ----

  function TurnOf(): Row -> int {
    (r: Row) => r.turn
  }

  /** The rows of a conversation in turn order. */
  function SortByTurn(rows: seq<Row>): seq<Row> {
    SortBy(TurnOf(), rows)
  }

  lemma SortByTurnOk(rows: seq<Row>)
    ensures var s := SortByTurn(rows);
      && multiset(s) == multiset(rows) && |s| == |rows|
      && (forall i, j :: 0 <= i < j < |s| ==> s[i].turn <= s[j].turn)
  {
    SortByPermutes(TurnOf(), rows);
    SortByOk(TurnOf(), rows);
    var s := SortByTurn(rows);
    forall i, j | 0 <= i < j < |s| ensures s[i].turn <= s[j].turn {
      assert TurnOf()(s[i]) <= TurnOf()(s[j]);
    }
  }

  /** The turns are exactly 1, 2, 3, … in some order. */
  ghost predicate Numbered(rows: seq<Row>) {
    forall k :: 0 <= k < |rows| ==> k < |SortByTurn(rows)| && SortByTurn(rows)[k].turn == k + 1
  }

  method ValidateTurnNumbering(rows: seq<Row>) returns (ok: bool)
    ensures ok <==> Numbered(rows)
  {
    SortByTurnOk(rows);
    var sorted := SortByTurn(rows);
    for k := 0 to |sorted|
      invariant forall j :: 0 <= j < k ==> sorted[j].turn == j + 1
    {
      if sorted[k].turn != k + 1 { return false; }
    }
    return true;
  }
}
