/** Model outputs, streamed or whole: merging tool-call deltas, and the text before and
    after the first chunk. */
module ToolCallMerge {
  import opened Collections

  /** A streamed piece of a tool call; an absent and an empty field are both falsy. */
  datatype Delta = Delta(index: Option<int>, id: string, kind: string, name: string, arguments: string)

  datatype ToolCall = ToolCall(id: string, kind: string, name: string, arguments: string)

  /** Tool calls of an output: none, whole ones, or one chunk of deltas per stream chunk. */
  datatype Calls = NoCalls | Whole(calls: seq<ToolCall>) | Streamed(chunks: seq<seq<Delta>>)

  const NEW_CALL := ToolCall("", "function", "", "")

  function IndexOf(d: Delta): int {
    if d.index.Some? then d.index.value else 0
  }

  function Extend(c: ToolCall, d: Delta): ToolCall {
    ToolCall(if d.id != "" then d.id else c.id, if d.kind != "" then d.kind else c.kind,
             if d.name != "" then d.name else c.name, c.arguments + d.arguments)
  }

  // ---- What merging means

  /** The deltas of one index, in order. */
  function Own(ds: seq<Delta>, i: int): seq<Delta> {
    if ds == [] then []
    else Own(ds[..|ds| - 1], i) + if IndexOf(ds[|ds| - 1]) == i then [ds[|ds| - 1]] else []
  }

  function MergeOwn(ds: seq<Delta>): ToolCall {
    if ds == [] then NEW_CALL else Extend(MergeOwn(ds[..|ds| - 1]), ds[|ds| - 1])
  }

  function Indices(ds: seq<Delta>): set<int> {
    if ds == [] then {} else Indices(ds[..|ds| - 1]) + {IndexOf(ds[|ds| - 1])}
  }

  lemma EmptyOrInhabited(s: set<int>)
    ensures s == {} || exists x :: x in s
  {
    if forall x :: x !in s { assert s == {}; }
  }

  lemma {:induction false} MinExists(s: set<int>, y: int)
    requires y in s
    ensures exists m :: Least(s, m)
  {
    if x :| x in s && x < y {
      MinExists(s - {y}, x);
      var m :| Least(s - {y}, m);
      LeastOfMore(s, y, x, m);
    } else {
      assert Least(s, y);
    }
  }

  ghost predicate Least(s: set<int>, m: int) {
    m in s && forall x :: x in s ==> m <= x
  }

  lemma LeastOfMore(s: set<int>, y: int, x: int, m: int)
    requires Least(s - {y}, m) && x in s - {y} && x < y
    ensures Least(s, m)
  {
    forall z | z in s ensures m <= z {
      if z != y { assert z in s - {y}; }
    }
  }

  function Ascending(s: set<int>): (r: seq<int>)
    ensures forall x :: x in r <==> x in s
  {
    if s == {} then []
    else
      EmptyOrInhabited(s);
      ghost var y :| y in s;
      MinExists(s, y);
      ghost var least :| Least(s, least);
      var m :| m in s && forall x :: x in s ==> m <= x;
      [m] + Ascending(s - {m})
  }

  lemma {:induction false} AscendingIncreases(s: set<int>)
    ensures forall i, j :: 0 <= i < j < |Ascending(s)| ==> Ascending(s)[i] < Ascending(s)[j]
  {
    if s != {} {
      var r := Ascending(s);
      var rest := s - {r[0]};
      assert r == [r[0]] + Ascending(rest);
      AscendingIncreases(rest);
      forall j | 0 < j < |r| ensures r[0] < r[j] { assert r[j] in Ascending(rest); }
    }
  }

  /** One call per index, by ascending index, each merged from its own deltas only. */
  function Merged(ds: seq<Delta>): (r: seq<ToolCall>)
    ensures var order := Ascending(Indices(ds));
      |r| == |order| && forall k :: 0 <= k < |r| ==> r[k] == MergeOwn(Own(ds, order[k]))
  {
    var order := Ascending(Indices(ds));
    seq(|order|, k requires 0 <= k < |order| => MergeOwn(Own(ds, order[k])))
  }

  function Merge(calls: Calls): Option<seq<ToolCall>> {
    match calls
    case NoCalls => None
    case Whole(cs) => if cs == [] then None else Some(cs)
    case Streamed(chunks) => if chunks == [] then None else Some(Merged(Flatten(chunks)))
  }

  /** Only each index's own deltas matter: neither how the stream was cut into chunks nor
      how the indices interleave shows in the result. */
  lemma MergeIgnoresChunkingAndInterleaving(a: seq<seq<Delta>>, b: seq<seq<Delta>>)
    requires a != [] && b != []
    requires forall i :: Own(Flatten(a), i) == Own(Flatten(b), i)
    ensures Merge(Streamed(a)) == Merge(Streamed(b))
  {
    var x, y := Flatten(a), Flatten(b);
    assert Indices(x) == Indices(y) by {
      forall i ensures i in Indices(x) <==> i in Indices(y) {
        IndexHasDeltas(x, i);
        IndexHasDeltas(y, i);
      }
    }
    var order := Ascending(Indices(x));
    forall k | 0 <= k < |order| ensures Merged(x)[k] == Merged(y)[k] {
      assert Own(x, order[k]) == Own(y, order[k]);
    }
    assert Merged(x) == Merged(y);
  }

  lemma {:induction false} IndexHasDeltas(ds: seq<Delta>, i: int)
    ensures i in Indices(ds) <==> Own(ds, i) != []
  {
    if ds != [] {
      var before := ds[..|ds| - 1];
      IndexHasDeltas(before, i);
    }
  }

  /** A call's deltas are, in order, those of its index; one without an index is of call 0. */
  lemma {:induction false} OwnExactly(ds: seq<Delta>, i: int)
    ensures Own(ds, i) == Selected(ds, (d: Delta) => d.index == Some(i) || (d.index == None && i == 0))
  {
    if ds != [] { OwnExactly(ds[..|ds| - 1], i); }
  }

  function AllArguments(ds: seq<Delta>): string {
    if ds == [] then "" else AllArguments(ds[..|ds| - 1]) + ds[|ds| - 1].arguments
  }

  ghost predicate LastOf(ds: seq<Delta>, field: Delta -> string, initial: string, value: string) {
    (value == initial && forall k :: 0 <= k < |ds| ==> field(ds[k]) == "")
    || exists k :: 0 <= k < |ds| && value == field(ds[k]) != "" && forall j :: k < j < |ds| ==> field(ds[j]) == ""
  }

  lemma LastOfNext(ds: seq<Delta>, field: Delta -> string, initial: string, value: string, d: Delta)
    requires LastOf(ds, field, initial, value)
    ensures LastOf(ds + [d], field, initial, if field(d) != "" then field(d) else value)
  {
    var more := ds + [d];
    if field(d) != "" {
      assert more[|ds|] == d;
    } else if k :| 0 <= k < |ds| && value == field(ds[k]) != "" && forall j :: k < j < |ds| ==> field(ds[j]) == "" {
      assert more[k] == ds[k];
    }
  }

  /** A merged call has all arguments joined, and the last non-empty id, type and name. */
  lemma {:induction false} MergedFields(ds: seq<Delta>)
    ensures var c := MergeOwn(ds);
      c.arguments == AllArguments(ds) && LastOf(ds, (d: Delta) => d.id, "", c.id)
      && LastOf(ds, (d: Delta) => d.kind, "function", c.kind) && LastOf(ds, (d: Delta) => d.name, "", c.name)
  {
    if ds != [] {
      var n := |ds| - 1;
      MergedFields(ds[..n]);
      var c := MergeOwn(ds[..n]);
      assert ds == ds[..n] + [ds[n]];
      LastOfNext(ds[..n], (d: Delta) => d.id, "", c.id, ds[n]);
      LastOfNext(ds[..n], (d: Delta) => d.kind, "function", c.kind, ds[n]);
      LastOfNext(ds[..n], (d: Delta) => d.name, "", c.name, ds[n]);
    }
  }

  // ---- The merge loop

  ghost predicate Holds(merged: map<int, ToolCall>, ds: seq<Delta>) {
    merged.Keys == Indices(ds) && forall i :: i in merged ==> merged[i] == MergeOwn(Own(ds, i))
  }

  lemma MergeOwnAppend(ds: seq<Delta>, d: Delta)
    ensures MergeOwn(ds + [d]) == Extend(MergeOwn(ds), d)
  {
    assert (ds + [d])[..|ds|] == ds;
  }

  lemma EntryNext(ds: seq<Delta>, d: Delta, i: int)
    ensures MergeOwn(Own(ds + [d], i)) ==
      if i == IndexOf(d) then Extend(MergeOwn(Own(ds, i)), d) else MergeOwn(Own(ds, i))
  {
    OwnNext(ds, d, i);
    MergeOwnAppend(Own(ds, i), d);
  }

  lemma OwnNext(ds: seq<Delta>, d: Delta, i: int)
    ensures Indices(ds + [d]) == Indices(ds) + {IndexOf(d)}
    ensures Own(ds + [d], i) == if i == IndexOf(d) then Own(ds, i) + [d] else Own(ds, i)
  {
    assert (ds + [d])[..|ds|] == ds;
  }

  /** One more delta keeps the merge state that of the deltas so far. */
  lemma HoldsNext(merged: map<int, ToolCall>, ds: seq<Delta>, d: Delta)
    requires Holds(merged, ds)
    ensures var i := IndexOf(d);
      Holds(merged[i := Extend(if i in merged then merged[i] else NEW_CALL, d)], ds + [d])
  {
    var i, more := IndexOf(d), ds + [d];
    var next := merged[i := Extend(if i in merged then merged[i] else NEW_CALL, d)];
    OwnNext(ds, d, i);
    IndexHasDeltas(ds, i);
    assert i !in merged ==> Own(ds, i) == [] && MergeOwn([]) == NEW_CALL;
    forall j | j in next ensures next[j] == MergeOwn(Own(more, j)) {
      EntryNext(ds, d, j);
      if j != i { assert next[j] == merged[j]; }
    }
  }

  lemma HoldsInChunk(merged: map<int, ToolCall>, next: map<int, ToolCall>, ds: seq<Delta>, chunk: seq<Delta>, j: nat)
    requires j < |chunk| && Holds(merged, ds + chunk[..j])
    requires var i := IndexOf(chunk[j]);
      next == merged[i := Extend(if i in merged then merged[i] else NEW_CALL, chunk[j])]
    ensures Holds(next, ds + chunk[..j + 1])
  {
    var before := ds + chunk[..j];
    assert ds + chunk[..j + 1] == before + [chunk[j]];
    HoldsNext(merged, before, chunk[j]);
  }

  method MergeChunk(merged: map<int, ToolCall>, chunk: seq<Delta>, ghost ds: seq<Delta>)
    returns (more: map<int, ToolCall>)
    requires Holds(merged, ds)
    ensures Holds(more, ds + chunk)
  {
    more := merged;
    assert ds + chunk[..0] == ds;
    for j := 0 to |chunk|
      invariant Holds(more, ds + chunk[..j])
    {
      var i := IndexOf(chunk[j]);
      var next := more[i := Extend(if i in more then more[i] else NEW_CALL, chunk[j])];
      HoldsInChunk(more, next, ds, chunk, j);
      more := next;
    }
    assert chunk[..|chunk|] == chunk;
  }

  method MergeStream(chunks: seq<seq<Delta>>) returns (merged: map<int, ToolCall>)
    ensures Holds(merged, Flatten(chunks))
  {
    merged := map[];
    for k := 0 to |chunks|
      invariant Holds(merged, Flatten(chunks[..k]))
    {
      assert chunks[..k + 1] == chunks[..k] + [chunks[k]];
      FlattenAppend(chunks[..k], chunks[k]);
      merged := MergeChunk(merged, chunks[k], Flatten(chunks[..k]));
    }
    assert chunks[..|chunks|] == chunks;
  }

  method MergeToolCalls(calls: Calls) returns (merged: Option<seq<ToolCall>>)
    ensures merged == Merge(calls)
  {
    match calls
    case NoCalls => return None;
    case Whole(cs) => return if cs == [] then None else Some(cs);
    case Streamed(chunks) =>
      if chunks == [] { return None; }
      var byIndex := MergeStream(chunks);
      var order := Ascending(byIndex.Keys);
      var tuple := seq(|order|, k requires 0 <= k < |order| => byIndex[order[k]]);
      assert tuple == Merged(Flatten(chunks));
      return Some(tuple);
  }

  // ---- Text

  /** A whole text or its stream chunks. */
  datatype Text = Str(text: string) | Chunks(parts: seq<string>)

  datatype Output = Output(output: Text, reasoning: Option<Text>, toolCalls: Calls)

  predicate Truthy(t: Text) {
    if t.Str? then t.text != "" else t.parts != []
  }

  function Joined(t: Text): string {
    if t.Str? then t.text else Flatten(t.parts)
  }

  predicate Reasons(o: Output) {
    o.reasoning.Some? && Truthy(o.reasoning.value)
  }

  /** Content, reasoning and tool calls of a message. */
  datatype Parts = Parts(content: string, reasoning: Option<string>, calls: Option<seq<ToolCall>>)

  function MessageParts(o: Output): Parts {
    Parts(Joined(o.output), if Reasons(o) then Some(Joined(o.reasoning.value)) else None, Merge(o.toolCalls))
  }

  /** The tool calls after the first chunk: a pure tool-call stream loses its first chunk. */
  function LaterCalls(o: Output): Calls {
    if o.toolCalls.Streamed? && o.toolCalls.chunks != [] && !Truthy(o.output) && !Reasons(o)
    then Streamed(o.toolCalls.chunks[1..]) else o.toolCalls
  }

  function MessagePartsAfterFirstChunk(o: Output): Parts {
    var reasoningAfter :=
      if o.reasoning.Some? && o.reasoning.value.Chunks? && |o.reasoning.value.parts| > 1
      then Some(Flatten(o.reasoning.value.parts[1..])) else None;
    var contentAfter :=
      if !Truthy(o.output) then ""
      else if o.output.Str? then
        if reasoningAfter.Some? || (Reasons(o) && o.reasoning.value.Chunks?) then o.output.text else ""
      else if reasoningAfter.Some? || Reasons(o) then Flatten(o.output.parts)
      else if |o.output.parts| > 1 then Flatten(o.output.parts[1..])
      else "";
    Parts(contentAfter, reasoningAfter, Merge(LaterCalls(o)))
  }

  function CallText(calls: Option<seq<ToolCall>>, json: seq<ToolCall> -> string): string {
    if calls.Some? && calls.value != [] then json(calls.value) else ""
  }

  function OrEmpty(t: Option<string>): string {
    if t.Some? then t.value else ""
  }

  /** Reasoning, content and encoded tool calls as one text. */
  function AsText(p: Parts, json: seq<ToolCall> -> string): string {
    OrEmpty(p.reasoning) + p.content + CallText(p.calls, json)
  }

  function FirstOf(t: Text): string {
    if t.Str? then t.text else if t.parts == [] then "" else t.parts[0]
  }

  /** The first chunk: of the reasoning if there is any, otherwise of the output. What was
      not streamed at all is a single chunk. */
  function FirstChunk(o: Output): string {
    if !Reasons(o) then FirstOf(o.output)
    else if o.reasoning.value.Str? && o.output.Str? then o.reasoning.value.text + o.output.text
    else FirstOf(o.reasoning.value)
  }

  lemma FirstAndRest(t: seq<string>)
    requires t != []
    ensures Flatten(t) == t[0] + Flatten(t[1..]) && (|t| == 1 ==> Flatten(t) == t[0])
  {
  }

  lemma TextIsFirstPlusAfter(o: Output)
    ensures var whole, rest := MessageParts(o), MessagePartsAfterFirstChunk(o);
      OrEmpty(whole.reasoning) + whole.content == FirstChunk(o) + (OrEmpty(rest.reasoning) + rest.content)
  {
    if Reasons(o) && o.reasoning.value.Chunks? {
      FirstAndRest(o.reasoning.value.parts);
    } else if !Reasons(o) && o.output.Chunks? && Truthy(o.output) {
      FirstAndRest(o.output.parts);
    }
  }

  // ---- When the text after the first chunk is what the first chunk leaves

  /** Fields of a call extended by deltas. */
  function Overlay(c: ToolCall, ds: seq<Delta>): ToolCall {
    if ds == [] then c else Extend(Overlay(c, ds[..|ds| - 1]), ds[|ds| - 1])
  }

  lemma {:induction false} MergeOwnConcat(a: seq<Delta>, b: seq<Delta>)
    ensures MergeOwn(a + b) == Overlay(MergeOwn(a), b)
  {
    if b == [] {
      assert a + b == a;
    } else {
      assert (a + b)[..|a + b| - 1] == a + b[..|b| - 1];
      MergeOwnConcat(a, b[..|b| - 1]);
    }
  }

  lemma {:induction false} OwnConcat(a: seq<Delta>, b: seq<Delta>, i: int)
    ensures Own(a + b, i) == Own(a, i) + Own(b, i)
    ensures Indices(a + b) == Indices(a) + Indices(b)
  {
    if b == [] {
      assert a + b == a;
    } else {
      assert (a + b)[..|a + b| - 1] == a + b[..|b| - 1];
      OwnConcat(a, b[..|b| - 1], i);
    }
  }

  predicate Fills(ds: seq<Delta>, field: Delta -> string) {
    exists k :: 0 <= k < |ds| && field(ds[k]) != ""
  }

  lemma FillsNext(ds: seq<Delta>, field: Delta -> string)
    requires ds != []
    ensures Fills(ds, field) <==> Fills(ds[..|ds| - 1], field) || field(ds[|ds| - 1]) != ""
  {
    var front := ds[..|ds| - 1];
    if k :| 0 <= k < |ds| && field(ds[k]) != "" && k < |front| { assert front[k] == ds[k]; }
    if k :| 0 <= k < |front| && field(front[k]) != "" { assert ds[k] == front[k]; }
  }

  function IdField(): Delta -> string { (d: Delta) => d.id }

  function KindField(): Delta -> string { (d: Delta) => d.kind }

  function NameField(): Delta -> string { (d: Delta) => d.name }

  /** A call none of whose fields shows once the deltas have been added. */
  predicate Unseen(c: ToolCall, ds: seq<Delta>) {
    && c.arguments == ""
    && (c.id == "" || Fills(ds, IdField()))
    && (c.kind == NEW_CALL.kind || Fills(ds, KindField()))
    && (c.name == "" || Fills(ds, NameField()))
  }

  lemma {:induction false} OverlayFields(c: ToolCall, ds: seq<Delta>)
    ensures var r, own := Overlay(c, ds), MergeOwn(ds);
      && r.arguments == c.arguments + own.arguments
      && r.id == (if Fills(ds, IdField()) then own.id else c.id)
      && r.kind == (if Fills(ds, KindField()) then own.kind else c.kind)
      && r.name == (if Fills(ds, NameField()) then own.name else c.name)
    ensures !Fills(ds, IdField()) ==> MergeOwn(ds).id == ""
    ensures !Fills(ds, KindField()) ==> MergeOwn(ds).kind == NEW_CALL.kind
    ensures !Fills(ds, NameField()) ==> MergeOwn(ds).name == ""
  {
    if ds == [] {
      assert c.arguments + "" == c.arguments;
    } else {
      var front := ds[..|ds| - 1];
      OverlayFields(c, front);
      FillsNext(ds, IdField());
      FillsNext(ds, KindField());
      FillsNext(ds, NameField());
      ConcatAssociates(c.arguments, MergeOwn(front).arguments, ds[|ds| - 1].arguments);
    }
  }

  lemma UnseenExactlyWhen(c: ToolCall, ds: seq<Delta>)
    ensures Overlay(c, ds) == MergeOwn(ds) <==> Unseen(c, ds)
  {
    OverlayFields(c, ds);
    var own := MergeOwn(ds);
    assert c.arguments + own.arguments == own.arguments <==> c.arguments == "" by {
      assert |c.arguments + own.arguments| == |c.arguments| + |own.arguments|;
    }
  }

  /** Every call the first chunk begins is continued later, and nothing of it shows. */
  ghost predicate FirstChunkUnseen(first: seq<Delta>, later: seq<Delta>) {
    Indices(first) <= Indices(later)
    && forall i :: i in Indices(first) ==> Unseen(MergeOwn(Own(first, i)), Own(later, i))
  }

  lemma {:induction false} AscendingSize(s: set<int>)
    ensures |Ascending(s)| == |s|
  {
    if s != {} {
      var m := Ascending(s)[0];
      AscendingSize(s - {m});
    }
  }

  lemma SubsetOfSameSize(small: set<int>, big: set<int>)
    requires small <= big && |small| == |big|
    ensures small == big
  {
    SubsetSize(small, big);
    assert big == small + (big - small);
  }

  /** Merging one index with and without the first chunk. */
  lemma OwnWithoutFirstExactlyWhen(first: seq<Delta>, later: seq<Delta>, i: int)
    ensures MergeOwn(Own(first + later, i)) == MergeOwn(Own(later, i))
            <==> Unseen(MergeOwn(Own(first, i)), Own(later, i))
    ensures i !in Indices(first) ==> MergeOwn(Own(first + later, i)) == MergeOwn(Own(later, i))
  {
    OwnConcat(first, later, i);
    MergeOwnConcat(Own(first, i), Own(later, i));
    IndexHasDeltas(first, i);
    UnseenExactlyWhen(MergeOwn(Own(first, i)), Own(later, i));
  }

  lemma SameIndices(first: seq<Delta>, later: seq<Delta>)
    requires Indices(first) <= Indices(later)
    ensures Indices(first + later) == Indices(later)
  {
    OwnConcat(first, later, 0);
  }

  lemma OwnWithoutFirst(first: seq<Delta>, later: seq<Delta>, i: int)
    requires FirstChunkUnseen(first, later)
    ensures MergeOwn(Own(first + later, i)) == MergeOwn(Own(later, i))
  {
    OwnWithoutFirstExactlyWhen(first, later, i);
  }

  lemma SameMerged(a: seq<Delta>, b: seq<Delta>, order: seq<int>)
    requires Ascending(Indices(a)) == order == Ascending(Indices(b))
    requires forall k :: 0 <= k < |order| ==> MergeOwn(Own(a, order[k])) == MergeOwn(Own(b, order[k]))
    ensures Merged(a) == Merged(b)
  {
  }

  lemma MergedWithoutFirst(first: seq<Delta>, later: seq<Delta>)
    requires FirstChunkUnseen(first, later)
    ensures Merged(first + later) == Merged(later)
  {
    SameIndices(first, later);
    var order := Ascending(Indices(later));
    forall k | 0 <= k < |order| {
      OwnWithoutFirst(first, later, order[k]);
    }
    SameMerged(first + later, later, order);
  }

  lemma MergedShowsFirst(first: seq<Delta>, later: seq<Delta>)
    requires Merged(first + later) == Merged(later)
    ensures FirstChunkUnseen(first, later)
  {
    OwnConcat(first, later, 0);
    AscendingSize(Indices(first + later));
    AscendingSize(Indices(later));
    SubsetOfSameSize(Indices(later), Indices(first + later));
    assert Indices(first) <= Indices(later);
    var order := Ascending(Indices(later));
    forall i | i in Indices(first) ensures Unseen(MergeOwn(Own(first, i)), Own(later, i)) {
      assert i in order;
      var k :| 0 <= k < |order| && order[k] == i;
      assert Merged(first + later)[k] == MergeOwn(Own(first + later, i)) && Merged(later)[k] == MergeOwn(Own(later, i));
      OwnWithoutFirstExactlyWhen(first, later, i);
    }
  }

  /** Merging a stream is merging it without its first chunk exactly when that is unseen. */
  lemma MergedExactlyWhen(chunks: seq<seq<Delta>>)
    requires chunks != []
    ensures Merged(Flatten(chunks)) == (if chunks[1..] == [] then [] else Merged(Flatten(chunks[1..])))
            <==> FirstChunkUnseen(chunks[0], Flatten(chunks[1..]))
  {
    var first, later := chunks[0], Flatten(chunks[1..]);
    assert Flatten(chunks) == first + later;
    assert Merged([]) == [];
    if Merged(first + later) == Merged(later) { MergedShowsFirst(first, later); }
    if FirstChunkUnseen(first, later) { MergedWithoutFirst(first, later); }
  }

  /** An encoding as JSON: different lists have different texts, and none is empty. */
  ghost predicate Encodes(json: seq<ToolCall> -> string) {
    (forall a, b :: json(a) == json(b) ==> a == b) && forall a :: json(a) != ""
  }

  lemma SameCallText(a: Option<seq<ToolCall>>, b: Option<seq<ToolCall>>, json: seq<ToolCall> -> string)
    requires Encodes(json)
    ensures CallText(a, json) == CallText(b, json)
            <==> (if a.Some? then a.value else []) == (if b.Some? then b.value else [])
  {
  }

  /** A stream with nothing but tool calls, whose first chunk is one of theirs. */
  predicate PureCalls(o: Output) {
    !Truthy(o.output) && !Reasons(o) && o.toolCalls.Streamed? && o.toolCalls.chunks != []
  }

  /** Whether or not there are calls, as long as the first chunk is not theirs. */
  lemma WholeIsFirstPlusAfter(o: Output, json: seq<ToolCall> -> string)
    requires !PureCalls(o)
    ensures AsText(MessageParts(o), json) == FirstChunk(o) + AsText(MessagePartsAfterFirstChunk(o), json)
  {
    TextIsFirstPlusAfter(o);
    var first, rest := FirstChunk(o), MessagePartsAfterFirstChunk(o);
    var calls := CallText(Merge(o.toolCalls), json);
    assert LaterCalls(o) == o.toolCalls;
    ConcatAssociates(first, OrEmpty(rest.reasoning) + rest.content, calls);
  }

  /** Exactly when the full text is the first text chunk followed by the text after the
      first chunk: always, unless the stream is nothing but tool calls and something of
      its first chunk shows in the merged calls. */
  lemma WholeIsFirstPlusAfterExactlyWhen(o: Output, json: seq<ToolCall> -> string)
    requires Encodes(json)
    ensures AsText(MessageParts(o), json) == FirstChunk(o) + AsText(MessagePartsAfterFirstChunk(o), json)
            <==> !PureCalls(o) || FirstChunkUnseen(o.toolCalls.chunks[0], Flatten(o.toolCalls.chunks[1..]))
  {
    if PureCalls(o) {
      PureCallsText(o, json);
      SameCallText(Merge(o.toolCalls), Merge(LaterCalls(o)), json);
      MergedExactlyWhen(o.toolCalls.chunks);
    } else {
      WholeIsFirstPlusAfter(o, json);
    }
  }

  lemma PureCallsText(o: Output, json: seq<ToolCall> -> string)
    requires PureCalls(o)
    ensures FirstChunk(o) == ""
    ensures AsText(MessageParts(o), json) == CallText(Merge(o.toolCalls), json)
    ensures AsText(MessagePartsAfterFirstChunk(o), json) == CallText(Merge(LaterCalls(o)), json)
  {
    assert forall t: string :: "" + "" + t == t;
  }

  /** Appending a text's pieces appends its joined form. */
  lemma AppendText(parts: seq<string>, t: Text)
    ensures Flatten(parts + Pieces(t)) == Flatten(parts) + Joined(t)
  {
    if t.Str? { FlattenAppend(parts, t.text); } else { FlattenConcat(parts, t.parts); }
  }

  /** A text that is there adds its pieces. */
  method AppendPieces(parts: seq<string>, t: Text) returns (more: seq<string>)
    ensures Flatten(more) == Flatten(parts) + if Truthy(t) then Joined(t) else ""
  {
    more := parts;
    if Truthy(t) {
      AppendText(parts, t);
      more := parts + Pieces(t);
    }
  }

  function Pieces(t: Text): seq<string> {
    if t.Str? then [t.text] else t.parts
  }

  method AppendCalls(parts: seq<string>, calls: Calls, json: seq<ToolCall> -> string) returns (s: string)
    ensures s == Flatten(parts) + CallText(Merge(calls), json)
  {
    var merged := MergeToolCalls(calls);
    if merged.Some? && merged.value != [] {
      FlattenAppend(parts, json(merged.value));
      return Flatten(parts + [json(merged.value)]);
    }
    return Flatten(parts);
  }

  /** The full output as one text. */
  method AsString(o: Output, json: seq<ToolCall> -> string) returns (s: string)
    ensures s == AsText(MessageParts(o), json)
  {
    var parts: seq<string> := [];
    if o.reasoning.Some? { parts := AppendPieces(parts, o.reasoning.value); }
    parts := AppendPieces(parts, o.output);
    s := AppendCalls(parts, o.toolCalls, json);
  }

  /** The pieces of the output after the first chunk, given those of the reasoning. */
  method LaterOutput(o: Output, parts: seq<string>) returns (more: seq<string>)
    requires parts != [] <==> MessagePartsAfterFirstChunk(o).reasoning.Some?
    ensures Flatten(more) == Flatten(parts) + MessagePartsAfterFirstChunk(o).content
  {
    more := parts;
    if Truthy(o.output) {
      match o.output
      case Str(text) =>
        FlattenAppend(parts, text);
        if parts != [] || (Reasons(o) && o.reasoning.value.Chunks?) { more := parts + [text]; }
      case Chunks(chunks) =>
        FlattenConcat(parts, chunks);
        if parts != [] || Reasons(o) {
          more := parts + chunks;
        } else if |chunks| > 1 {
          more := chunks[1..];
        }
    }
  }

  /** The text after the first chunk: it agrees with the message parts after it. */
  method TextAfterFirstChunk(o: Output, json: seq<ToolCall> -> string) returns (s: string)
    ensures s == AsText(MessagePartsAfterFirstChunk(o), json)
  {
    var parts: seq<string> := [];
    if Reasons(o) && o.reasoning.value.Chunks? && |o.reasoning.value.parts| > 1 {
      parts := o.reasoning.value.parts[1..];
    }
    parts := LaterOutput(o, parts);
    s := AppendCalls(parts, LaterCalls(o), json);
  }
}
