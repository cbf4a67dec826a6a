/** Rebuilding the latency series from an event log in one pass, against what the series
    means on the whole trace. A uuid is an identity, `None` where the record has no
    usable one; timestamps are nanoseconds. */
module EventSeries {
  import opened Collections

  type Uuid = nat

  /** What a COMPLETE record carries: model text after its first chunk, a model output
      with tool calls, or anything else. */
  datatype Payload = Text(afterFirst: string) | WithToolCalls | NotModelOutput

  datatype Event =
    | Undecodable
    | StartTracking(ts: int)
    | StopTracking(ts: int)
    | Unrelated
    | Issued(uuid: Option<Uuid>, ts: int)
    | RecvFirst(uuid: Option<Uuid>, ts: int)
    | Complete(uuid: Option<Uuid>, ts: int, data: Payload)

  /** One buffered time-per-token measurement. */
  datatype Measure = Measure(delta: int, text: string)

  /** Nanoseconds per output token, kept as the exact quotient. */
  datatype Rate = Rate(delta: int, tokens: int)

  datatype Row = Row(issued: int, recvFirst: Option<int>)

  datatype Series = Series(ttft: seq<int>, tpot: seq<Rate>, latency: seq<int>)

  predicate Of(e: Event, uuid: Uuid) {
    (e.Issued? || e.RecvFirst? || e.Complete?) && e.uuid == Some(uuid)
  }

  // ---- What the series mean, at position `k` of a trace

  /** Is tracking on just before position `k`? */
  ghost predicate Tracking(log: seq<Event>, k: nat)
    requires k <= |log|
  {
    k > 0 && (log[k - 1].StartTracking? || (!log[k - 1].StopTracking? && Tracking(log, k - 1)))
  }

  ghost predicate InWindowIssue(log: seq<Event>, uuid: Uuid, j: nat)
    requires j < |log|
  {
    log[j].Issued? && Of(log[j], uuid) && Tracking(log, j)
  }

  ghost predicate CompletedBetween(log: seq<Event>, uuid: Uuid, j: nat, k: nat)
    requires k <= |log|
  {
    exists i :: j <= i < k && log[i].Complete? && Of(log[i], uuid)
  }

  /** The latest in-window ISSUED of `uuid` before `k` with no COMPLETE of it since. */
  ghost function OpenIssue(log: seq<Event>, uuid: Uuid, k: nat): Option<nat>
    requires k <= |log|
  {
    if k == 0 || (log[k - 1].Complete? && Of(log[k - 1], uuid)) then None
    else if InWindowIssue(log, uuid, k - 1) then Some(k - 1)
    else OpenIssue(log, uuid, k - 1)
  }

  ghost predicate ChunkOfOpen(log: seq<Event>, uuid: Uuid, j: nat)
    requires j < |log|
  {
    log[j].RecvFirst? && Of(log[j], uuid) && OpenIssue(log, uuid, j).Some?
  }

  /** The latest RECV_FIRST of `uuid` before `k`, with no COMPLETE of it since, that came
      while an issue was open; a repeated ISSUED does not discard it. */
  ghost function FirstChunk(log: seq<Event>, uuid: Uuid, k: nat): Option<nat>
    requires k <= |log|
  {
    if k == 0 || (log[k - 1].Complete? && Of(log[k - 1], uuid)) then None
    else if ChunkOfOpen(log, uuid, k - 1) then Some(k - 1)
    else FirstChunk(log, uuid, k - 1)
  }

  /** `OpenIssue` says exactly what its name promises. */
  lemma {:induction false} OpenIssueExactly(log: seq<Event>, uuid: Uuid, k: nat, j: nat)
    requires j < k <= |log|
    ensures (OpenIssue(log, uuid, k) == Some(j)) <==>
      (InWindowIssue(log, uuid, j) && !CompletedBetween(log, uuid, j, k)
       && forall i :: j < i < k ==> !InWindowIssue(log, uuid, i))
    ensures OpenIssue(log, uuid, k).Some? ==> OpenIssue(log, uuid, k).value < k
  {
    if j == k - 1 {
      OpenIssueBefore(log, uuid, k - 1);
    } else {
      OpenIssueExactly(log, uuid, k - 1, j);
      var last := log[k - 1];
      if last.Complete? && Of(last, uuid) {
        assert CompletedBetween(log, uuid, j, k);
      } else {
        assert CompletedBetween(log, uuid, j, k) <==> CompletedBetween(log, uuid, j, k - 1);
      }
    }
  }

  lemma {:induction false} OpenIssueBefore(log: seq<Event>, uuid: Uuid, k: nat)
    requires k <= |log|
    ensures OpenIssue(log, uuid, k).Some? ==>
      OpenIssue(log, uuid, k).value < k && log[OpenIssue(log, uuid, k).value].Issued?
    ensures FirstChunk(log, uuid, k).Some? ==>
      FirstChunk(log, uuid, k).value < k && log[FirstChunk(log, uuid, k).value].RecvFirst?
  {
    if k > 0 { OpenIssueBefore(log, uuid, k - 1); }
  }

  /** `FirstChunk` likewise. */
  lemma {:induction false} FirstChunkExactly(log: seq<Event>, uuid: Uuid, k: nat, j: nat)
    requires j < k <= |log|
    ensures (FirstChunk(log, uuid, k) == Some(j)) <==>
      (ChunkOfOpen(log, uuid, j) && !CompletedBetween(log, uuid, j, k)
       && forall i :: j < i < k ==> !ChunkOfOpen(log, uuid, i))
  {
    if j == k - 1 {
      OpenIssueBefore(log, uuid, k - 1);
    } else {
      FirstChunkExactly(log, uuid, k - 1, j);
      var last := log[k - 1];
      if last.Complete? && Of(last, uuid) {
        assert CompletedBetween(log, uuid, j, k);
      } else {
        assert CompletedBetween(log, uuid, j, k) <==> CompletedBetween(log, uuid, j, k - 1);
      }
    }
  }

  /** The row a trace defines for `uuid` at position `k`. */
  ghost function RowAt(log: seq<Event>, uuid: Uuid, k: nat): Option<Row>
    requires k <= |log|
  {
    OpenIssueBefore(log, uuid, k);
    match OpenIssue(log, uuid, k)
    case None => None
    case Some(i) =>
      Some(Row(log[i].ts,
               match FirstChunk(log, uuid, k)
               case None => None
               case Some(j) => Some(log[j].ts)))
  }

  /** The row of the sample the event at `k` belongs to, just before that event. */
  ghost function RowBefore(log: seq<Event>, k: nat): Option<Row>
    requires k < |log|
  {
    if HasUuid(log[k]) then RowAt(log, log[k].uuid.value, k) else None
  }

  predicate HasUuid(e: Event) {
    (e.Issued? || e.RecvFirst? || e.Complete?) && e.uuid.Some?
  }

  /** One latency for every COMPLETE with an open issue, from that issue. */
  ghost function Latencies(log: seq<Event>, k: nat): seq<int>
    requires k <= |log|
  {
    if k == 0 then [] else Latencies(log, k - 1) + LatencyOf(RowBefore(log, k - 1), log[k - 1])
  }

  function LatencyOf(row: Option<Row>, e: Event): seq<int> {
    if e.Complete? && row.Some? then [e.ts - row.value.issued] else []
  }

  /** One time to first token for every RECV_FIRST with an open issue. */
  ghost function FirstTokens(log: seq<Event>, k: nat): seq<int>
    requires k <= |log|
  {
    if k == 0 then [] else FirstTokens(log, k - 1) + FirstTokenOf(RowBefore(log, k - 1), log[k - 1])
  }

  function FirstTokenOf(row: Option<Row>, e: Event): seq<int> {
    if e.RecvFirst? && row.Some? then [e.ts - row.value.issued] else []
  }

  predicate Streamed(row: Option<Row>, e: Event) {
    e.Complete? && row.Some? && row.value.recvFirst.Some?
  }

  /** The measurable texts: plain model output with text after its first chunk. */
  ghost function Measures(log: seq<Event>, k: nat): seq<Measure>
    requires k <= |log|
  {
    if k == 0 then [] else Measures(log, k - 1) + MeasureOf(RowBefore(log, k - 1), log[k - 1])
  }

  function MeasureOf(row: Option<Row>, e: Event): seq<Measure> {
    if Streamed(row, e) then MeasureFrom(row.value.recvFirst.value, e) else []
  }

  function MeasureFrom(recv: int, e: Event): seq<Measure>
    requires e.Complete?
  {
    if e.data.Text? && e.data.afterFirst != "" then [Measure(e.ts - recv, e.data.afterFirst)] else []
  }

  /** The streamed samples whose time per token is skipped because they called tools. */
  ghost function ToolCallsIn(log: seq<Event>, k: nat): nat
    requires k <= |log|
  {
    if k == 0 then 0
    else
      ToolCallsIn(log, k - 1)
      + if Streamed(RowBefore(log, k - 1), log[k - 1]) && log[k - 1].data.WithToolCalls? then 1 else 0
  }

  /** Time per output token where the count is positive; the counter looks at one text. */
  function PerToken(measures: seq<Measure>, one: string -> int): seq<Rate> {
    if measures == [] then []
    else
      var m := measures[|measures| - 1];
      PerToken(measures[..|measures| - 1], one) + if one(m.text) > 0 then [Rate(m.delta, one(m.text))] else []
  }

  lemma {:induction false} PerTokenConcat(a: seq<Measure>, b: seq<Measure>, one: string -> int)
    ensures PerToken(a + b, one) == PerToken(a, one) + PerToken(b, one)
    decreases |b|
  {
    if b == [] {
      assert a + b == a;
    } else {
      assert (a + b)[..|a + b| - 1] == a + b[..|b| - 1];
      PerTokenConcat(a, b[..|b| - 1], one);
    }
  }

  /** One rate for every measured text that has tokens, in order: no division is by zero. */
  lemma {:induction false} PerTokenExactly(measures: seq<Measure>, one: string -> int)
    ensures var counted := Selected(measures, (m: Measure) => one(m.text) > 0);
      |PerToken(measures, one)| == |counted|
      && forall k :: 0 <= k < |counted| ==>
           PerToken(measures, one)[k] == Rate(counted[k].delta, one(counted[k].text)) && one(counted[k].text) > 0
  {
    if measures != [] { PerTokenExactly(measures[..|measures| - 1], one); }
  }

  lemma AddNothing(rates: seq<Rate>)
    ensures rates + [] == rates
  {
  }

  lemma PerTokenNext(batch: seq<Measure>, k: nat, one: string -> int)
    requires k < |batch|
    ensures PerToken(batch[..k + 1], one)
      == PerToken(batch[..k], one) + if one(batch[k].text) > 0 then [Rate(batch[k].delta, one(batch[k].text))] else []
  {
    assert batch[..k + 1][..k] == batch[..k];
  }

  lemma MeasuredOnce(recv: int, e: Event)
    requires e.Complete? && e.data.Text? && e.data.afterFirst != ""
    ensures MeasureFrom(recv, e) == [Measure(e.ts - recv, e.data.afterFirst)]
  {
  }

  lemma NotMeasured(recv: int, e: Event, one: string -> int, rates: seq<Rate>)
    requires e.Complete? && !(e.data.Text? && e.data.afterFirst != "")
    ensures rates + PerToken(MeasureFrom(recv, e), one) == rates
  {
    AddNothing(rates);
  }

  // ---- The fold

  /** A batch counter that gives each text the count it would have alone. */
  ghost predicate Pointwise(count: seq<string> -> seq<int>, one: string -> int) {
    forall texts: seq<string> ::
      |count(texts)| == |texts| && forall k :: 0 <= k < |texts| ==> count(texts)[k] == one(texts[k])
  }

  function Texts(batch: seq<Measure>): (texts: seq<string>)
    ensures |texts| == |batch| && forall k :: 0 <= k < |batch| ==> texts[k] == batch[k].text
  {
    seq(|batch|, k requires 0 <= k < |batch| => batch[k].text)
  }

  function Lookup(rows: map<Uuid, Row>, u: Uuid): Option<Row> {
    if u in rows then Some(rows[u]) else None
  }

  function RowOf(rows: map<Uuid, Row>, e: Event): Option<Row> {
    if HasUuid(e) then Lookup(rows, e.uuid.value) else None
  }

  /** The open rows are the rows the trace defines. */
  ghost predicate Agrees(rows: map<Uuid, Row>, log: seq<Event>, k: nat)
    requires k <= |log|
  {
    forall u: Uuid :: Lookup(rows, u) == RowAt(log, u, k)
  }

  /** What one event does to the open rows. */
  function NextRows(rows: map<Uuid, Row>, e: Event, tracking: bool): map<Uuid, Row> {
    match e
    case Issued(Some(u), ts) =>
      if !tracking then rows else rows[u := if u in rows then rows[u].(issued := ts) else Row(ts, None)]
    case RecvFirst(Some(u), ts) => if u in rows then rows[u := rows[u].(recvFirst := Some(ts))] else rows
    case Complete(Some(u), _, _) => rows - {u}
    case _ => rows
  }

  lemma RowsFollow(rows: map<Uuid, Row>, log: seq<Event>, k: nat)
    requires k < |log| && Agrees(rows, log, k)
    ensures Agrees(NextRows(rows, log[k], Tracking(log, k)), log, k + 1)
    ensures RowBefore(log, k) == RowOf(rows, log[k])
  {
    var next := NextRows(rows, log[k], Tracking(log, k));
    forall u: Uuid ensures Lookup(next, u) == RowAt(log, u, k + 1) {
      NoChunkWithoutIssue(log, u, k);
      OpenIssueBefore(log, u, k);
      assert Lookup(rows, u) == RowAt(log, u, k);
    }
  }

  /** The open rows after the first `k` events. */
  ghost function RowsAfter(log: seq<Event>, k: nat): map<Uuid, Row>
    requires k <= |log|
  {
    if k == 0 then map[] else NextRows(RowsAfter(log, k - 1), log[k - 1], Tracking(log, k - 1))
  }

  /** The fold's rows are, at every position, the rows the trace defines. */
  lemma {:induction false} RowsAgree(log: seq<Event>, k: nat)
    requires k <= |log|
    ensures Agrees(RowsAfter(log, k), log, k)
  {
    if k > 0 {
      RowsAgree(log, k - 1);
      RowsFollow(RowsAfter(log, k - 1), log, k - 1);
    }
  }

  lemma {:induction false} NoChunkWithoutIssue(log: seq<Event>, u: Uuid, k: nat)
    requires k <= |log|
    ensures FirstChunk(log, u, k).Some? ==> OpenIssue(log, u, k).Some?
  {
    if k > 0 { NoChunkWithoutIssue(log, u, k - 1); }
  }

  /** Records that cannot be used: undecodable, or a sample event without a uuid. */
  predicate IsMalformed(e: Event) {
    e.Undecodable? || ((e.Issued? || e.RecvFirst? || e.Complete?) && e.uuid.None?)
  }

  ghost function MalformedIn(log: seq<Event>, k: nat): nat
    requires k <= |log|
  {
    if k == 0 then 0 else MalformedIn(log, k - 1) + if IsMalformed(log[k - 1]) then 1 else 0
  }

  /** The rates one event adds, when tokens are counted at all. */
  function RatesOf(counting: bool, row: Option<Row>, e: Event, one: string -> int): seq<Rate> {
    if counting then PerToken(MeasureOf(row, e), one) else []
  }

  ghost function Rates(counting: bool, log: seq<Event>, k: nat, one: string -> int): seq<Rate>
    requires k <= |log|
  {
    if counting then PerToken(Measures(log, k), one) else []
  }

  /** How every series of the trace grows at `k`, told by the open rows. */
  lemma TraceNext(rows: map<Uuid, Row>, log: seq<Event>, k: nat, counting: bool, one: string -> int)
    requires k < |log| && rows == RowsAfter(log, k)
    ensures FirstTokens(log, k + 1) == FirstTokens(log, k) + FirstTokenOf(RowOf(rows, log[k]), log[k])
    ensures Latencies(log, k + 1) == Latencies(log, k) + LatencyOf(RowOf(rows, log[k]), log[k])
    ensures Rates(counting, log, k + 1, one)
      == Rates(counting, log, k, one) + RatesOf(counting, RowOf(rows, log[k]), log[k], one)
    ensures ToolCallsIn(log, k + 1) == ToolCallsIn(log, k)
      + if Streamed(RowOf(rows, log[k]), log[k]) && log[k].data.WithToolCalls? then 1 else 0
  {
    RowsAgree(log, k);
    RowsFollow(rows, log, k);
    PerTokenConcat(Measures(log, k), MeasureOf(RowBefore(log, k), log[k]), one);
  }

  lemma NothingRemoved(rows: map<Uuid, Row>, u: Uuid)
    ensures u !in rows ==> rows - {u} == rows
  {
  }

  /** The rates so far, with those of one more measurement. */
  lemma FlushStep(before: seq<Rate>, batch: seq<Measure>, k: nat, one: string -> int)
    requires k < |batch|
    ensures before + PerToken(batch[..k + 1], one)
      == before + PerToken(batch[..k], one)
       + if one(batch[k].text) > 0 then [Rate(batch[k].delta, one(batch[k].text))] else []
  {
    PerTokenNext(batch, k, one);
    AddNothing(before + PerToken(batch[..k], one));
    if one(batch[k].text) > 0 {
      ConcatAssociates(before, PerToken(batch[..k], one), [Rate(batch[k].delta, one(batch[k].text))]);
    }
  }

  /** The state of the pass: open rows, tracking flag, the series so far, the token batch. */
  class Fold {
    var rows: map<Uuid, Row>
    var tracking: bool
    var ttft: seq<int>
    var latency: seq<int>
    var tpot: seq<Rate>
    var batch: seq<Measure>
    var malformed: nat
    var toolCallsSkipped: nat

    constructor ()
      ensures rows == map[] && !tracking && ttft == latency == [] && tpot == [] && batch == []
      ensures malformed == toolCallsSkipped == 0
    {
      rows, tracking, ttft, latency, tpot, batch := map[], false, [], [], [], [];
      malformed, toolCallsSkipped := 0, 0;
    }

    method Flush(count: seq<string> -> seq<int>, ghost one: string -> int)
      requires Pointwise(count, one)
      modifies this`tpot, this`batch
      ensures tpot == old(tpot) + PerToken(old(batch), one) && batch == []
    {
      var counts := count(Texts(batch));
      assert forall k :: 0 <= k < |batch| ==> counts[k] == one(Texts(batch)[k]);
      for k := 0 to |batch|
        invariant |counts| == |batch| && batch == old(batch)
        invariant tpot == old(tpot) + PerToken(batch[..k], one)
      {
        FlushStep(old(tpot), batch, k, one);
        assert counts[k] == one(batch[k].text);
        if counts[k] > 0 { tpot := tpot + [Rate(batch[k].delta, counts[k])]; }
      }
      assert batch[..|batch|] == batch;
      batch := [];
    }

    /** One more measurement joins the batch; a full batch is flushed. */
    method Buffer(m: Measure, count: seq<string> -> seq<int>, ghost one: string -> int, batchLimit: nat)
      requires Pointwise(count, one)
      modifies this`tpot, this`batch
      ensures tpot + PerToken(batch, one) == old(tpot) + PerToken(old(batch), one) + PerToken([m], one)
    {
      PerTokenConcat(batch, [m], one);
      batch := batch + [m];
      if |batch| >= batchLimit { Flush(count, one); }
    }

    /** A completed streamed sample is measured, unless it called tools. */
    method Measured(recv: int, e: Event, count: seq<string> -> seq<int>, ghost one: string -> int, batchLimit: nat)
      requires e.Complete? && Pointwise(count, one)
      modifies this`tpot, this`batch, this`toolCallsSkipped
      ensures tpot + PerToken(batch, one) == old(tpot) + PerToken(old(batch), one) + PerToken(MeasureFrom(recv, e), one)
      ensures toolCallsSkipped == old(toolCallsSkipped) + if e.data.WithToolCalls? then 1 else 0
    {
      if e.data.WithToolCalls? { toolCallsSkipped := toolCallsSkipped + 1; }
      if e.data.Text? && e.data.afterFirst != "" {
        MeasuredOnce(recv, e);
        Buffer(Measure(e.ts - recv, e.data.afterFirst), count, one, batchLimit);
      } else {
        NotMeasured(recv, e, one, tpot + PerToken(batch, one));
      }
    }

    method OnComplete(u: Uuid, e: Event, count: Option<seq<string> -> seq<int>>, ghost one: string -> int,
                      batchLimit: nat)
      requires e.Complete? && e.uuid == Some(u) && (count.Some? ==> Pointwise(count.value, one))
      modifies this`rows, this`latency, this`tpot, this`batch, this`toolCallsSkipped
      ensures rows == old(rows) - {u}
      ensures latency == old(latency) + LatencyOf(old(Lookup(rows, u)), e)
      ensures tpot + PerToken(batch, one) == old(tpot) + PerToken(old(batch), one)
        + RatesOf(count.Some?, old(Lookup(rows, u)), e, one)
      ensures toolCallsSkipped == old(toolCallsSkipped)
        + if count.Some? && Streamed(old(Lookup(rows, u)), e) && e.data.WithToolCalls? then 1 else 0
    {
      AddNothing(tpot + PerToken(batch, one));
      NothingRemoved(rows, u);
      if u !in rows { return; }
      var row := rows[u];
      rows := rows - {u};
      latency := latency + [e.ts - row.issued];
      if count.Some? && row.recvFirst.Some? {
        Measured(row.recvFirst.value, e, count.value, one, batchLimit);
      }
    }

    /** An event of a sample that has a uuid. */
    method TakeSample(u: Uuid, e: Event, count: Option<seq<string> -> seq<int>>, ghost one: string -> int,
                      batchLimit: nat)
      requires HasUuid(e) && e.uuid == Some(u) && (count.Some? ==> Pointwise(count.value, one))
      modifies this`rows, this`ttft, this`latency, this`tpot, this`batch, this`toolCallsSkipped
      ensures rows == NextRows(old(rows), e, tracking)
      ensures ttft == old(ttft) + FirstTokenOf(RowOf(old(rows), e), e)
      ensures latency == old(latency) + LatencyOf(RowOf(old(rows), e), e)
      ensures tpot + PerToken(batch, one) == old(tpot) + PerToken(old(batch), one)
        + RatesOf(count.Some?, RowOf(old(rows), e), e, one)
      ensures toolCallsSkipped == old(toolCallsSkipped)
        + if count.Some? && Streamed(RowOf(old(rows), e), e) && e.data.WithToolCalls? then 1 else 0
    {
      AddNothing(tpot + PerToken(batch, one));
      if e.Issued? {
        if tracking {
          rows := rows[u := if u in rows then rows[u].(issued := e.ts) else Row(e.ts, None)];
        }
      } else if e.RecvFirst? {
        if u in rows {
          ttft := ttft + [e.ts - rows[u].issued];
          rows := rows[u := rows[u].(recvFirst := Some(e.ts))];
        }
      } else {
        OnComplete(u, e, count, one, batchLimit);
      }
    }

    method Take(e: Event, count: Option<seq<string> -> seq<int>>, ghost one: string -> int, batchLimit: nat)
      requires count.Some? ==> Pointwise(count.value, one)
      modifies this
      ensures rows == NextRows(old(rows), e, old(tracking))
      ensures tracking == (e.StartTracking? || (!e.StopTracking? && old(tracking)))
      ensures ttft == old(ttft) + FirstTokenOf(RowOf(old(rows), e), e)
      ensures latency == old(latency) + LatencyOf(RowOf(old(rows), e), e)
      ensures tpot + PerToken(batch, one) == old(tpot) + PerToken(old(batch), one)
        + RatesOf(count.Some?, RowOf(old(rows), e), e, one)
      ensures malformed == old(malformed) + if IsMalformed(e) then 1 else 0
      ensures toolCallsSkipped == old(toolCallsSkipped)
        + if count.Some? && Streamed(RowOf(old(rows), e), e) && e.data.WithToolCalls? then 1 else 0
    {
      AddNothing(tpot + PerToken(batch, one));
      if e.Undecodable? {
        malformed := malformed + 1;
      } else if e.StartTracking? {
        tracking := true;
      } else if e.StopTracking? {
        tracking := false;
      } else if !e.Unrelated? {
        if e.uuid.None? {
          malformed := malformed + 1;
        } else {
          TakeSample(e.uuid.value, e, count, one, batchLimit);
        }
      }
    }

    /** The state is what the trace says of its first `k` events. */
    ghost predicate Matches(log: seq<Event>, k: nat, counting: bool, one: string -> int)
      reads this
      requires k <= |log|
    {
      && tracking == Tracking(log, k) && rows == RowsAfter(log, k)
      && ttft == FirstTokens(log, k) && latency == Latencies(log, k)
      && tpot + PerToken(batch, one) == Rates(counting, log, k, one)
      && malformed == MalformedIn(log, k)
      && toolCallsSkipped == (if counting then ToolCallsIn(log, k) else 0)
    }

    method Step(ghost log: seq<Event>, ghost k: nat, e: Event,
                count: Option<seq<string> -> seq<int>>, ghost one: string -> int, batchLimit: nat)
      requires count.Some? ==> Pointwise(count.value, one)
      requires k < |log| && e == log[k] && Matches(log, k, count.Some?, one)
      modifies this
      ensures Matches(log, k + 1, count.Some?, one)
    {
      TraceNext(rows, log, k, count.Some?, one);
      Take(e, count, one, batchLimit);
    }
  }

  /** The one-pass rebuild. Its series are the trace's for every batch limit, so batching
      shows nowhere. */
  method ComputeSeries(log: seq<Event>, count: Option<seq<string> -> seq<int>>, ghost one: string -> int,
                       batchLimit: nat)
    returns (series: Series, malformed: nat, toolCallsSkipped: nat)
    requires count.Some? ==> Pointwise(count.value, one)
    ensures series.ttft == FirstTokens(log, |log|) && series.latency == Latencies(log, |log|)
    ensures series.tpot == Rates(count.Some?, log, |log|, one)
    ensures malformed == MalformedIn(log, |log|)
    ensures toolCallsSkipped == if count.Some? then ToolCallsIn(log, |log|) else 0
  {
    var fold := new Fold();
    for k := 0 to |log|
      invariant fresh(fold) && fold.Matches(log, k, count.Some?, one)
    {
      fold.Step(log, k, log[k], count, one, batchLimit);
    }
    if count.Some? { fold.Flush(count.value, one); }
    series := Series(fold.ttft, fold.tpot, fold.latency);
    malformed, toolCallsSkipped := fold.malformed, fold.toolCallsSkipped;
  }
}
