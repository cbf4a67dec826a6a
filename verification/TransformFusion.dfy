/** Fusing consecutive row processors into one pass over a frame. A frame is a set of
    columns and rows of cells; processing a row may raise, which is `None`. */
module TransformFusion {
  import opened Collections

  type Cell = string
  type Row = map<string, Cell>

  datatype Table = Table(columns: set<string>, rows: seq<Row>)

  /** A data frame is rectangular: every row has a cell in every column. */
  type Frame = t: Table | forall row :: row in t.rows ==> row.Keys == t.columns witness Table({}, [])

  /** The row processors (a prompt formatter, the harmonizer, a fused group) and any other
      transform of a whole frame. */
  datatype Transform =
    | Format(output: string, text: Row -> Option<Cell>)
    | Harmonize(prompt: string, token: string, plain: Option<string>,
                encode: Cell -> Option<Cell>, decode: Cell -> Option<Cell>)
    | Fused(processors: seq<Transform>)
    | FrameWide(f: Frame -> Option<Frame>)

  predicate IsRow(t: Transform) {
    !t.FrameWide?
  }

  function ProcessRow(t: Transform, row: Row): Option<Row>
    requires IsRow(t)
    decreases t, 0
  {
    match t
    case Format(output, text) =>
      (match text(row)
       case None => None
       case Some(prompt) => Some(row[output := prompt]))
    case Harmonize(prompt, token, plain, encode, decode) =>
      if prompt !in row then None
      else
        (match encode(row[prompt])
         case None => None
         case Some(tokens) =>
           if plain.None? then Some(row[token := tokens])
           else
             match decode(tokens)
             case None => None
             case Some(text) => Some(row[token := tokens][plain.value := text]))
    case Fused(processors) => ProcessAll(processors, row)
  }

  /** One row through several processors; what is not a row processor never is in a group. */
  function ProcessAll(ts: seq<Transform>, row: Row): Option<Row>
    decreases ts, |ts|
  {
    if ts == [] then Some(row)
    else if !IsRow(ts[0]) then None
    else
      match ProcessRow(ts[0], row)
      case None => None
      case Some(next) => ProcessAll(ts[1..], next)
  }

  /** A formatter puts the text it makes of the row into its column. */
  lemma FormatsExactly(t: Transform, row: Row)
    requires t.Format?
    ensures ProcessRow(t, row).Some? <==> t.text(row).Some?
    ensures ProcessRow(t, row).Some? ==>
      var out := ProcessRow(t, row).value;
      && t.output in out && Some(out[t.output]) == t.text(row)
      && forall c :: c in row && c != t.output ==> c in out && out[c] == row[c]
  {
  }

  /** A harmonizer puts the encoded prompt into its token column and, where it has one, the
      decoded tokens into its text column; every other cell stays. */
  lemma HarmonizesExactly(t: Transform, row: Row)
    requires t.Harmonize?
    ensures ProcessRow(t, row).Some? <==>
      t.prompt in row && t.encode(row[t.prompt]).Some?
      && (t.plain.Some? ==> t.decode(t.encode(row[t.prompt]).value).Some?)
    ensures ProcessRow(t, row).Some? ==>
      var out, tokens := ProcessRow(t, row).value, t.encode(row[t.prompt]).value;
      && (t.plain.Some? ==> t.plain.value in out && Some(out[t.plain.value]) == t.decode(tokens))
      && (t.plain != Some(t.token) ==> t.token in out && out[t.token] == tokens)
      && forall c :: c in row && c != t.token && Some(c) != t.plain ==> c in out && out[c] == row[c]
  {
  }

  function MapRows(ts: seq<Transform>, rows: seq<Row>): Option<seq<Row>> {
    if rows == [] then Some([])
    else
      match ProcessAll(ts, rows[0])
      case None => None
      case Some(first) =>
        match MapRows(ts, rows[1..])
        case None => None
        case Some(rest) => Some([first] + rest)
  }

  /** The columns a processor writes. */
  function Adds(t: Transform): set<string>
    requires IsRow(t)
    decreases t, 0
  {
    match t
    case Format(output, _) => {output}
    case Harmonize(_, token, plain, _, _) => if plain.None? then {token} else {token, plain.value}
    case Fused(processors) => AddsAll(processors)
  }

  function AddsAll(ts: seq<Transform>): set<string>
    decreases ts, |ts|
  {
    if ts == [] || !IsRow(ts[0]) then {} else Adds(ts[0]) + AddsAll(ts[1..])
  }

  lemma {:induction false} ProcessAdds(t: Transform, row: Row)
    requires IsRow(t)
    ensures ProcessRow(t, row).Some? ==> ProcessRow(t, row).value.Keys == row.Keys + Adds(t)
    decreases t, 0
  {
    if t.Fused? { ProcessAllAdds(t.processors, row); }
  }

  lemma {:induction false} ProcessAllAdds(ts: seq<Transform>, row: Row)
    ensures ProcessAll(ts, row).Some? ==> ProcessAll(ts, row).value.Keys == row.Keys + AddsAll(ts)
    decreases ts, |ts|
  {
    if ts != [] && IsRow(ts[0]) {
      ProcessAdds(ts[0], row);
      var next := ProcessRow(ts[0], row);
      if next.Some? { ProcessAllAdds(ts[1..], next.value); }
    }
  }

  /** Processing keeps rows in step: as many, each with the new columns, so no pass leaves a
      ragged frame. */
  lemma {:induction false} MapRowsAdds(ts: seq<Transform>, rows: seq<Row>, columns: set<string>)
    requires forall row :: row in rows ==> row.Keys == columns
    ensures var r := MapRows(ts, rows);
      r.Some? ==> |r.value| == |rows| && forall row :: row in r.value ==> row.Keys == columns + AddsAll(ts)
  {
    if rows != [] {
      ProcessAllAdds(ts, rows[0]);
      MapRowsAdds(ts, rows[1..], columns);
    }
  }

  /** A pass over the rows; a frame without rows or columns comes back as it is. */
  function Pass(ts: seq<Transform>, df: Frame): Option<Frame> {
    if df.rows == [] || df.columns == {} then Some(df)
    else
      MapRowsAdds(ts, df.rows, df.columns);
      match MapRows(ts, df.rows)
      case None => None
      case Some(rows) => Some(Table(df.columns + AddsAll(ts), rows))
  }

  /** Calling a transform. The harmonizer alone leaves a frame that has its token column. */
  function Call(t: Transform, df: Frame): Option<Frame> {
    match t
    case Format(_, _) => Pass([t], df)
    case Harmonize(_, token, _, _, _) => if token in df.columns then Some(df) else Pass([t], df)
    case Fused(processors) => Pass(processors, df)
    case FrameWide(f) => f(df)
  }

  function CallAll(ts: seq<Transform>, df: Frame): Option<Frame> {
    if ts == [] then Some(df)
    else
      match Call(ts[0], df)
      case None => None
      case Some(next) => CallAll(ts[1..], next)
  }

  // ---- Fusing

  /** A pending run of row processors: one stays itself, several become one. */
  function Flush(pending: seq<Transform>): seq<Transform> {
    if |pending| <= 1 then pending else [Fused(pending)]
  }

  function FuseFrom(pending: seq<Transform>, ts: seq<Transform>): seq<Transform>
    decreases |ts|
  {
    if ts == [] then Flush(pending)
    else if IsRow(ts[0]) then FuseFrom(pending + [ts[0]], ts[1..])
    else Flush(pending) + [ts[0]] + FuseFrom([], ts[1..])
  }

  /** Would calling `t` here take the harmonizer's early exit where a pass would not? */
  predicate GuardActs(t: Transform, df: Frame) {
    t.Harmonize? && t.token in df.columns && df.rows != []
  }

  /** Along the unfused run no harmonizer's guard acts. */
  predicate Idle(ts: seq<Transform>, df: Frame) {
    ts == [] ||
      (!GuardActs(ts[0], df)
       && match Call(ts[0], df)
          case None => true
          case Some(next) => Idle(ts[1..], next))
  }

  /** Along the unfused run no harmonizer's guard acts inside a run of two or more row
      processors, given that `pending` processors run just before. */
  predicate GroupsIdle(pending: nat, ts: seq<Transform>, df: Frame)
    decreases |ts|
  {
    if ts == [] then true
    else
      var grouped := IsRow(ts[0]) && (pending > 0 || (|ts| > 1 && IsRow(ts[1])));
      (grouped ==> !GuardActs(ts[0], df))
      && match Call(ts[0], df)
         case None => true
         case Some(next) => GroupsIdle(if IsRow(ts[0]) then pending + 1 else 0, ts[1..], next)
  }

  // ---- Why a fused pass means the same

  lemma {:induction false} ProcessAllConcat(a: seq<Transform>, b: seq<Transform>, row: Row)
    requires forall t :: t in a ==> IsRow(t)
    ensures ProcessAll(a + b, row) == match ProcessAll(a, row) case None => None case Some(next) => ProcessAll(b, next)
  {
    if a == [] {
      assert a + b == b;
    } else {
      assert (a + b)[1..] == a[1..] + b;
      var next := ProcessRow(a[0], row);
      if next.Some? { ProcessAllConcat(a[1..], b, next.value); }
    }
  }

  lemma {:induction false} AddsAllConcat(a: seq<Transform>, b: seq<Transform>)
    requires forall t :: t in a ==> IsRow(t)
    ensures AddsAll(a + b) == AddsAll(a) + AddsAll(b)
  {
    if a == [] {
      assert a + b == b;
    } else {
      assert (a + b)[1..] == a[1..] + b;
      AddsAllConcat(a[1..], b);
    }
  }

  lemma {:induction false} MapRowsConcat(a: seq<Transform>, b: seq<Transform>, rows: seq<Row>)
    requires forall t :: t in a ==> IsRow(t)
    ensures MapRows(a + b, rows) == match MapRows(a, rows) case None => None case Some(next) => MapRows(b, next)
  {
    if rows != [] {
      ProcessAllConcat(a, b, rows[0]);
      MapRowsConcat(a, b, rows[1..]);
      var first, rest := ProcessAll(a, rows[0]), MapRows(a, rows[1..]);
      if first.Some? && rest.Some? { assert ([first.value] + rest.value)[1..] == rest.value; }
    }
  }

  lemma PassConcat(a: seq<Transform>, b: seq<Transform>, df: Frame)
    requires forall t :: t in a ==> IsRow(t)
    ensures Pass(a + b, df) == match Pass(a, df) case None => None case Some(next) => Pass(b, next)
  {
    if df.rows != [] && df.columns != {} {
      MapRowsConcat(a, b, df.rows);
      AddsAllConcat(a, b);
      MapRowsAdds(a, df.rows, df.columns);
      assert df.columns + AddsAll(a + b) == (df.columns + AddsAll(a)) + AddsAll(b);
    }
  }

  lemma {:induction false} MapRowsSame(a: seq<Transform>, b: seq<Transform>, rows: seq<Row>)
    requires forall row :: ProcessAll(a, row) == ProcessAll(b, row)
    ensures MapRows(a, rows) == MapRows(b, rows)
  {
    if rows != [] { MapRowsSame(a, b, rows[1..]); }
  }

  /** Without its guard, calling a row processor is a pass of it alone. */
  lemma CallIsPass(t: Transform, df: Frame)
    requires IsRow(t) && !GuardActs(t, df)
    ensures Call(t, df) == Pass([t], df)
  {
    if t.Fused? {
      forall row ensures ProcessAll([t], row) == ProcessAll(t.processors, row) {
        assert [t][1..] == [];
      }
      MapRowsSame([t], t.processors, df.rows);
      assert [t][1..] == [] && AddsAll([t]) == Adds(t) + AddsAll([t][1..]);
    }
  }

  lemma {:induction false} NoPass(rows: seq<Row>)
    ensures MapRows([], rows) == Some(rows)
  {
    if rows != [] {
      NoPass(rows[1..]);
      assert [rows[0]] + rows[1..] == rows;
    }
  }

  /** A run of row processors whose guards stay idle is one pass. */
  lemma {:induction false} IdleGroupIsPass(ts: seq<Transform>, df: Frame)
    requires (forall t :: t in ts ==> IsRow(t)) && Idle(ts, df)
    ensures CallAll(ts, df) == Pass(ts, df)
  {
    if ts == [] {
      NoPass(df.rows);
    } else {
      CallIsPass(ts[0], df);
      assert ts == [ts[0]] + ts[1..];
      PassConcat([ts[0]], ts[1..], df);
      var next := Call(ts[0], df);
      if next.Some? { IdleGroupIsPass(ts[1..], next.value); }
    }
  }

  lemma {:induction false} CallAllConcat(a: seq<Transform>, b: seq<Transform>, df: Frame)
    ensures CallAll(a + b, df) == match CallAll(a, df) case None => None case Some(next) => CallAll(b, next)
  {
    if a == [] {
      assert a + b == b;
    } else {
      assert (a + b)[1..] == a[1..] + b;
      var next := Call(a[0], df);
      if next.Some? { CallAllConcat(a[1..], b, next.value); }
    }
  }

  lemma {:induction false} IdleAppend(a: seq<Transform>, t: Transform, df: Frame)
    requires Idle(a, df) && (CallAll(a, df).Some? ==> !GuardActs(t, CallAll(a, df).value))
    ensures Idle(a + [t], df)
  {
    if a != [] {
      assert (a + [t])[1..] == a[1..] + [t];
      var next := Call(a[0], df);
      if next.Some? { IdleAppend(a[1..], t, next.value); }
    }
  }

  lemma FlushMeans(pending: seq<Transform>, df: Frame)
    requires (forall t :: t in pending ==> IsRow(t)) && (|pending| > 1 ==> Idle(pending, df))
    ensures CallAll(Flush(pending), df) == CallAll(pending, df)
  {
    if |pending| > 1 {
      IdleGroupIsPass(pending, df);
      assert [Fused(pending)][1..] == [];
    }
  }

  lemma {:induction false} FuseFromMeans(pending: seq<Transform>, ts: seq<Transform>, df: Frame)
    requires forall t :: t in pending ==> IsRow(t)
    requires |pending| > 1 || (|pending| == 1 && ts != [] && IsRow(ts[0])) ==> Idle(pending, df)
    requires CallAll(pending, df).Some? ==> GroupsIdle(|pending|, ts, CallAll(pending, df).value)
    ensures CallAll(FuseFrom(pending, ts), df) == CallAll(pending + ts, df)
    decreases |ts|
  {
    if ts == [] {
      FlushMeans(pending, df);
      assert pending + ts == pending;
    } else if IsRow(ts[0]) {
      var longer := pending + [ts[0]];
      assert longer + ts[1..] == pending + ts;
      CallAllConcat(pending, [ts[0]], df);
      assert [ts[0]][1..] == [];
      if pending == [] {
        assert longer == [ts[0]];
      } else {
        IdleAppend(pending, ts[0], df);
      }
      FuseFromMeans(longer, ts[1..], df);
    } else {
      FlushMeans(pending, df);
      var rest := FuseFrom([], ts[1..]);
      assert Flush(pending) + [ts[0]] + rest == Flush(pending) + ([ts[0]] + rest);
      CallAllConcat(Flush(pending), [ts[0]] + rest, df);
      CallAllConcat(pending, ts, df);
      assert ([ts[0]] + rest)[1..] == rest;
      var mid := CallAll(pending, df);
      if mid.Some? {
        var next := Call(ts[0], mid.value);
        if next.Some? {
          assert [] + ts[1..] == ts[1..];
          FuseFromMeans([], ts[1..], next.value);
        }
      }
    }
  }

  /** Fusing preserves meaning, failures included, for every list of transforms and every
      frame on which no harmonizer inside a group finds its token column present. */
  lemma FusionPreservesMeaning(ts: seq<Transform>, df: Frame)
    requires GroupsIdle(0, ts, df)
    ensures CallAll(FuseFrom([], ts), df) == CallAll(ts, df)
  {
    FuseFromMeans([], ts, df);
    assert [] + ts == ts;
  }

  // ---- When a guard would have acted

  /** A pass fails exactly when a row does, and otherwise processes row by row. */
  lemma {:induction false} MapRowsAt(ts: seq<Transform>, rows: seq<Row>)
    ensures MapRows(ts, rows).None? <==> exists k :: 0 <= k < |rows| && ProcessAll(ts, rows[k]).None?
    ensures MapRows(ts, rows).Some? ==> |MapRows(ts, rows).value| == |rows|
    ensures MapRows(ts, rows).Some? ==>
      forall k :: 0 <= k < |rows| ==> ProcessAll(ts, rows[k]) == Some(MapRows(ts, rows).value[k])
  {
    if rows != [] {
      var rest := rows[1..];
      MapRowsAt(ts, rest);
      assert rows == [rows[0]] + rest;
      assert forall k :: 0 <= k < |rest| ==> rows[k + 1] == rest[k];
    }
  }

  /** Two lists of processors do the same to every row. */
  ghost predicate AgreeOn(a: seq<Transform>, b: seq<Transform>, rows: seq<Row>) {
    forall row :: row in rows ==> ProcessAll(a, row) == ProcessAll(b, row)
  }

  ghost predicate FailsOn(ts: seq<Transform>, rows: seq<Row>) {
    exists row :: row in rows && ProcessAll(ts, row).None?
  }

  lemma MapRowsFails(ts: seq<Transform>, rows: seq<Row>)
    ensures MapRows(ts, rows).None? <==> FailsOn(ts, rows)
  {
    MapRowsAt(ts, rows);
    if k :| 0 <= k < |rows| && ProcessAll(ts, rows[k]).None? { assert rows[k] in rows; }
  }

  lemma MapRowsEqualExactlyWhen(a: seq<Transform>, b: seq<Transform>, rows: seq<Row>)
    ensures MapRows(a, rows) == MapRows(b, rows) <==> AgreeOn(a, b, rows) || (FailsOn(a, rows) && FailsOn(b, rows))
  {
    MapRowsFails(a, rows);
    MapRowsFails(b, rows);
    if AgreeOn(a, b, rows) { MapRowsAgree(a, b, rows); }
    if MapRows(a, rows) == MapRows(b, rows) && MapRows(a, rows).Some? {
      MapRowsAt(a, rows);
      MapRowsAt(b, rows);
      assert AgreeOn(a, b, rows);
    }
  }

  lemma {:induction false} MapRowsAgree(a: seq<Transform>, b: seq<Transform>, rows: seq<Row>)
    requires AgreeOn(a, b, rows)
    ensures MapRows(a, rows) == MapRows(b, rows)
  {
    if rows != [] {
      assert rows[0] in rows && forall row :: row in rows[1..] ==> row in rows;
      MapRowsAgree(a, b, rows[1..]);
    }
  }

  lemma PassEqualExactlyWhen(a: seq<Transform>, b: seq<Transform>, df: Frame)
    requires df.rows != [] && df.columns != {}
    ensures Pass(a, df) == Pass(b, df)
            <==> AgreeOn(a, b, df.rows) || (FailsOn(a, df.rows) && FailsOn(b, df.rows))
  {
    MapRowsEqualExactlyWhen(a, b, df.rows);
    MapRowsAdds(a, df.rows, df.columns);
    MapRowsAdds(b, df.rows, df.columns);
    if MapRows(a, df.rows) == MapRows(b, df.rows) && MapRows(a, df.rows).Some? {
      var first := MapRows(a, df.rows).value[0];
      assert first in MapRows(a, df.rows).value;
      assert df.columns + AddsAll(a) == first.Keys == df.columns + AddsAll(b);
    }
  }

  lemma {:induction false} FuseRows(pending: seq<Transform>, ts: seq<Transform>)
    requires forall t :: t in ts ==> IsRow(t)
    ensures FuseFrom(pending, ts) == Flush(pending + ts)
    decreases |ts|
  {
    if ts == [] {
      assert pending + ts == pending;
    } else {
      FuseRows(pending + [ts[0]], ts[1..]);
      assert (pending + [ts[0]]) + ts[1..] == pending + ts;
    }
  }

  lemma PartsAreRows(a: seq<Transform>, b: seq<Transform>)
    requires forall t :: t in a + b ==> IsRow(t)
    ensures (forall t :: t in a ==> IsRow(t)) && forall t :: t in b ==> IsRow(t)
  {
    forall t | t in a ensures IsRow(t) { assert t in a + b; }
    forall t | t in b ensures IsRow(t) { assert t in a + b; }
  }

  /** What is left of a group when every harmonizer steps aside that meets its token column,
      either among the frame's columns or among those written before it. */
  function Surviving(ts: seq<Transform>, columns: set<string>): seq<Transform> {
    if ts == [] then []
    else if ts[0].Harmonize? && ts[0].token in columns then Surviving(ts[1..], columns)
    else [ts[0]] + Surviving(ts[1..], if IsRow(ts[0]) then columns + Adds(ts[0]) else columns)
  }

  /** On a frame without rows or columns row processors do nothing. */
  lemma {:induction false} NothingToProcess(ts: seq<Transform>, df: Frame)
    requires (forall t :: t in ts ==> IsRow(t)) && (df.rows == [] || df.columns == {})
    ensures CallAll(ts, df) == Some(df)
  {
    if ts != [] {
      assert ts[0] in ts && Call(ts[0], df) == Some(df);
      NothingToProcess(ts[1..], df);
    }
  }

  /** A processor that is not skipped, then a pass of others. */
  lemma PassThenOthers(t: Transform, others: seq<Transform>, df: Frame)
    requires IsRow(t) && !GuardActs(t, df) && df.rows != [] && df.columns != {}
    ensures Pass([t] + others, df) == match Call(t, df) case None => None case Some(next) => Pass(others, next)
    ensures Call(t, df).Some? ==> Call(t, df).value.columns == df.columns + Adds(t)
  {
    CallIsPass(t, df);
    PassConcat([t], others, df);
    assert AddsAll([t]) == Adds(t) + AddsAll([t][1..]);
  }

  /** Called one by one, row processors are one pass of those that survive. */
  lemma {:induction false} GroupIsSurvivingPass(ts: seq<Transform>, df: Frame)
    requires forall t :: t in ts ==> IsRow(t)
    ensures CallAll(ts, df) == Pass(Surviving(ts, df.columns), df)
  {
    if df.rows == [] || df.columns == {} {
      NothingToProcess(ts, df);
    } else if ts == [] {
      NoPass(df.rows);
    } else if GuardActs(ts[0], df) {
      GroupIsSurvivingPass(ts[1..], df);
    } else {
      var left := Surviving(ts[1..], df.columns + Adds(ts[0]));
      PassThenOthers(ts[0], left, df);
      var next := Call(ts[0], df);
      if next.Some? { GroupIsSurvivingPass(ts[1..], next.value); }
    }
  }

  /** Whatever guards act in a group, and however many: fusing it changes nothing exactly
      when the whole group makes of every row what those make of it that survive, or each
      of the two fails on some row, or there is no column and so nothing to do. */
  lemma FusedGroupHarmlessExactlyWhen(ts: seq<Transform>, df: Frame)
    requires |ts| > 1 && forall t :: t in ts ==> IsRow(t)
    ensures var left := Surviving(ts, df.columns);
      CallAll(FuseFrom([], ts), df) == CallAll(ts, df)
      <==> df.columns == {} || AgreeOn(ts, left, df.rows) || (FailsOn(ts, df.rows) && FailsOn(left, df.rows))
  {
    var left := Surviving(ts, df.columns);
    assert [] + ts == ts && [Fused(ts)][1..] == [];
    FuseRows([], ts);
    GroupIsSurvivingPass(ts, df);
    if df.rows != [] && df.columns != {} { PassEqualExactlyWhen(ts, left, df); }
  }

  /** Fused, a group is one pass, whatever guards its processors have. */
  lemma FusedGroupIsPass(all: seq<Transform>, group: seq<Transform>, tail: seq<Transform>, df: Frame, mid: Frame)
    requires all == group + tail && |all| > 1 && forall t :: t in all ==> IsRow(t)
    requires Idle(group, df) && CallAll(group, df) == Some(mid)
    ensures CallAll(FuseFrom([], all), df) == Pass(tail, mid)
  {
    PartsAreRows(group, tail);
    assert [] + all == all && [Fused(all)][1..] == [];
    FuseRows([], all);
    PassConcat(group, tail, df);
    IdleGroupIsPass(group, df);
  }

  /** Called one by one, a harmonizer that meets its token column is skipped. */
  lemma GuardSkips(all: seq<Transform>, group: seq<Transform>, h: Transform, rest: seq<Transform>,
                   df: Frame, mid: Frame)
    requires all == group + ([h] + rest) && forall t :: t in all ==> IsRow(t)
    requires CallAll(group, df) == Some(mid) && GuardActs(h, mid) && Idle(rest, mid)
    ensures CallAll(all, df) == Pass(rest, mid)
  {
    PartsAreRows(group, [h] + rest);
    PartsAreRows([h], rest);
    assert ([h] + rest)[1..] == rest;
    CallAllConcat(group, [h] + rest, df);
    GroupIsSurvivingPass([h] + rest, mid);
    GroupIsSurvivingPass(rest, mid);
    IdleGroupIsPass(rest, mid);
  }

  /** The same for a group in which one guard acts, seen from the frame it meets: the fused
      run agrees with the unfused one exactly when the processors after it make the same
      of every row harmonized again as of the row itself, or fail on some row either way. */
  lemma BypassedGuardHarmlessExactlyWhen(all: seq<Transform>, group: seq<Transform>, h: Transform,
                                         rest: seq<Transform>, df: Frame, mid: Frame)
    requires all == group + ([h] + rest) && |all| > 1 && forall t :: t in all ==> IsRow(t)
    requires Idle(group, df) && CallAll(group, df) == Some(mid) && GuardActs(h, mid) && Idle(rest, mid)
    ensures CallAll(FuseFrom([], all), df) == CallAll(all, df)
      <==> AgreeOn([h] + rest, rest, mid.rows) || (FailsOn([h] + rest, mid.rows) && FailsOn(rest, mid.rows))
  {
    FusedGroupIsPass(all, group, [h] + rest, df, mid);
    GuardSkips(all, group, h, rest, df, mid);
    PassEqualExactlyWhen([h] + rest, rest, mid);
  }

  /** Where the harmonizer is the last of its group: when harmonizing again changes no row. */
  lemma LastGuardHarmlessExactlyWhen(group: seq<Transform>, h: Transform, df: Frame, mid: Frame)
    requires group != [] && forall t :: t in group + [h] ==> IsRow(t)
    requires Idle(group, df) && CallAll(group, df) == Some(mid) && GuardActs(h, mid)
    ensures CallAll(FuseFrom([], group + [h]), df) == CallAll(group + [h], df)
      <==> forall row :: row in mid.rows ==> ProcessRow(h, row) == Some(row)
  {
    assert [h] + [] == [h] && [h][1..] == [];
    BypassedGuardHarmlessExactlyWhen(group + [h], group, h, [], df, mid);
    forall row ensures ProcessAll([h], row) == ProcessRow(h, row) && ProcessAll([], row) == Some(row) {}
  }

  const GREETING := Format("prompt", row => Some("hello"))
  const TOKENIZER := Harmonize("prompt", "tokens", None, cell => Some("made"), cell => None)
  const TOKENIZED: Row := map["prompt" := "hello", "tokens" := "given"]

  /** A pre-tokenized dataset keeps its tokens without fusing and loses them with it. */
  lemma FusionOverwritesTokens()
    ensures var ts, df: Frame := [GREETING, TOKENIZER], Table({"prompt", "tokens"}, [TOKENIZED]);
      CallAll(FuseFrom([], ts), df) != CallAll(ts, df)
  {
    var df: Frame := Table({"prompt", "tokens"}, [TOKENIZED]);
    FormatKeeps(GREETING, TOKENIZED, df);
    assert TOKENIZED["tokens" := "made"]["tokens"] != TOKENIZED["tokens"];
    assert ProcessRow(TOKENIZER, TOKENIZED) != Some(TOKENIZED);
    assert TOKENIZED in df.rows;
    assert [GREETING] + [TOKENIZER] == [GREETING, TOKENIZER];
    LastGuardHarmlessExactlyWhen([GREETING], TOKENIZER, df, df);
  }

  lemma OneRow(t: Transform, row: Row)
    requires IsRow(t)
    ensures MapRows([t], [row]) == match ProcessRow(t, row) case None => None case Some(next) => Some([next])
  {
    var none: seq<Row> := [];
    assert [t][1..] == [] && [row][1..] == none;
    assert MapRows([t], none) == Some(none);
    assert ProcessAll([t], row) == ProcessRow(t, row);
    assert forall next: Row :: [next] + none == [next];
  }

  lemma FormatKeeps(f: Transform, row: Row, df: Frame)
    requires f.Format? && f.output in row && f.text(row) == Some(row[f.output])
    requires df.rows == [row] && df.columns == row.Keys
    ensures CallAll([f], df) == Some(df) && Idle([f], df)
  {
    OneRow(f, row);
    assert row[f.output := row[f.output]] == row;
    assert [f][1..] == [] && AddsAll([f]) == {f.output};
    assert df.columns + {f.output} == df.columns;
  }

  // ---- The loop that builds the groups

  method FuseGroups(transforms: seq<Transform>) returns (ts: seq<Transform>)
    ensures ts == FuseFrom([], transforms)
  {
    ts := [];
    var pending: seq<Transform> := [];
    for k := 0 to |transforms|
      invariant ts + FuseFrom(pending, transforms[k..]) == FuseFrom([], transforms)
    {
      var t := transforms[k];
      assert transforms[k..][0] == t && transforms[k..][1..] == transforms[k + 1..];
      if IsRow(t) {
        pending := pending + [t];
      } else {
        if pending != [] { ts := ts + [CreateFused(pending)]; }
        ts, pending := ts + [t], [];
      }
    }
    if pending != [] { ts := ts + [CreateFused(pending)]; }
  }

  /** The processors and other transforms of a list, those of a fused group one by one. */
  function Unfused(ts: seq<Transform>): seq<Transform> {
    if ts == [] then []
    else (if ts[0].Fused? then ts[0].processors else [ts[0]]) + Unfused(ts[1..])
  }

  lemma {:induction false} UnfusedConcat(a: seq<Transform>, b: seq<Transform>)
    ensures Unfused(a + b) == Unfused(a) + Unfused(b)
  {
    if a == [] {
      assert a + b == b;
    } else {
      assert (a + b)[1..] == a[1..] + b;
      UnfusedConcat(a[1..], b);
      ConcatAssociates(if a[0].Fused? then a[0].processors else [a[0]], Unfused(a[1..]), Unfused(b));
    }
  }

  lemma {:induction false} NothingFused(ts: seq<Transform>)
    requires forall t :: t in ts ==> !t.Fused?
    ensures Unfused(ts) == ts
  {
    if ts != [] {
      NothingFused(ts[1..]);
      assert ts == [ts[0]] + ts[1..];
    }
  }

  /** Between any two row processors or groups stands another transform, and a group has at
      least two processors. */
  ghost predicate Maximal(ts: seq<Transform>) {
    && (forall k :: 0 < k < |ts| ==> !(IsRow(ts[k - 1]) && IsRow(ts[k])))
    && (forall k :: 0 <= k < |ts| && ts[k].Fused? ==> |ts[k].processors| >= 2)
  }

  lemma FlushedPart(pending: seq<Transform>)
    requires forall t :: t in pending ==> IsRow(t) && !t.Fused?
    ensures Maximal(Flush(pending)) && |Flush(pending)| <= 1 && Unfused(Flush(pending)) == pending
    ensures forall t :: t in Flush(pending) ==> IsRow(t)
  {
    if |pending| > 1 {
      assert [Fused(pending)][1..] == [] && pending + [] == pending;
    } else {
      NothingFused(pending);
    }
  }

  lemma MaximalAround(group: seq<Transform>, t: Transform, rest: seq<Transform>)
    requires Maximal(group) && Maximal(rest) && t.FrameWide?
    ensures Maximal(group + [t] + rest)
  {
    var all := group + [t] + rest;
    forall k | 0 < k < |all| ensures !(IsRow(all[k - 1]) && IsRow(all[k])) {
      if k > |group| + 1 { assert all[k - 1] == rest[k - |group| - 2] && all[k] == rest[k - |group| - 1]; }
    }
  }

  lemma UnfusedAround(group: seq<Transform>, t: Transform, rest: seq<Transform>)
    requires !t.Fused?
    ensures Unfused(group + [t] + rest) == Unfused(group) + [t] + Unfused(rest)
  {
    UnfusedConcat(group + [t], rest);
    UnfusedConcat(group, [t]);
    NothingFused([t]);
  }

  lemma FirstOfRest<T>(a: seq<T>, s: seq<T>)
    requires s != []
    ensures a + [s[0]] + ([] + s[1..]) == a + s
  {
  }

  lemma AroundFrame(pending: seq<Transform>, ts: seq<Transform>, rest: seq<Transform>)
    requires (forall t :: t in pending ==> IsRow(t) && !t.Fused?) && ts != [] && ts[0].FrameWide?
    requires Maximal(rest) && Unfused(rest) == [] + ts[1..]
    ensures var all := Flush(pending) + [ts[0]] + rest; Maximal(all) && Unfused(all) == pending + ts
  {
    FlushedPart(pending);
    MaximalAround(Flush(pending), ts[0], rest);
    UnfusedAround(Flush(pending), ts[0], rest);
    FirstOfRest(pending, ts);
  }

  /** Every maximal run of two or more row processors becomes one group of just these, and
      everything else stays where it is. */
  lemma {:induction false} FusesMaximalRuns(pending: seq<Transform>, ts: seq<Transform>)
    requires forall t :: t in pending ==> IsRow(t) && !t.Fused?
    requires forall t :: t in ts ==> !t.Fused?
    ensures Maximal(FuseFrom(pending, ts)) && Unfused(FuseFrom(pending, ts)) == pending + ts
    decreases |ts|
  {
    if ts == [] {
      FlushedPart(pending);
      assert pending + ts == pending;
    } else if IsRow(ts[0]) {
      FusesMaximalRuns(pending + [ts[0]], ts[1..]);
      assert (pending + [ts[0]]) + ts[1..] == pending + ts;
    } else {
      FusesMaximalRuns([], ts[1..]);
      AroundFrame(pending, ts, FuseFrom([], ts[1..]));
    }
  }

  function CreateFused(pending: seq<Transform>): (t: Transform)
    requires pending != []
    ensures [t] == Flush(pending)
  {
    if |pending| == 1 then pending[0] else Fused(pending)
  }

  method ApplyTransforms(df: Frame, transforms: seq<Transform>, fuse: bool) returns (result: Option<Frame>)
    ensures !fuse || GroupsIdle(0, transforms, df) ==> result == CallAll(transforms, df)
    ensures fuse ==> result == CallAll(FuseFrom([], transforms), df)
  {
    var ts := transforms;
    if fuse {
      ts := FuseGroups(transforms);
      if GroupsIdle(0, transforms, df) { FusionPreservesMeaning(transforms, df); }
    }
    var current := df;
    for k := 0 to |ts|
      invariant CallAll(ts[k..], current) == CallAll(ts, df)
    {
      assert ts[k..][0] == ts[k] && ts[k..][1..] == ts[k + 1..];
      var next := Call(ts[k], current);
      if next.None? { return None; }
      current := next.value;
    }
    return Some(current);
  }
}
