/** Framing of server-sent events over network reads. Every read is joined to what the
    previous one left incomplete and cut at the last blank line; the result must not
    depend on how the network split the bytes. */
module SseFraming {
  import opened Collections
  import opened ResponseStream
  import opened SseScanner

  /** Position of the last blank line (two newlines in a row), or -1. */
  function LastBlank(s: Bytes): (p: int)
    ensures -1 <= p && (p >= 0 ==> BlankAt(s, p))
  {
    if |s| < 2 then -1
    else if s[|s| - 2] == NEWLINE && s[|s| - 1] == NEWLINE then |s| - 2
    else LastBlank(s[..|s| - 1])
  }

  lemma {:induction false} NoLaterBlank(s: Bytes, q: nat)
    requires BlankAt(s, q)
    ensures q <= LastBlank(s)
  {
    if !(s[|s| - 2] == NEWLINE && s[|s| - 1] == NEWLINE) {
      assert BlankAt(s[..|s| - 1], q);
      NoLaterBlank(s[..|s| - 1], q);
    }
  }

  /** The documents extracted read by read, one group per extraction. */
  function DocBatches(incomplete: Bytes, packets: seq<Bytes>): seq<seq<Bytes>>
    decreases |packets|
  {
    if packets == [] then
      if incomplete == [] then [] else [Docs(incomplete)]
    else
      var buffer := incomplete + packets[0];
      var p := LastBlank(buffer);
      if p < 0 then DocBatches(buffer, packets[1..])
      else [Docs(buffer[..p])] + DocBatches(buffer[p + 2..], packets[1..])
  }

  // ---- extraction over a blank line ----

  lemma SpansDrop(s: Bytes, o: nat, i: nat, p: nat)
    requires o <= |s|
    ensures Spans(s[o..], i, p) ==> Spans(s, o + i, o + p)
  {
    if o + i <= |s| { MatchDrop(s, o, s[o..], i); }
  }

  lemma NoSpanDrop(s: Bytes, o: nat)
    requires o <= |s| && NoSpan(s)
    ensures NoSpan(s[o..])
  {
    forall i: nat, p: nat ensures !Spans(s[o..], i, p) {
      SpansDrop(s, o, i, p);
    }
  }

  lemma NoSpanTake(s: Bytes, n: nat)
    requires n < |s| && s[n] == NEWLINE && NoSpan(s)
    ensures NoSpan(s[..n])
  {
    forall i: nat, p: nat ensures !Spans(s[..n], i, p) {
      if i < n {
        MatchTake(s, n, i);
        assert !Spans(s, i, p);
      }
    }
  }

  lemma NewlinesScanNothing(s: Bytes, p: nat)
    requires BlankAt(s, p)
    ensures Scan(s, p) == Scan(s, p + 2)
  {
    DataBytes(s, p);
    DataBytes(s, p + 1);
    assert MatchAt(s, p).None? && MatchAt(s, p + 1).None?;
  }

  lemma SliceTake(s: Bytes, p: nat, i: nat, j: nat)
    requires i <= j <= p <= |s|
    ensures s[..p][i..j] == s[i..j]
  {
  }

  /** No match reaches over the blank line at `p`. */
  ghost predicate SpanFree(s: Bytes, p: nat) {
    forall i: nat :: !Spans(s, i, p)
  }

  /** Without a match across it, extraction splits at a blank line. */
  lemma {:induction false} ScanSplits(s: Bytes, i: nat, p: nat)
    requires BlankAt(s, p) && i <= p && SpanFree(s, p)
    ensures Scan(s, i) == Scan(s[..p], i) + Scan(s, p + 2)
    decreases p - i
  {
    if i == p {
      NewlinesScanNothing(s, p);
    } else {
      MatchTake(s, p, i);
      match MatchAt(s, i)
      case None => ScanSplits(s, i + 1, p);
      case Some(h) =>
        assert !Spans(s, i, p);
        assert s[h.json] == OPEN;
        ScanSplits(s, h.end, p);
        SliceTake(s, p, h.json, h.end);
        ConcatAssociates([s[h.json..h.end]], Scan(s[..p], h.end), Scan(s, p + 2));
    }
  }

  lemma DocsSplit(s: Bytes, p: nat)
    requires BlankAt(s, p) && SpanFree(s, p)
    ensures Docs(s) == Docs(s[..p]) + Docs(s[p + 2..])
  {
    ScanSplits(s, 0, p);
    DocsDrop(s, p + 2);
  }

  /** A blank line of the buffer, seen in the whole stream. */
  lemma BufferCut(buffer: Bytes, later: Bytes, p: nat)
    requires BlankAt(buffer, p)
    ensures var s := buffer + later;
      BlankAt(s, p) && s[..p] == buffer[..p] && s[p + 2..] == buffer[p + 2..] + later
  {
  }

  // ---- what a match across a blank line costs ----

  function Weight(docs: seq<Bytes>): nat {
    if docs == [] then 0 else |docs[0]| + Weight(docs[1..])
  }

  lemma {:induction false} WeightConcat(a: seq<Bytes>, b: seq<Bytes>)
    ensures Weight(a + b) == Weight(a) + Weight(b)
  {
    if a == [] {
      assert a + b == b;
    } else {
      assert (a + b)[1..] == a[1..] + b;
      WeightConcat(a[1..], b);
    }
  }

  lemma WeightStep(s: Bytes, i: nat)
    requires i < |s|
    ensures Weight(Scan(s, i)) == match MatchAt(s, i)
      case None => Weight(Scan(s, i + 1))
      case Some(h) => h.end - h.json + Weight(Scan(s, h.end))
  {
    match MatchAt(s, i)
    case None =>
    case Some(h) =>
      WeightConcat([s[h.json..h.end]], Scan(s, h.end));
      assert Weight([s[h.json..h.end]]) == h.end - h.json;
  }

  /** Nothing is found between a position and the end of the white space after it. */
  lemma {:induction false} SpaceScansNothing(s: Bytes, i: nat, j: nat)
    requires i <= j <= |s| && forall k :: i <= k < j ==> IsSpace(s[k])
    ensures Scan(s, i) == Scan(s, j)
    decreases j - i
  {
    if i < j {
      DataBytes(s, i);
      assert MatchAt(s, i).None?;
      SpaceScansNothing(s, i + 1, j);
    }
  }

  /** The JSON of a match reaches the last closing brace of its line. */
  lemma HitReachesLastClose(s: Bytes, i: nat)
    requires MatchAt(s, i).Some?
    ensures var h := MatchAt(s, i).value;
      && s[h.json] == OPEN && s[h.end - 1] == CLOSE
      && (forall k :: h.end <= k < LineEnd(s, h.json) ==> s[k] != CLOSE)
      && (forall k :: h.json <= k < LineEnd(s, h.json) ==> s[k] != NEWLINE)
      && h.end <= LineEnd(s, h.json) && (LineEnd(s, h.json) < |s| ==> s[LineEnd(s, h.json)] == NEWLINE)
  {
    var h := MatchAt(s, i).value;
    assert LineEnd(s, h.json) == LineEnd(s, h.json + 1);
    LineEndsThere(s, h.json);
    LastCloseIsLast(s, h.json + 2, LineEnd(s, h.json + 1));
  }

  /** Between `data:` and its JSON there is nothing but white space. */
  lemma SpaceBeforeJson(s: Bytes, i: nat)
    requires MatchAt(s, i).Some?
    ensures forall k :: i + 5 <= k < MatchAt(s, i).value.json ==> IsSpace(s[k])
  {
    SkippedIsSpace(s, i + 5);
  }

  /** A match that starts before the last closing brace of a line ends at that brace. */
  lemma MatchEndsAtLastClose(s: Bytes, i: nat, e: nat, n: nat)
    requires i < e <= n <= |s| && (n < |s| ==> s[n] == NEWLINE) && s[e - 1] == CLOSE && MatchAt(s, i).Some?
    requires forall k :: i <= k < e ==> s[k] != NEWLINE
    requires forall k :: e <= k < n ==> s[k] != CLOSE && s[k] != NEWLINE
    ensures MatchAt(s, i).value.end == e && MatchAt(s, i).value.json >= i + 5
  {
    DataBytes(s, i);
    HitReachesLastClose(s, i);
    SpaceBeforeJson(s, i);
    var h := MatchAt(s, i).value;
    assert i + 5 <= e - 1;
    assert h.json <= e - 1;
    assert LineEnd(s, h.json) == n;
  }

  /** Scanning from inside a document's line yields at most the rest of the document. */
  lemma {:induction false} LineTailWeight(s: Bytes, i: nat, e: nat, n: nat)
    requires i <= e <= n <= |s| && 0 < e && s[e - 1] == CLOSE && (n < |s| ==> s[n] == NEWLINE)
    requires forall k :: i <= k < e ==> s[k] != NEWLINE
    requires forall k :: e <= k < n ==> s[k] != CLOSE && s[k] != NEWLINE
    ensures Weight(Scan(s, i)) <= e - i + Weight(Scan(s, e))
    decreases e - i
  {
    if i < e {
      WeightStep(s, i);
      match MatchAt(s, i)
      case None => LineTailWeight(s, i + 1, e, n);
      case Some(h) => MatchEndsAtLastClose(s, i, e, n);
    }
  }

  /** What stands after a blank line yields strictly less once the `data:` before the
      blank line is cut off. */
  lemma SpanWeighs(s: Bytes, i: nat, p: nat)
    requires Spans(s, i, p)
    ensures Weight(Scan(s, p + 2)) < Weight(Scan(s, i))
  {
    var h := MatchAt(s, i).value;
    SpaceBeforeJson(s, i);
    SpaceScansNothing(s, p + 2, h.json);
    HitWeighs(s, i);
    WeightStep(s, i);
  }

  lemma HitWeighs(s: Bytes, i: nat)
    requires MatchAt(s, i).Some?
    ensures var h := MatchAt(s, i).value;
      Weight(Scan(s, h.json)) < h.end - h.json + Weight(Scan(s, h.end))
  {
    HitReachesLastClose(s, i);
    var h := MatchAt(s, i).value;
    BraceWeighs(s, h, LineEnd(s, h.json));
  }

  /** A document's own opening brace is not the start of a match. */
  lemma BraceWeighs(s: Bytes, h: Hit, n: nat)
    requires h.json < h.end <= n <= |s| && s[h.json] == OPEN && s[h.end - 1] == CLOSE
    requires n < |s| ==> s[n] == NEWLINE
    requires forall k :: h.json <= k < h.end ==> s[k] != NEWLINE
    requires forall k :: h.end <= k < n ==> s[k] != CLOSE && s[k] != NEWLINE
    ensures Weight(Scan(s, h.json)) < h.end - h.json + Weight(Scan(s, h.end))
  {
    DataBytes(s, h.json);
    assert MatchAt(s, h.json).None?;
    WeightStep(s, h.json);
    LineTailWeight(s, h.json + 1, h.end, n);
  }

  /** Before the blank line, the cut-off `data:` finds nothing any more. */
  lemma SpanCutScansNothing(s: Bytes, i: nat, p: nat)
    requires Spans(s, i, p)
    ensures Scan(s[..p], i) == []
  {
    DataBytes(s, i);
    MatchTake(s, p, i);
    CutTailScansNothing(s, i + 1, p, i);
  }

  lemma {:induction false} CutTailScansNothing(s: Bytes, k: nat, p: nat, i: nat)
    requires Spans(s, i, p) && i < k <= p
    ensures Scan(s[..p], k) == []
    decreases p - k
  {
    if k < p {
      DataBytes(s, i);
      DataBytes(s, k);
      SpaceBeforeJson(s, i);
      assert !DataAt(s, k);
      MatchTake(s, p, k);
      CutTailScansNothing(s, k + 1, p, i);
    }
  }

  /** Away from a span, one step of the scan weighs the same with and without the cut. */
  lemma CutStep(s: Bytes, i: nat, p: nat)
    requires BlankAt(s, p) && i < p && !Spans(s, i, p)
    ensures match MatchAt(s, i)
      case None =>
        Weight(Scan(s, i)) == Weight(Scan(s, i + 1)) && Weight(Scan(s[..p], i)) == Weight(Scan(s[..p], i + 1))
      case Some(h) =>
        && h.end <= p && Weight(Scan(s, i)) == h.end - h.json + Weight(Scan(s, h.end))
        && Weight(Scan(s[..p], i)) == h.end - h.json + Weight(Scan(s[..p], h.end))
  {
    WeightStep(s, i);
    WeightStep(s[..p], i);
    MatchTake(s, p, i);
    if MatchAt(s, i).Some? { assert s[MatchAt(s, i).value.json] == OPEN; }
  }

  /** Cutting at a blank line never gains, and loses where a scanned match spans it. */
  lemma {:induction false} CutNeverGains(s: Bytes, i: nat, p: nat)
    requires BlankAt(s, p) && i <= p
    ensures Weight(Scan(s[..p], i)) + Weight(Scan(s, p + 2)) <= Weight(Scan(s, i))
    decreases p - i
  {
    if i == p {
      NewlinesScanNothing(s, p);
    } else if Spans(s, i, p) {
      SpanCutScansNothing(s, i, p);
      SpanWeighs(s, i, p);
    } else {
      CutStep(s, i, p);
      match MatchAt(s, i)
      case None => CutNeverGains(s, i + 1, p);
      case Some(h) => CutNeverGains(s, h.end, p);
    }
  }

  /** A spanning match is not swallowed by an earlier one. */
  lemma SpanNotInside(s: Bytes, i: nat, at: nat, p: nat)
    requires Spans(s, at, p) && i < at && MatchAt(s, i).Some?
    ensures MatchAt(s, i).value.end <= at && MatchAt(s, i).value.json < p
  {
    var h, h0 := MatchAt(s, i).value, MatchAt(s, at).value;
    DataBytes(s, i);
    DataBytes(s, at);
    SpaceBeforeJson(s, i);
    SpaceBeforeJson(s, at);
    assert i + 5 <= at;
    assert h.json <= at;
    assert s[h.json] == OPEN;
    assert h.json < at;
    if at < h.end {
      HitReachesLastClose(s, i);
      assert false;
    }
  }

  lemma {:induction false} CutAtSpanLoses(s: Bytes, i: nat, at: nat, p: nat)
    requires Spans(s, at, p) && i <= at
    ensures Weight(Scan(s[..p], i)) + Weight(Scan(s, p + 2)) < Weight(Scan(s, i))
    decreases at - i
  {
    if i == at {
      SpanCutScansNothing(s, i, p);
      SpanWeighs(s, i, p);
    } else {
      if MatchAt(s, i).Some? { SpanNotInside(s, i, at, p); }
      CutStep(s, i, p);
      match MatchAt(s, i)
      case None => CutAtSpanLoses(s, i + 1, at, p);
      case Some(h) => CutAtSpanLoses(s, h.end, at, p);
    }
  }

  /** One extraction, then the rest. */
  lemma BatchesWeigh(first: seq<Bytes>, rest: seq<seq<Bytes>>)
    ensures Weight(Flatten([first] + rest)) == Weight(first) + Weight(Flatten(rest))
  {
    FlattenConcat([first], rest);
    FlattenFew(first, first);
    WeightConcat(first, Flatten(rest));
  }

  lemma {:induction false} BatchesNeverGain(incomplete: Bytes, packets: seq<Bytes>)
    ensures Weight(Flatten(DocBatches(incomplete, packets))) <= Weight(Docs(incomplete + Flatten(packets)))
    decreases |packets|
  {
    var s := incomplete + Flatten(packets);
    if packets == [] {
      assert s == incomplete;
      FlattenFew(Docs(s), []);
    } else {
      var buffer, rest := incomplete + packets[0], packets[1..];
      assert s == buffer + Flatten(rest);
      var p := LastBlank(buffer);
      if p < 0 {
        BatchesNeverGain(buffer, rest);
      } else {
        BufferCut(buffer, Flatten(rest), p);
        BatchesNeverGain(buffer[p + 2..], rest);
        CutNeverGains(s, 0, p);
        DocsDrop(s, p + 2);
        BatchesWeigh(Docs(buffer[..p]), DocBatches(buffer[p + 2..], rest));
      }
    }
  }

  /** None of the cuts these reads lead to parts a match from its JSON. */
  ghost predicate CleanCuts(incomplete: Bytes, packets: seq<Bytes>)
    decreases |packets|
  {
    packets == [] ||
    var buffer := incomplete + packets[0];
    var p := LastBlank(buffer);
    if p < 0 then CleanCuts(buffer, packets[1..])
    else SpanFree(buffer + Flatten(packets[1..]), p) && CleanCuts(buffer[p + 2..], packets[1..])
  }

  /** Exactly when these reads give the documents of one extraction over all bytes. */
  lemma {:induction false} ReadsKeepDocsExactlyWhen(incomplete: Bytes, packets: seq<Bytes>)
    ensures Flatten(DocBatches(incomplete, packets)) == Docs(incomplete + Flatten(packets))
            <==> CleanCuts(incomplete, packets)
    decreases |packets|
  {
    var s := incomplete + Flatten(packets);
    if packets == [] {
      assert s == incomplete;
      FlattenFew(Docs(s), []);
    } else {
      var buffer, rest := incomplete + packets[0], packets[1..];
      assert s == buffer + Flatten(rest);
      var p := LastBlank(buffer);
      if p < 0 {
        ReadsKeepDocsExactlyWhen(buffer, rest);
      } else {
        BufferCut(buffer, Flatten(rest), p);
        ReadsKeepDocsExactlyWhen(buffer[p + 2..], rest);
        BatchesNeverGain(buffer[p + 2..], rest);
        CutKeepsDocsExactlyWhen(s, p, DocBatches(buffer[p + 2..], rest));
      }
    }
  }

  /** One cut, and whatever the bytes after it were made into without gaining any. */
  lemma CutKeepsDocsExactlyWhen(s: Bytes, p: nat, rest: seq<seq<Bytes>>)
    requires BlankAt(s, p) && Weight(Flatten(rest)) <= Weight(Docs(s[p + 2..]))
    ensures Flatten([Docs(s[..p])] + rest) == Docs(s) <==> SpanFree(s, p) && Flatten(rest) == Docs(s[p + 2..])
  {
    FlattenConcat([Docs(s[..p])], rest);
    FlattenFew(Docs(s[..p]), []);
    if SpanFree(s, p) {
      DocsSplit(s, p);
      PrefixCancels(Docs(s[..p]), Flatten(rest), Docs(s[p + 2..]));
    } else {
      var at: nat :| Spans(s, at, p);
      BatchesWeigh(Docs(s[..p]), rest);
      PartsWeighLess(s, at, p);
    }
  }

  lemma {:induction false} NoSpanCleanCuts(incomplete: Bytes, packets: seq<Bytes>)
    requires NoSpan(incomplete + Flatten(packets))
    ensures CleanCuts(incomplete, packets)
    decreases |packets|
  {
    if packets != [] {
      var buffer, rest := incomplete + packets[0], packets[1..];
      var s := incomplete + Flatten(packets);
      assert s == buffer + Flatten(rest);
      var p := LastBlank(buffer);
      if p < 0 {
        NoSpanCleanCuts(buffer, rest);
      } else {
        BufferCut(buffer, Flatten(rest), p);
        NoSpanDrop(s, p + 2);
        NoSpanCleanCuts(buffer[p + 2..], rest);
      }
    }
  }

  lemma BatchesKeepDocs(incomplete: Bytes, packets: seq<Bytes>)
    requires NoSpan(incomplete + Flatten(packets))
    ensures Flatten(DocBatches(incomplete, packets)) == Docs(incomplete + Flatten(packets))
  {
    NoSpanCleanCuts(incomplete, packets);
    ReadsKeepDocsExactlyWhen(incomplete, packets);
  }

  lemma TwoPackets(s: Bytes, p: nat)
    requires BlankAt(s, p)
    ensures Flatten([s[..p + 2], s[p + 2..]]) == s
    ensures DocBatches([], [s[..p + 2], s[p + 2..]]) == [Docs(s[..p])] + DocBatches([], [s[p + 2..]])
  {
    var first, second := s[..p + 2], s[p + 2..];
    FlattenFew(first, second);
    assert first + second == s;
    assert [first, second][1..] == [second];
    assert [] + first == first;
    assert BlankAt(first, p);
    NoLaterBlank(first, p);
    assert LastBlank(first) == p;
    assert first[..p] == s[..p] && first[p + 2..] == [];
  }

  /** Two reads that part a spanning match lose its document against the one extraction. */
  lemma SpanParted(s: Bytes, at: nat, p: nat)
    requires Spans(s, at, p)
    ensures Flatten([s[..p + 2], s[p + 2..]]) == s
    ensures Flatten(DocBatches([], [s[..p + 2], s[p + 2..]])) != Docs(s)
  {
    var second := s[p + 2..];
    TwoPackets(s, p);
    BatchesWeigh(Docs(s[..p]), DocBatches([], [second]));
    BatchesNeverGain([], [second]);
    FlattenFew(second, []);
    assert [] + second == second;
    PartsWeighLess(s, at, p);
  }

  lemma PartsWeighLess(s: Bytes, at: nat, p: nat)
    requires Spans(s, at, p)
    ensures Weight(Docs(s[..p])) + Weight(Docs(s[p + 2..])) < Weight(Docs(s))
  {
    CutAtSpanLoses(s, 0, at, p);
    DocsDrop(s, p + 2);
  }

  /** Every way of splitting the stream gives the one extraction over the whole of it. */
  ghost predicate ExtractedWhole(s: Bytes) {
    forall packets: seq<Bytes> {:trigger DocBatches([], packets)} ::
      Flatten(packets) == s ==> Flatten(DocBatches([], packets)) == Docs(s)
  }

  lemma SpanNotWhole(s: Bytes, at: nat, p: nat)
    requires Spans(s, at, p)
    ensures !ExtractedWhole(s)
  {
    SpanParted(s, at, p);
    var packets := [s[..p + 2], s[p + 2..]];
    assert Flatten(DocBatches([], packets)) != Docs(s);
  }

  lemma NoSpanWhole(s: Bytes)
    requires NoSpan(s)
    ensures ExtractedWhole(s)
  {
    forall packets: seq<Bytes> | Flatten(packets) == s ensures Flatten(DocBatches([], packets)) == Docs(s) {
      assert [] + s == s;
      BatchesKeepDocs([], packets);
    }
  }

  /** Exactly when every list of reads gives the one extraction over all bytes, which no
      read alone performs once it sees a blank line: no `data:` has its JSON beyond one. */
  lemma ExtractedWholeExactlyWhen(s: Bytes)
    ensures ExtractedWhole(s) <==> NoSpan(s)
  {
    if NoSpan(s) {
      NoSpanWhole(s);
    } else {
      var at: nat, p: nat :| Spans(s, at, p);
      SpanNotWhole(s, at, p);
    }
  }
}
