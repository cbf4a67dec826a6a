/** Whether two ways of reading the same bytes can extract different documents. A read
    that sees a blank line is cut at the last one it sees, so even a single read makes
    two extractions of a stream: one up to its last blank line, one of the rest. */
module SseAgreement {
  import opened Collections
  import opened ResponseStream
  import opened SseScanner
  import opened SseFraming

  lemma {:induction false} TrailingNewlineScansNothing(s: Bytes, i: nat)
    requires i < |s| && s[|s| - 1] == NEWLINE
    ensures Scan(s, i) == Scan(s[..|s| - 1], i)
    decreases |s| - i
  {
    var n := |s| - 1;
    if i == n {
      DataBytes(s, i);
      assert MatchAt(s, i).None?;
    } else {
      MatchTake(s, n, i);
      match MatchAt(s, i)
      case None => TrailingNewlineScansNothing(s, i + 1);
      case Some(h) =>
        assert s[h.json] == OPEN;
        SliceTake(s, n, h.json, h.end);
        TrailingNewlineScansNothing(s, h.end);
    }
  }

  lemma LeadingNewlineScansNothing(s: Bytes)
    requires s != [] && s[0] == NEWLINE
    ensures Docs(s) == Docs(s[1..])
  {
    DataBytes(s, 0);
    assert MatchAt(s, 0).None?;
    DocsDrop(s, 1);
  }

  /** The last blank line, seen from behind an earlier one. */
  lemma LastBlankDrop(s: Bytes, p: nat)
    requires BlankAt(s, p)
    ensures var last := LastBlank(s[p + 2..]);
      if last >= 0 then LastBlank(s) == p + 2 + last else p <= LastBlank(s) <= p + 1
  {
    var u := s[p + 2..];
    var last, whole := LastBlank(u), LastBlank(s);
    NoLaterBlank(s, p);
    if last >= 0 { NoLaterBlank(s, p + 2 + last); }
    if whole >= p + 2 { NoLaterBlank(u, whole - p - 2); }
  }

  /** The last blank line parts the stream and its rest behind an earlier one alike. */
  lemma EarlierBlank(s: Bytes, p: nat)
    requires BlankAt(s, p) && LastBlank(s[p + 2..]) >= 0
    ensures var last, later := LastBlank(s), LastBlank(s[p + 2..]);
      && p + 2 <= last && BlankAt(s[..last], p) && s[..last][..p] == s[..p]
      && s[..last][p + 2..] == s[p + 2..][..later]
      && s[p + 2..][later + 2..] == s[last + 2..]
  {
    LastBlankDrop(s, p);
    assert BlankAt(s, LastBlank(s));
  }

  lemma LeftHasNoBlank(buffer: Bytes)
    requires LastBlank(buffer) >= 0
    ensures LastBlank(buffer[LastBlank(buffer) + 2..]) < 0
  {
    assert BlankAt(buffer, LastBlank(buffer));
    LastBlankDrop(buffer, LastBlank(buffer));
  }

  /** Up to the last blank line, no `data:` has its JSON beyond a blank line. */
  ghost predicate HeadClear(s: Bytes) {
    var last := LastBlank(s);
    last < 0 || NoSpan(s[..last])
  }

  lemma HeadClearDrop(s: Bytes, p: nat)
    requires BlankAt(s, p) && HeadClear(s)
    ensures HeadClear(s[p + 2..])
  {
    if LastBlank(s[p + 2..]) >= 0 {
      EarlierBlank(s, p);
      NoSpanDrop(s[..LastBlank(s)], p + 2);
    }
  }

  /** The documents when everything arrives in one read. */
  function OneReadDocs(s: Bytes): seq<Bytes> {
    var last := LastBlank(s);
    if last < 0 then Docs(s) else assert BlankAt(s, last); Docs(s[..last]) + Docs(s[last + 2..])
  }

  lemma BatchThen(first: seq<Bytes>, rest: seq<seq<Bytes>>)
    ensures Flatten([first] + rest) == first + Flatten(rest)
  {
    FlattenConcat([first], rest);
    FlattenFew(first, first);
  }

  lemma RestBatches(left: Bytes)
    ensures Flatten(DocBatches(left, [])) == Docs(left)
  {
    FlattenFew(Docs(left), []);
  }

  lemma OneReadBatches(s: Bytes)
    ensures Flatten(DocBatches([], [s])) == OneReadDocs(s)
  {
    assert [] + s == s && [s][1..] == [];
    var last := LastBlank(s);
    if last < 0 {
      RestBatches(s);
    } else {
      BatchThen(Docs(s[..last]), DocBatches(s[last + 2..], []));
      RestBatches(s[last + 2..]);
    }
  }

  /** Without a later blank line, one read up to `p` and one of the rest are one read. */
  lemma LastCutDocs(s: Bytes, p: nat)
    requires BlankAt(s, p) && LastBlank(s[p + 2..]) < 0
    ensures OneReadDocs(s) == Docs(s[..p]) + OneReadDocs(s[p + 2..])
  {
    LastBlankDrop(s, p);
    if LastBlank(s) == p + 1 {
      TrailingNewlineScansNothing(s[..p + 1], 0);
      assert s[..p + 1][..p] == s[..p];
      LeadingNewlineScansNothing(s[p + 2..]);
      assert s[p + 2..][1..] == s[p + 3..];
    }
  }

  /** Cutting one extraction in two keeps its documents unless a match spans the cut. */
  lemma HeadCutDocs(head: Bytes, p: nat, tail: seq<Bytes>)
    requires BlankAt(head, p)
    ensures Docs(head) + tail == Docs(head[..p]) + (Docs(head[p + 2..]) + tail) <==> SpanFree(head, p)
  {
    var before, after := Docs(head[..p]), Docs(head[p + 2..]);
    ConcatAssociates(before, after, tail);
    SuffixCancels(Docs(head), before + after, tail);
    if SpanFree(head, p) {
      DocsSplit(head, p);
    } else {
      var at: nat :| Spans(head, at, p);
      PartsWeighLess(head, at, p);
      WeightConcat(before, after);
    }
  }

  lemma OneReadDocsAt(s: Bytes, head: Bytes, tail: Bytes)
    requires LastBlank(s) >= 0 && head == s[..LastBlank(s)] && tail == s[LastBlank(s) + 2..]
    ensures OneReadDocs(s) == Docs(head) + Docs(tail)
  {
  }

  /** With a later blank line, parting one read at `p` is parting the extraction there. */
  lemma EarlierCutDocs(s: Bytes, p: nat, last: nat)
    requires BlankAt(s, p) && LastBlank(s[p + 2..]) >= 0 && LastBlank(s) == last
    ensures BlankAt(s[..last], p)
    ensures OneReadDocs(s) == Docs(s[..p]) + OneReadDocs(s[p + 2..]) <==> SpanFree(s[..last], p)
  {
    EarlierBlank(s, p);
    OneReadDocsAt(s, s[..last], s[last + 2..]);
    OneReadDocsAt(s[p + 2..], s[..last][p + 2..], s[last + 2..]);
    HeadCutDocs(s[..last], p, Docs(s[last + 2..]));
  }

  lemma ClearParts(s: Bytes, p: nat)
    requires BlankAt(s, p) && HeadClear(s)
    ensures OneReadDocs(s) == Docs(s[..p]) + OneReadDocs(s[p + 2..])
  {
    NoLaterBlank(s, p);
    if LastBlank(s[p + 2..]) < 0 {
      LastCutDocs(s, p);
    } else {
      EarlierCutDocs(s, p, LastBlank(s));
    }
  }

  lemma {:induction false} ClearReadsAgree(incomplete: Bytes, packets: seq<Bytes>)
    requires HeadClear(incomplete + Flatten(packets)) && LastBlank(incomplete) < 0
    ensures Flatten(DocBatches(incomplete, packets)) == OneReadDocs(incomplete + Flatten(packets))
    decreases |packets|
  {
    var s := incomplete + Flatten(packets);
    if packets == [] {
      assert s == incomplete;
      RestBatches(s);
    } else {
      var buffer, rest := incomplete + packets[0], packets[1..];
      assert s == buffer + Flatten(rest);
      var p := LastBlank(buffer);
      if p < 0 {
        ClearReadsAgree(buffer, rest);
      } else {
        BufferCut(buffer, Flatten(rest), p);
        LeftHasNoBlank(buffer);
        HeadClearDrop(s, p);
        ClearParts(s, p);
        BatchThen(Docs(buffer[..p]), DocBatches(buffer[p + 2..], rest));
        ClearReadsAgree(buffer[p + 2..], rest);
      }
    }
  }

  /** All lists of reads of a stream extract the same documents. */
  ghost predicate DocsAgree(s: Bytes) {
    forall packets: seq<Bytes> {:trigger DocBatches([], packets)} ::
      Flatten(packets) == s ==> Flatten(DocBatches([], packets)) == Flatten(DocBatches([], [s]))
  }

  lemma ClearAgree(s: Bytes)
    requires HeadClear(s)
    ensures DocsAgree(s)
  {
    OneReadBatches(s);
    forall packets: seq<Bytes> | Flatten(packets) == s
      ensures Flatten(DocBatches([], packets)) == Flatten(DocBatches([], [s]))
    {
      assert [] + s == s;
      ClearReadsAgree([], packets);
    }
  }

  lemma TwoReadsDocs(s: Bytes, p: nat)
    requires BlankAt(s, p)
    ensures Flatten([s[..p + 2], s[p + 2..]]) == s
    ensures Flatten(DocBatches([], [s[..p + 2], s[p + 2..]])) == Docs(s[..p]) + OneReadDocs(s[p + 2..])
  {
    TwoPackets(s, p);
    BatchThen(Docs(s[..p]), DocBatches([], [s[p + 2..]]));
    OneReadBatches(s[p + 2..]);
  }

  /** Two reads that part a spanning match before the last blank line lose documents
      that the one read finds. */
  lemma SpanDisagrees(s: Bytes, at: nat, p: nat)
    requires LastBlank(s) >= 0 && Spans(s[..LastBlank(s)], at, p)
    ensures BlankAt(s, p) && Flatten([s[..p + 2], s[p + 2..]]) == s
    ensures Flatten(DocBatches([], [s[..p + 2], s[p + 2..]])) != Flatten(DocBatches([], [s]))
  {
    var last := LastBlank(s);
    assert BlankAt(s, p) && BlankAt(s, last);
    NoLaterBlank(s[p + 2..], last - p - 2);
    EarlierCutDocs(s, p, last);
    TwoReadsDocs(s, p);
    OneReadBatches(s);
  }

  lemma Disagree(s: Bytes, packets: seq<Bytes>)
    requires Flatten(packets) == s && Flatten(DocBatches([], packets)) != Flatten(DocBatches([], [s]))
    ensures !DocsAgree(s)
  {
  }

  /** Exactly when framing is independent of the reads: up to the last blank line, no
      `data:` has its JSON beyond a blank line. */
  lemma FragmentationIndependentExactlyWhen(s: Bytes)
    ensures DocsAgree(s) <==> LastBlank(s) < 0 || NoSpan(s[..LastBlank(s)])
  {
    if HeadClear(s) {
      ClearAgree(s);
    } else {
      var at: nat, p: nat :| Spans(s[..LastBlank(s)], at, p);
      SpanDisagrees(s, at, p);
      Disagree(s, [s[..p + 2], s[p + 2..]]);
    }
  }

  // ---- a stream whose documents depend on the reads ----

  const GAP: Bytes := [NEWLINE, NEWLINE]

  const DATA: Bytes := [100, 97, 116, 97, 58]

  const BRACES: Bytes := [OPEN, 120, CLOSE]

  /** `data:`, a blank line, and only then the JSON. */
  function Spanning(): Bytes {
    DATA + GAP + BRACES
  }

  lemma SpanningFound()
    ensures Docs(Spanning()) == [BRACES] && Spans(Spanning(), 0, 5)
  {
    var s := Spanning();
    assert DataAt(s, 0) && SkipSpace(s, 7) == 7 && SkipSpace(s, 6) == 7 && SkipSpace(s, 5) == 7;
    assert LineEnd(s, 10) == 10 && LineEnd(s, 9) == 10 && LineEnd(s, 8) == 10;
    assert LastClose(s, 9, 10) == Some(9);
    assert MatchAt(s, 0) == Some(Hit(7, 10));
    assert s[7..10] == BRACES;
  }

  /** Neither side of the blank line holds a document. */
  lemma SpanningSidesEmpty()
    ensures Docs(DATA) == [] && Docs(BRACES) == []
  {
    assert MatchAt(DATA, 0).None?;
    assert Scan(DATA, 5) == [] && Scan(DATA, 4) == [] && Scan(DATA, 3) == [];
    assert Scan(DATA, 2) == [] && Scan(DATA, 1) == [];
    assert Scan(BRACES, 3) == [] && Scan(BRACES, 2) == [] && Scan(BRACES, 1) == [];
  }

  /** What one read finds in a stream whose last blank line is known. */
  lemma OneReadAround(head: Bytes, tail: Bytes)
    requires forall q: nat :: q > |head| ==> !BlankAt(head + GAP + tail, q)
    ensures LastBlank(head + GAP + tail) == |head|
    ensures OneReadDocs(head + GAP + tail) == Docs(head) + Docs(tail)
  {
    var s := head + GAP + tail;
    assert BlankAt(s, |head|);
    NoLaterBlank(s, |head|);
    assert s[..|head|] == head && s[|head| + 2..] == tail;
  }

  /** One read that ends in a blank line is one extraction. */
  lemma EventInOneRead(event: Bytes)
    requires forall q: nat :: q > |event| ==> !BlankAt(event + GAP + [], q)
    ensures Flatten(DocBatches([], [event + GAP])) == Docs(event)
    ensures OneReadDocs(event + GAP) == Docs(event)
  {
    assert event + GAP == event + GAP + [];
    OneReadAround(event, []);
    OneReadBatches(event + GAP);
  }

  lemma SpanningHalves()
    ensures var s := Spanning() + GAP;
      BlankAt(s, 5) && s[..5] == DATA && s[..7] == DATA + GAP && s[7..] == BRACES + GAP
  {
  }

  /** Followed by a blank line, the event is found in one read, and not in two that part
      at the blank line inside it. */
  lemma SpanningEventDependsOnReads()
    ensures Flatten(DocBatches([], [Spanning() + GAP])) == [BRACES]
    ensures Flatten(DocBatches([], [DATA + GAP, BRACES + GAP])) == []
  {
    SpanningFound();
    SpanningSidesEmpty();
    SpanningHalves();
    EventInOneRead(Spanning());
    EventInOneRead(BRACES);
    TwoReadsDocs(Spanning() + GAP, 5);
  }

  lemma SpanningHeadClear()
    ensures HeadClear(Spanning()) && OneReadDocs(Spanning()) == []
  {
    SpanningSidesEmpty();
    OneReadAround(DATA, BRACES);
    assert Spanning()[..5] == DATA;
  }

  /** Without that blank line no reads find it, though it is there in the bytes. */
  lemma SpanningAloneIsNeverFound(packets: seq<Bytes>)
    requires Flatten(packets) == Spanning()
    ensures Docs(Spanning()) == [BRACES] && Flatten(DocBatches([], packets)) == []
  {
    SpanningFound();
    SpanningHeadClear();
    assert [] + Spanning() == Spanning();
    ClearReadsAgree([], packets);
  }
}
