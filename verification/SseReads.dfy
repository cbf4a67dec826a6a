/** Whether the network's reads can show in the messages. A document that does not
    decode ends its extraction, and the extractions depend on the reads. */
module SseReads {
  import opened Collections
  import opened ResponseStream
  import opened SseScanner
  import opened SseFraming
  import opened SseAgreement
  import opened SseMessages

  /** The first read's messages, then those of the others. */
  lemma SentRead<M>(incomplete: Bytes, packets: seq<Bytes>, decode: Bytes -> Decoded<M>)
    requires packets != []
    ensures var (left, parsed) := Framed(incomplete, packets[0], decode);
      Flatten(Sent(incomplete, packets, decode)) == parsed + Flatten(Sent(left, packets[1..], decode))
  {
    var (left, parsed) := Framed(incomplete, packets[0], decode);
    EmitFlattens(parsed, Sent(left, packets[1..], decode));
  }

  /** A blank line at which cutting the stream shows in no message. */
  ghost predicate QuietCut<M>(s: Bytes, p: nat, decode: Bytes -> Decoded<M>)
    requires BlankAt(s, p)
  {
    AllDecode(Docs(s[..p]), decode) || Parse(Docs(s[p + 2..]), decode) == []
  }

  ghost predicate QuietCuts<M>(s: Bytes, decode: Bytes -> Decoded<M>) {
    forall p: nat :: BlankAt(s, p) ==> QuietCut(s, p, decode)
  }

  lemma AllDecodeParts<M>(a: seq<Bytes>, b: seq<Bytes>, decode: Bytes -> Decoded<M>)
    ensures AllDecode(a + b, decode) <==> AllDecode(a, decode) && AllDecode(b, decode)
  {
    if AllDecode(a + b, decode) {
      assert forall k :: 0 <= k < |a| ==> a[k] == (a + b)[k];
      assert forall k :: 0 <= k < |b| ==> b[k] == (a + b)[|a| + k];
    }
  }

  /** A blank line after another, seen from behind that other one. */
  lemma LaterBlank(s: Bytes, p: nat, q: nat)
    requires BlankAt(s, p) && BlankAt(s[p + 2..], q) && NoSpan(s)
    ensures BlankAt(s, p + 2 + q)
    ensures s[p + 2..][q + 2..] == s[p + 2 + q + 2..]
    ensures Docs(s[..p + 2 + q]) == Docs(s[..p]) + Docs(s[p + 2..][..q])
  {
    var t := s[..p + 2 + q];
    assert t[..p] == s[..p] && t[p + 2..] == s[p + 2..][..q];
    NoSpanTake(s, p + 2 + q);
    DocsSplit(t, p);
  }

  lemma QuietCutsDrop<M>(s: Bytes, p: nat, decode: Bytes -> Decoded<M>)
    requires BlankAt(s, p) && NoSpan(s) && QuietCuts(s, decode)
    ensures QuietCuts(s[p + 2..], decode)
  {
    var t := s[p + 2..];
    forall q: nat | BlankAt(t, q) ensures QuietCut(t, q, decode) {
      LaterBlank(s, p, q);
      assert QuietCut(s, p + 2 + q, decode);
      AllDecodeParts(Docs(s[..p]), Docs(s[p + 2..][..q]), decode);
    }
  }

  /** With quiet cuts every list of reads gives the messages of one extraction. */
  lemma {:induction false} QuietReads<M>(incomplete: Bytes, packets: seq<Bytes>, decode: Bytes -> Decoded<M>)
    requires NoSpan(incomplete + Flatten(packets)) && QuietCuts(incomplete + Flatten(packets), decode)
    ensures Flatten(Sent(incomplete, packets, decode)) == Parse(Docs(incomplete + Flatten(packets)), decode)
    decreases |packets|
  {
    var s := incomplete + Flatten(packets);
    if packets == [] {
      assert s == incomplete;
      EmitFlattens(Parse(Docs(s), decode), []);
    } else {
      var buffer, rest := incomplete + packets[0], packets[1..];
      assert s == buffer + Flatten(rest);
      var p := LastBlank(buffer);
      if p < 0 {
        QuietReads(buffer, rest, decode);
      } else {
        BufferCut(buffer, Flatten(rest), p);
        QuietCutsDrop(s, p, decode);
        NoSpanDrop(s, p + 2);
        QuietReads(buffer[p + 2..], rest, decode);
        DocsSplit(s, p);
        CutKeepsMessagesExactlyWhen(Docs(s[..p]), Docs(s[p + 2..]), decode);
        assert QuietCut(s, p, decode);
      }
      SentRead(incomplete, packets, decode);
    }
  }

  lemma LoudCutShows<M>(s: Bytes, p: nat, decode: Bytes -> Decoded<M>)
    requires NoSpan(s) && BlankAt(s, p) && !QuietCut(s, p, decode)
    ensures Flatten([s[..p + 2], s[p + 2..]]) == s
    ensures Flatten(Sent([], [s[..p + 2], s[p + 2..]], decode)) != Parse(Docs(s), decode)
  {
    var second := s[p + 2..];
    TwoPackets(s, p);
    SentIsBatches([], [s[..p + 2], second], decode);
    var later := DocBatches([], [second]);
    NoSpanDrop(s, p + 2);
    FlattenFew(second, second);
    assert [] + second == second;
    BatchesKeepDocs([], [second]);
    GroupsParseWholeExactlyWhen(later, decode);
    assert ([Docs(s[..p])] + later)[1..] == later;
    EmitFlattens(Parse(Docs(s[..p]), decode), MessageBatches(later, decode));
    FailureSilences(Docs(s[..p]), Docs(second), decode);
    DocsSplit(s, p);
  }

  /** Any reads give the messages of one extraction over all bytes. */
  ghost predicate WholeInAnyReads<M>(s: Bytes, decode: Bytes -> Decoded<M>) {
    forall packets: seq<Bytes> {:trigger Sent([], packets, decode)} ::
      Flatten(packets) == s ==> Flatten(Sent([], packets, decode)) == Parse(Docs(s), decode)
  }

  lemma QuietGivesWhole<M>(s: Bytes, decode: Bytes -> Decoded<M>)
    requires NoSpan(s) && QuietCuts(s, decode)
    ensures WholeInAnyReads(s, decode)
  {
    forall packets: seq<Bytes> | Flatten(packets) == s
      ensures Flatten(Sent([], packets, decode)) == Parse(Docs(s), decode)
    {
      assert [] + s == s;
      QuietReads([], packets, decode);
    }
  }

  lemma NotWhole<M>(s: Bytes, packets: seq<Bytes>, decode: Bytes -> Decoded<M>)
    requires Flatten(packets) == s && Flatten(Sent([], packets, decode)) != Parse(Docs(s), decode)
    ensures !WholeInAnyReads(s, decode)
  {
  }

  /** Exactly when any reads of a stream without spanning matches give the messages of one
      extraction: at every blank line, everything before it decodes, or nothing behind it
      yields a message. */
  lemma MessagesIndependentExactlyWhen<M>(s: Bytes, decode: Bytes -> Decoded<M>)
    requires NoSpan(s)
    ensures WholeInAnyReads(s, decode) <==> QuietCuts(s, decode)
  {
    if QuietCuts(s, decode) {
      QuietGivesWhole(s, decode);
    } else {
      var p: nat :| BlankAt(s, p) && !QuietCut(s, p, decode);
      LoudCutShows(s, p, decode);
      NotWhole(s, [s[..p + 2], s[p + 2..]], decode);
    }
  }

  // ---- whether all reads agree with each other ----

  /** The messages when everything arrives in one read: the part up to the last blank
      line is one extraction, what stays incomplete another. */
  function OneRead<M>(s: Bytes, decode: Bytes -> Decoded<M>): seq<M> {
    var last := LastBlank(s);
    if last < 0 then Parse(Docs(s), decode)
    else assert BlankAt(s, last); Parse(Docs(s[..last]), decode) + Parse(Docs(s[last + 2..]), decode)
  }

  lemma OneReadSent<M>(s: Bytes, decode: Bytes -> Decoded<M>)
    ensures Flatten(Sent([], [s], decode)) == OneRead(s, decode)
  {
    SentRead([], [s], decode);
    assert [] + s == s;
    var (left, parsed) := Framed([], s, decode);
    EmitFlattens(Parse(Docs(left), decode), []);
    assert [s][1..] == [];
  }

  /** Up to its last blank line, the stream has only quiet cuts. */
  ghost predicate QuietBeforeLast<M>(s: Bytes, decode: Bytes -> Decoded<M>) {
    var last := LastBlank(s);
    last < 0 || QuietCuts(s[..last], decode)
  }

  /** Without a later blank line, one read up to `p` and one of the rest are one read. */
  lemma LastCut<M>(s: Bytes, p: nat, decode: Bytes -> Decoded<M>)
    requires BlankAt(s, p) && LastBlank(s[p + 2..]) < 0
    ensures OneRead(s, decode) == Parse(Docs(s[..p]), decode) + OneRead(s[p + 2..], decode)
  {
    LastBlankDrop(s, p);
    if LastBlank(s) == p + 1 {
      TrailingNewlineScansNothing(s[..p + 1], 0);
      assert s[..p + 1][..p] == s[..p];
      LeadingNewlineScansNothing(s[p + 2..]);
      assert s[p + 2..][1..] == s[p + 3..];
    }
  }

  lemma CutMessages<M>(a: seq<Bytes>, b: seq<Bytes>, tail: seq<M>, decode: Bytes -> Decoded<M>)
    ensures Parse(a + b, decode) + tail == Parse(a, decode) + (Parse(b, decode) + tail)
            <==> (AllDecode(a, decode) || Parse(b, decode) == [])
  {
    CutKeepsMessagesExactlyWhen(a, b, decode);
    ConcatAssociates(Parse(a, decode), Parse(b, decode), tail);
    SuffixCancels(Parse(a + b, decode), Parse(a, decode) + Parse(b, decode), tail);
  }

  lemma OneReadAt<M>(s: Bytes, head: Bytes, tail: Bytes, decode: Bytes -> Decoded<M>)
    requires LastBlank(s) >= 0 && head == s[..LastBlank(s)] && tail == s[LastBlank(s) + 2..]
    ensures OneRead(s, decode) == Parse(Docs(head), decode) + Parse(Docs(tail), decode)
  {
  }

  /** What one read gives for the stream and for its rest behind an early blank line. */
  lemma EarlierReads<M>(s: Bytes, p: nat, last: nat, decode: Bytes -> Decoded<M>)
    requires BlankAt(s, p) && LastBlank(s[p + 2..]) >= 0 && LastBlank(s) == last
    ensures BlankAt(s[..last], p) && s[..last][..p] == s[..p]
    ensures var head, tail := s[..last], Parse(Docs(s[last + 2..]), decode);
      && OneRead(s, decode) == Parse(Docs(head), decode) + tail
      && OneRead(s[p + 2..], decode) == Parse(Docs(head[p + 2..]), decode) + tail
  {
    EarlierBlank(s, p);
    OneReadAt(s, s[..last], s[last + 2..], decode);
    OneReadAt(s[p + 2..], s[..last][p + 2..], s[last + 2..], decode);
  }

  /** With a later blank line, parting one read at `p` is parting the extraction there. */
  lemma EarlierCut<M>(s: Bytes, p: nat, last: nat, decode: Bytes -> Decoded<M>)
    requires BlankAt(s, p) && LastBlank(s[p + 2..]) >= 0 && LastBlank(s) == last && NoSpan(s[..last])
    ensures BlankAt(s[..last], p)
    ensures OneRead(s, decode) == Parse(Docs(s[..p]), decode) + OneRead(s[p + 2..], decode)
            <==> QuietCut(s[..last], p, decode)
  {
    var head := s[..last];
    EarlierReads(s, p, last, decode);
    DocsSplit(head, p);
    CutMessages(Docs(s[..p]), Docs(head[p + 2..]), Parse(Docs(s[last + 2..]), decode), decode);
  }

  /** A quiet stream parts at any blank line without a message lost or gained, and its
      rest is quiet too. */
  lemma QuietParts<M>(s: Bytes, p: nat, decode: Bytes -> Decoded<M>)
    requires BlankAt(s, p) && HeadClear(s) && QuietBeforeLast(s, decode)
    ensures OneRead(s, decode) == Parse(Docs(s[..p]), decode) + OneRead(s[p + 2..], decode)
    ensures QuietBeforeLast(s[p + 2..], decode)
  {
    NoLaterBlank(s, p);
    if LastBlank(s[p + 2..]) < 0 {
      LastCut(s, p, decode);
    } else {
      var head := s[..LastBlank(s)];
      EarlierCut(s, p, LastBlank(s), decode);
      EarlierBlank(s, p);
      QuietCutsDrop(head, p, decode);
      assert QuietCut(head, p, decode);
    }
  }

  lemma {:induction false} QuietReadsAgree<M>(incomplete: Bytes, packets: seq<Bytes>, decode: Bytes -> Decoded<M>)
    requires HeadClear(incomplete + Flatten(packets)) && LastBlank(incomplete) < 0
    requires QuietBeforeLast(incomplete + Flatten(packets), decode)
    ensures Flatten(Sent(incomplete, packets, decode)) == OneRead(incomplete + Flatten(packets), decode)
    decreases |packets|
  {
    var s := incomplete + Flatten(packets);
    if packets == [] {
      assert s == incomplete;
      EmitFlattens(Parse(Docs(s), decode), []);
    } else {
      var buffer, rest := incomplete + packets[0], packets[1..];
      assert s == buffer + Flatten(rest);
      var p := LastBlank(buffer);
      SentRead(incomplete, packets, decode);
      if p < 0 {
        QuietReadsAgree(buffer, rest, decode);
      } else {
        BufferCut(buffer, Flatten(rest), p);
        LeftHasNoBlank(buffer);
        HeadClearDrop(s, p);
        QuietParts(s, p, decode);
        QuietReadsAgree(buffer[p + 2..], rest, decode);
      }
    }
  }

  lemma TwoReads<M>(s: Bytes, p: nat, decode: Bytes -> Decoded<M>)
    requires BlankAt(s, p)
    ensures Flatten([s[..p + 2], s[p + 2..]]) == s
    ensures Flatten(Sent([], [s[..p + 2], s[p + 2..]], decode))
            == Parse(Docs(s[..p]), decode) + OneRead(s[p + 2..], decode)
  {
    var first, second := s[..p + 2], s[p + 2..];
    TwoPackets(s, p);
    SentRead([], [first, second], decode);
    NoLaterBlank(first, p);
    assert [] + first == first && LastBlank(first) == p;
    assert first[..p] == s[..p] && first[p + 2..] == [] && [first, second][1..] == [second];
    OneReadSent(second, decode);
  }

  /** Two reads that part a stream at a loud blank line before its last one disagree
      with the one read. */
  lemma LoudReadsDisagree<M>(s: Bytes, p: nat, decode: Bytes -> Decoded<M>)
    requires HeadClear(s) && LastBlank(s) >= 0 && BlankAt(s[..LastBlank(s)], p)
    requires !QuietCut(s[..LastBlank(s)], p, decode)
    ensures BlankAt(s, p)
    ensures Parse(Docs(s[..p]), decode) + OneRead(s[p + 2..], decode) != OneRead(s, decode)
  {
    var last := LastBlank(s);
    assert BlankAt(s, p) && BlankAt(s, last);
    NoLaterBlank(s[p + 2..], last - p - 2);
    EarlierCut(s, p, last, decode);
  }

  ghost predicate ReadsAgree<M>(s: Bytes, decode: Bytes -> Decoded<M>) {
    forall packets: seq<Bytes> {:trigger Sent([], packets, decode)} :: Flatten(packets) == s ==>
      Flatten(Sent([], packets, decode)) == Flatten(Sent([], [s], decode))
  }

  lemma QuietAgree<M>(s: Bytes, decode: Bytes -> Decoded<M>)
    requires HeadClear(s) && QuietBeforeLast(s, decode)
    ensures ReadsAgree(s, decode)
  {
    OneReadSent(s, decode);
    forall packets: seq<Bytes> | Flatten(packets) == s
      ensures Flatten(Sent([], packets, decode)) == Flatten(Sent([], [s], decode))
    {
      assert [] + s == s;
      QuietReadsAgree([], packets, decode);
    }
  }

  lemma Disagree<M>(s: Bytes, packets: seq<Bytes>, decode: Bytes -> Decoded<M>)
    requires Flatten(packets) == s && Flatten(Sent([], packets, decode)) != Flatten(Sent([], [s], decode))
    ensures !ReadsAgree(s, decode)
  {
  }

  /** Exactly when all reads of a stream whose documents do not depend on them agree in
      the messages as well: up to its last blank line, at every blank line, everything
      before it decodes, or nothing between the two yields a message. */
  lemma ReadsAgreeExactlyWhen<M>(s: Bytes, decode: Bytes -> Decoded<M>)
    requires HeadClear(s)
    ensures ReadsAgree(s, decode) <==> QuietBeforeLast(s, decode)
  {
    if QuietBeforeLast(s, decode) {
      QuietAgree(s, decode);
    } else {
      var head := s[..LastBlank(s)];
      var p: nat :| BlankAt(head, p) && !QuietCut(head, p, decode);
      LoudReadsDisagree(s, p, decode);
      TwoReads(s, p, decode);
      OneReadSent(s, decode);
      Disagree(s, [s[..p + 2], s[p + 2..]], decode);
    }
  }

  // ---- a stream whose messages depend on the reads ----

  /** `data:{x}` with one byte between the braces. */
  function Sample(x: Byte): Bytes {
    [100, 97, 116, 97, 58, OPEN, x, CLOSE]
  }

  function Picky(doc: Bytes): Decoded<nat> {
    if doc == [OPEN, 120, CLOSE] then Malformed else Message(|doc|)
  }

  lemma SampleHit(rest: Bytes, x: Byte)
    requires x != NEWLINE && (rest == [] || rest[0] == NEWLINE)
    ensures Docs(Sample(x) + rest) == [[OPEN, x, CLOSE]] + Scan(Sample(x) + rest, 8)
  {
    var s := Sample(x) + rest;
    assert DataAt(s, 0) && SkipSpace(s, 5) == 5;
    assert LineEnd(s, 8) == 8 && LineEnd(s, 7) == 8 && LineEnd(s, 6) == 8;
    assert LastClose(s, 7, 8) == Some(7);
    assert s[5..8] == [OPEN, x, CLOSE];
  }

  lemma SampleDocs(x: Byte)
    requires x != NEWLINE
    ensures Docs(Sample(x)) == [[OPEN, x, CLOSE]]
  {
    SampleHit([], x);
    assert Sample(x) + [] == Sample(x);
  }

  lemma PairDocs()
    ensures Docs(Sample(120) + GAP + Sample(121)) == [[OPEN, 120, CLOSE], [OPEN, 121, CLOSE]]
  {
    var s := Sample(120) + GAP + Sample(121);
    assert s == Sample(120) + (GAP + Sample(121));
    SampleHit(GAP + Sample(121), 120);
    NewlinesScanNothing(s, 8);
    DocsDrop(s, 10);
    assert s[10..] == Sample(121);
    SampleDocs(121);
  }

  /** One read that ends in a blank line is one extraction. */
  lemma EventsInOneRead(events: Bytes)
    ensures Flatten(Sent([], [events + GAP], Picky)) == Parse(Docs(events), Picky)
    ensures Framed([], events + GAP, Picky) == ([], Parse(Docs(events), Picky))
  {
    var s := events + GAP;
    assert LastBlank(s) == |events|;
    assert s[..|events|] == events && s[|events| + 2..] == [] && [] + s == s;
    OneReadSent(s, Picky);
  }

  lemma EventsInTwoReads(first: Bytes, second: Bytes)
    ensures Flatten(Sent([], [first + GAP, second + GAP], Picky))
            == Parse(Docs(first), Picky) + Parse(Docs(second), Picky)
  {
    EventsInOneRead(first);
    EventsInOneRead(second);
    SentRead([], [first + GAP, second + GAP], Picky);
    assert [first + GAP, second + GAP][1..] == [second + GAP];
  }

  lemma PickyParses()
    ensures var bad, good := [OPEN, 120, CLOSE], [OPEN, 121, CLOSE];
      Parse([bad, good], Picky) == [] && Parse([bad], Picky) == [] && Parse([good], Picky) == [3]
  {
    var good := [OPEN, 121, CLOSE];
    assert good[1] == 121;
    assert Parse([good][1..], Picky) == [];
  }

  /** Two events, the first of which does not decode: in one read nothing is sent, in
      two reads the second event is. */
  lemma UndecodableEventDependsOnReads()
    ensures Flatten(Sent([], [Sample(120) + GAP + Sample(121) + GAP], Picky)) == []
    ensures Flatten(Sent([], [Sample(120) + GAP, Sample(121) + GAP], Picky)) == [3]
  {
    PairDocs();
    SampleDocs(120);
    SampleDocs(121);
    PickyParses();
    EventsInOneRead(Sample(120) + GAP + Sample(121));
    EventsInTwoReads(Sample(120), Sample(121));
  }
}
