/** From response bytes to decoded messages: the adapters' chunk parser, the worker's
    framing loop, and both together with the response stream that feeds them. */
module SseMessages {
  import opened Collections
  import opened ResponseStream
  import opened SseScanner
  import opened SseFraming

  /** What an adapter makes of one JSON document. */
  datatype Decoded<+M> = Malformed | Nothing | Message(content: M)

  /** The messages of one extraction: a malformed document ends it. */
  function Parse<M>(docs: seq<Bytes>, decode: Bytes -> Decoded<M>): seq<M> {
    if docs == [] then []
    else match decode(docs[0])
      case Malformed => []
      case Nothing => Parse(docs[1..], decode)
      case Message(m) => [m] + Parse(docs[1..], decode)
  }

  ghost predicate AllDecode<M>(docs: seq<Bytes>, decode: Bytes -> Decoded<M>) {
    forall k :: 0 <= k < |docs| ==> decode(docs[k]) != Malformed
  }

  method ParseSseChunk<M>(buffer: Bytes, endPos: nat, decode: Bytes -> Decoded<M>) returns (parsed: seq<M>)
    requires endPos <= |buffer|
    ensures parsed == Parse(Docs(buffer[..endPos]), decode)
  {
    var docs := Docs(buffer[..endPos]);
    parsed := [];
    var k := 0;
    while k < |docs|
      invariant k <= |docs|
      invariant parsed + Parse(docs[k..], decode) == Parse(docs, decode)
    {
      match decode(docs[k]) {
        case Malformed => return;
        case Nothing =>
        case Message(m) => parsed := parsed + [m];
      }
      k := k + 1;
    }
  }

  /** A batch is yielded only if it has messages. */
  function Emit<M>(parsed: seq<M>): seq<seq<M>> {
    if parsed == [] then [] else [parsed]
  }

  /** The batches the worker yields: one per extraction that found something. */
  function MessageBatches<M>(groups: seq<seq<Bytes>>, decode: Bytes -> Decoded<M>): seq<seq<M>> {
    if groups == [] then []
    else Emit(Parse(groups[0], decode)) + MessageBatches(groups[1..], decode)
  }

  /** One read: what stays incomplete, and the messages of its complete events. */
  function Framed<M>(incomplete: Bytes, packet: Bytes, decode: Bytes -> Decoded<M>): (Bytes, seq<M>) {
    var buffer := incomplete + packet;
    var p := LastBlank(buffer);
    if p < 0 then (buffer, [])
    else assert BlankAt(buffer, p); (buffer[p + 2..], Parse(Docs(buffer[..p]), decode))
  }

  /** The batches sent on, read by read. */
  function Sent<M>(incomplete: Bytes, packets: seq<Bytes>, decode: Bytes -> Decoded<M>): seq<seq<M>>
    decreases |packets|
  {
    if packets == [] then
      if incomplete == [] then [] else Emit(Parse(Docs(incomplete), decode))
    else
      var (left, parsed) := Framed(incomplete, packets[0], decode);
      Emit(parsed) + Sent(left, packets[1..], decode)
  }

  lemma {:induction false} SentIsBatches<M>(incomplete: Bytes, packets: seq<Bytes>, decode: Bytes -> Decoded<M>)
    ensures Sent(incomplete, packets, decode) == MessageBatches(DocBatches(incomplete, packets), decode)
    decreases |packets|
  {
    if packets == [] {
      if incomplete != [] {
        var groups := [Docs(incomplete)];
        assert groups[1..] == [];
        assert MessageBatches(groups, decode) == Emit(Parse(groups[0], decode)) + MessageBatches(groups[1..], decode);
      }
    } else {
      var (left, parsed) := Framed(incomplete, packets[0], decode);
      SentIsBatches(left, packets[1..], decode);
    }
  }

  method FrameRead<M>(incomplete: Bytes, packet: Bytes, decode: Bytes -> Decoded<M>)
    returns (left: Bytes, parsed: seq<M>)
    ensures (left, parsed) == Framed(incomplete, packet, decode)
  {
    var buffer := incomplete + packet;
    var lastDelimiter := LastBlank(buffer);
    if lastDelimiter == -1 { return buffer, []; }
    assert BlankAt(buffer, lastDelimiter);
    left := buffer[lastDelimiter + 2..];
    parsed := ParseSseChunk(buffer, lastDelimiter, decode);
  }

  /** One turn of the framing loop, with the batches already sent on. */
  lemma SentStep<M>(batches: seq<seq<M>>, incomplete: Bytes, rest: seq<seq<Bytes>>, decode: Bytes -> Decoded<M>)
    requires rest != []
    ensures var (left, parsed) := Framed(incomplete, Flatten(rest[0]), decode);
      batches + Sent(incomplete, Joined(rest), decode)
        == batches + Emit(parsed) + Sent(left, Joined(rest[1..]), decode)
  {
    var packets := Joined(rest);
    assert packets[0] == Flatten(rest[0]) && packets[1..] == Joined(rest[1..]);
  }

  /** The framing loop over the chunk lists of the response stream. */
  method IterSseLines<M>(chunkLists: seq<seq<Bytes>>, decode: Bytes -> Decoded<M>) returns (batches: seq<seq<M>>)
    ensures batches == Sent([], Joined(chunkLists), decode)
  {
    batches := [];
    var incomplete: Bytes := [];
    var rest := chunkLists;
    ghost var goal := Sent([], Joined(chunkLists), decode);
    while rest != []
      invariant batches + Sent(incomplete, Joined(rest), decode) == goal
      decreases |rest|
    {
      SentStep(batches, incomplete, rest, decode);
      var left, parsed := FrameRead(incomplete, Flatten(rest[0]), decode);
      rest := rest[1..];
      incomplete := left;
      batches := batches + Emit(parsed);
    }
    if incomplete != [] {
      var parsed := ParseSseChunk(incomplete, |incomplete|, decode);
      assert incomplete[..|incomplete|] == incomplete;
      batches := batches + Emit(parsed);
    }
  }

  function Joined(chunkLists: seq<seq<Bytes>>): (packets: seq<Bytes>)
    ensures |packets| == |chunkLists|
  {
    if chunkLists == [] then [] else [Flatten(chunkLists[0])] + Joined(chunkLists[1..])
  }

  lemma {:induction false} JoinedFlattens(chunkLists: seq<seq<Bytes>>)
    ensures Flatten(Joined(chunkLists)) == Flatten(Flatten(chunkLists))
  {
    if chunkLists != [] {
      JoinedFlattens(chunkLists[1..]);
      FlattenConcat(chunkLists[0], Flatten(chunkLists[1..]));
    }
  }

  /** Exactly when cutting an extraction in two keeps its messages: everything before
      the cut decodes, or nothing after it would have yielded a message anyway. */
  lemma {:induction false} CutKeepsMessagesExactlyWhen<M>(a: seq<Bytes>, b: seq<Bytes>, decode: Bytes -> Decoded<M>)
    ensures Parse(a + b, decode) == Parse(a, decode) + Parse(b, decode)
            <==> (AllDecode(a, decode) || Parse(b, decode) == [])
  {
    if a == [] {
      assert a + b == b;
    } else {
      assert (a + b)[1..] == a[1..] + b;
      CutKeepsMessagesExactlyWhen(a[1..], b, decode);
      assert AllDecode(a, decode) <==> decode(a[0]) != Malformed && AllDecode(a[1..], decode) by {
        assert forall k :: 1 <= k < |a| ==> a[k] == a[1..][k - 1];
      }
      if decode(a[0]).Message? {
        var rest := Parse(a[1..], decode) + Parse(b, decode);
        assert Parse(a, decode) + Parse(b, decode) == [decode(a[0]).content] + rest;
        assert ([decode(a[0]).content] + rest)[1..] == rest;
        assert ([decode(a[0]).content] + Parse(a[1..] + b, decode))[1..] == Parse(a[1..] + b, decode);
      }
    }
  }

  /** Sending no empty batch changes no message. */
  lemma EmitFlattens<M>(parsed: seq<M>, rest: seq<seq<M>>)
    ensures Flatten(Emit(parsed) + rest) == parsed + Flatten(rest)
  {
    FlattenConcat(Emit(parsed), rest);
    FlattenFew(parsed, parsed);
  }

  /** Whatever follows an undecodable document in its own extraction, and only that, is
      silent: every extraction that meets one is followed by no message. */
  ghost predicate SilentAfterFailure<M>(groups: seq<seq<Bytes>>, decode: Bytes -> Decoded<M>) {
    groups == [] ||
    ((AllDecode(groups[0], decode) || Flatten(MessageBatches(groups[1..], decode)) == [])
     && SilentAfterFailure(groups[1..], decode))
  }

  lemma {:induction false} NothingLeftIsSilent<M>(groups: seq<seq<Bytes>>, decode: Bytes -> Decoded<M>)
    requires Flatten(MessageBatches(groups, decode)) == []
    ensures SilentAfterFailure(groups, decode)
  {
    if groups != [] {
      EmitFlattens(Parse(groups[0], decode), MessageBatches(groups[1..], decode));
      NothingLeftIsSilent(groups[1..], decode);
    }
  }

  /** An undecodable document in the first part silences the second. */
  lemma {:induction false} FailureSilences<M>(a: seq<Bytes>, b: seq<Bytes>, decode: Bytes -> Decoded<M>)
    requires !AllDecode(a, decode)
    ensures Parse(a + b, decode) == Parse(a, decode)
  {
    assert a != [];
    assert (a + b)[1..] == a[1..] + b;
    if decode(a[0]) != Malformed {
      assert !AllDecode(a[1..], decode) by {
        assert forall k :: 1 <= k < |a| ==> a[k] == a[1..][k - 1];
      }
      FailureSilences(a[1..], b, decode);
    }
  }

  /** Extracting in groups never loses a message of the one extraction, and gives
      exactly its messages if and only if every group after a failure is silent. */
  lemma {:induction false} GroupsParseWholeExactlyWhen<M>(groups: seq<seq<Bytes>>, decode: Bytes -> Decoded<M>)
    ensures Parse(Flatten(groups), decode) <= Flatten(MessageBatches(groups, decode))
    ensures Flatten(MessageBatches(groups, decode)) == Parse(Flatten(groups), decode)
            <==> SilentAfterFailure(groups, decode)
  {
    if groups != [] {
      var first, rest := groups[0], Flatten(groups[1..]);
      var parsed, later := Parse(first, decode), Flatten(MessageBatches(groups[1..], decode));
      EmitFlattens(parsed, MessageBatches(groups[1..], decode));
      GroupsParseWholeExactlyWhen(groups[1..], decode);
      if AllDecode(first, decode) {
        CutKeepsMessagesExactlyWhen(first, rest, decode);
        PrefixCancels(parsed, later, Parse(rest, decode));
      } else {
        FailureSilences(first, rest, decode);
        if later == [] { NothingLeftIsSilent(groups[1..], decode); }
      }
    }
  }

  /** From socket to messages, for every interleaving of parser callbacks with the
      worker's loop, every stream and every decoder. The documents extracted are those of
      one extraction over all delivered bytes exactly when no cut parted a match; then no
      message of that extraction is missing, and there are no others exactly when each
      extraction with an undecodable document was followed by no message. */
  lemma StreamedMessages<M>(events: seq<Event>, last: Event, decode: Bytes -> Decoded<M>)
    requires Runs(START, events) && Possible(After(START, events), last)
    requires Eager(events)
    requires !After(START, events).consumer.Returned? && Step(After(START, events), last).consumer.Returned?
    ensures var x := Step(After(START, events), last);
      var stream, packets := Flatten(x.received), Joined(x.yielded);
      var groups, sent := DocBatches([], packets), Flatten(Sent([], packets, decode));
      && (Flatten(groups) == Docs(stream) <==> CleanCuts([], packets))
      && (CleanCuts([], packets) ==> Parse(Docs(stream), decode) <= sent)
      && (CleanCuts([], packets) ==> (sent == Parse(Docs(stream), decode) <==> SilentAfterFailure(groups, decode)))
  {
    var x := Step(After(START, events), last);
    ReturnsWithEverything(events, last);
    JoinedFlattens(x.yielded);
    var stream, packets := Flatten(x.received), Joined(x.yielded);
    assert [] + stream == stream;
    ReadsKeepDocsExactlyWhen([], packets);
    SentIsBatches([], packets, decode);
    GroupsParseWholeExactlyWhen(DocBatches([], packets), decode);
  }
}
