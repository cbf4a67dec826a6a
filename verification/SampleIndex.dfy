/** The dense sample index: client rows are stored in file order while the scheduler's
    entries stand in conversation and turn order, and the index joins the two. */
module SampleIndex {
  import opened Collections
  import opened ConversationData
  import opened ConversationChecks
  import opened AgenticDataset

  datatype Sample = Sample(key: Key, messages: seq<Wire>)
  datatype Entry = Entry(key: Key, index: nat)
  datatype Loaded = Invalid | Loaded(data: seq<Sample>, entries: seq<Entry>)

  /** Keys of the scheduler's entries: per conversation, in turn order. */
  function EntryKeys(file: seq<Row>, convs: seq<string>): seq<Key> {
    if convs == [] then []
    else EntryKeys(file, convs[..|convs| - 1]) + ClientKeys(TurnOrder(file, convs[|convs| - 1]))
  }

  ghost predicate Valid(file: seq<Row>) {
    forall c :: c in Conversations(file) ==> Numbered(RowsFor(file, c))
  }

  // ---- entries and samples have the same keys, each once ----

  lemma {:induction false} KeysSame(a: seq<Row>, b: seq<Row>)
    requires multiset(a) == multiset(b)
    ensures multiset(ClientKeys(a)) == multiset(ClientKeys(b))
    decreases |a|
  {
    if a == [] {
      assert |multiset(b)| == |b|;
    } else {
      var r, front := a[|a| - 1], a[..|a| - 1];
      assert a == front + [r];
      var k := TakenOut(front, r, b);
      KeysSame(front, b[..k] + b[k + 1..]);
      KeysMove(b[..k], r, b[k + 1..]);
      ClientKeysAppend(front, r);
    }
  }

  /** The last element of a list stands somewhere in any permutation of it. */
  lemma TakenOut<T>(front: seq<T>, x: T, b: seq<T>) returns (k: nat)
    requires multiset(front + [x]) == multiset(b)
    ensures k < |b| && b == b[..k] + [x] + b[k + 1..]
    ensures multiset(front) == multiset(b[..k] + b[k + 1..])
  {
    assert (front + [x])[|front|] == x;
    assert x in multiset(b);
    k :| 0 <= k < |b| && b[k] == x;
    assert b == b[..k] + [x] + b[k + 1..];
    assert multiset(b) == multiset(b[..k]) + multiset{x} + multiset(b[k + 1..]);
    assert multiset(front + [x]) == multiset(front) + multiset{x};
    assert multiset(b[..k] + b[k + 1..]) == multiset(b) - multiset{x} == multiset(front);
  }

  /** Taking a row out of the middle takes its key out. */
  lemma {:induction false} KeysMove(front: seq<Row>, r: Row, back: seq<Row>)
    ensures multiset(ClientKeys(front + [r] + back))
         == multiset(ClientKeys(front + back)) + multiset(if IsClient(r.role) then [KeyOf(r)] else [])
  {
    if back == [] {
      assert front + [r] + back == front + [r] && front + back == front;
      ClientKeysAppend(front, r);
    } else {
      var n := |back| - 1;
      assert front + [r] + back == (front + [r] + back[..n]) + [back[n]];
      assert front + back == (front + back[..n]) + [back[n]];
      ClientKeysAppend(front + [r] + back[..n], back[n]);
      ClientKeysAppend(front + back[..n], back[n]);
      KeysMove(front, r, back[..n]);
    }
  }

  /** How often a key occurs among client rows. */
  function Count(rows: seq<Row>, key: Key): nat {
    multiset(ClientKeys(rows))[key]
  }

  function Own(r: Row, key: Key): nat {
    if IsClient(r.role) && KeyOf(r) == key then 1 else 0
  }

  lemma CountAppend(rows: seq<Row>, r: Row, key: Key)
    ensures Count(rows + [r], key) == Count(rows, key) + Own(r, key)
  {
    ClientKeysAppend(rows, r);
  }

  /** How often a key occurs in the listed conversations. */
  function CountIn(file: seq<Row>, convs: seq<string>, key: Key): nat {
    if convs == [] then 0
    else CountIn(file, convs[..|convs| - 1], key) + Count(RowsFor(file, convs[|convs| - 1]), key)
  }

  lemma CountInLast(file: seq<Row>, front: seq<string>, c: string, key: Key)
    ensures CountIn(file, front + [c], key) == CountIn(file, front, key) + Count(RowsFor(file, c), key)
  {
    assert (front + [c])[..|front|] == front;
  }

  lemma {:induction false} EntryKeysCount(file: seq<Row>, convs: seq<string>, key: Key)
    ensures multiset(EntryKeys(file, convs))[key] == CountIn(file, convs, key)
  {
    if convs != [] {
      var c := convs[|convs| - 1];
      EntryKeysCount(file, convs[..|convs| - 1], key);
      SortByTurnOk(RowsFor(file, c));
      KeysSame(TurnOrder(file, c), RowsFor(file, c));
    }
  }

  lemma GroupAppend(file: seq<Row>, r: Row, c: string, key: Key)
    ensures Count(RowsFor(file + [r], c), key)
         == Count(RowsFor(file, c), key) + if r.conv == c then Own(r, key) else 0
  {
    assert (file + [r])[..|file|] == file;
    assert RowsFor(file, c) + [] == RowsFor(file, c);
    CountAppend(RowsFor(file, c), r, key);
  }

  /** One more row of the file adds its key to its own conversation only. */
  lemma {:induction false} CountInAppend(file: seq<Row>, r: Row, convs: seq<string>, key: Key)
    requires Distinct(convs)
    ensures CountIn(file + [r], convs, key) == CountIn(file, convs, key) + if r.conv in convs then Own(r, key) else 0
  {
    if convs != [] {
      var n := |convs| - 1;
      CountInAppend(file, r, convs[..n], key);
      GroupAppend(file, r, convs[n], key);
      assert r.conv in convs <==> r.conv in convs[..n] || r.conv == convs[n];
    }
  }

  lemma {:induction false} NewConversationIsEmpty(file: seq<Row>, conv: string)
    requires conv !in Conversations(file)
    ensures RowsFor(file, conv) == []
  {
    if file != [] { NewConversationIsEmpty(file[..|file| - 1], conv); }
  }

  lemma {:induction false} ConversationsDistinct(file: seq<Row>)
    ensures Distinct(Conversations(file))
  {
    if file != [] { ConversationsDistinct(file[..|file| - 1]); }
  }

  /** The first row of a conversation is counted there. */
  lemma NewConversationCount(front: seq<Row>, r: Row, before: seq<string>, key: Key)
    requires r.conv !in Conversations(front)
    ensures CountIn(front + [r], before + [r.conv], key) == CountIn(front + [r], before, key) + Own(r, key)
  {
    CountInLast(front + [r], before, r.conv, key);
    GroupAppend(front, r, r.conv, key);
    NewConversationIsEmpty(front, r.conv);
    assert Count([], key) == 0;
  }

  lemma ConversationsNext(front: seq<Row>, r: Row)
    ensures var before := Conversations(front);
      Conversations(front + [r]) == if r.conv in before then before else before + [r.conv]
  {
    assert (front + [r])[..|front|] == front;
  }

  lemma CountInNext(front: seq<Row>, r: Row, key: Key)
    ensures CountIn(front + [r], Conversations(front + [r]), key)
         == CountIn(front, Conversations(front), key) + Own(r, key)
  {
    var before := Conversations(front);
    ConversationsNext(front, r);
    ConversationsDistinct(front);
    CountInAppend(front, r, before, key);
    if r.conv !in before { NewConversationCount(front, r, before, key); }
  }

  /** Counted conversation by conversation, the key occurs as often as in the file. */
  ghost predicate Balanced(file: seq<Row>, key: Key) {
    CountIn(file, Conversations(file), key) == Count(file, key)
  }

  lemma BalancedNext(front: seq<Row>, r: Row, key: Key)
    requires Balanced(front, key)
    ensures Balanced(front + [r], key)
  {
    CountInNext(front, r, key);
    CountAppend(front, r, key);
  }

  lemma {:induction false} ConversationsCount(file: seq<Row>, key: Key)
    ensures Balanced(file, key)
  {
    if file == [] {
      assert Count([], key) == 0;
    } else {
      var front, r := file[..|file| - 1], file[|file| - 1];
      ConversationsCount(front, key);
      BalancedNext(front, r, key);
      assert file == front + [r];
    }
  }

  lemma {:induction false} KeysOfOne(rows: seq<Row>, conv: string, key: Key)
    requires forall k :: 0 <= k < |rows| ==> rows[k].conv == conv
    ensures key.0 != conv ==> multiset(ClientKeys(rows))[key] == 0
    ensures InTurnOrder(rows) ==> multiset(ClientKeys(rows))[key] <= 1
    ensures InTurnOrder(rows) && rows != [] && key.1 > rows[|rows| - 1].turn ==> multiset(ClientKeys(rows))[key] == 0
  {
    if rows != [] {
      var n := |rows| - 1;
      KeysOfOne(rows[..n], conv, key);
      assert InTurnOrder(rows) && n > 0 ==> rows[..n][n - 1].turn < rows[n].turn;
      assert multiset(ClientKeys(rows))
          == multiset(ClientKeys(rows[..n])) + multiset(if IsClient(rows[n].role) then [KeyOf(rows[n])] else []);
    }
  }

  lemma {:induction false} CountOnce(file: seq<Row>, convs: seq<string>, key: Key)
    requires Distinct(convs) && forall c :: c in convs ==> Numbered(RowsFor(file, c))
    ensures CountIn(file, convs, key) <= 1
    ensures key.0 !in convs ==> CountIn(file, convs, key) == 0
  {
    if convs != [] {
      var n := |convs| - 1;
      var c := convs[n];
      assert c in convs;
      CountOnce(file, convs[..n], key);
      TurnOrderOk(file, c);
      KeysOfOne(TurnOrder(file, c), c, key);
      KeysSame(TurnOrder(file, c), RowsFor(file, c));
      assert key.0 in convs <==> key.0 in convs[..n] || key.0 == c;
    }
  }

  lemma OnceIsDistinct<T>(s: seq<T>)
    requires forall x :: x in s ==> multiset(s)[x] <= 1
    ensures Distinct(s)
  {
    forall i, j | 0 <= i < j < |s| ensures s[i] != s[j] {
      assert s == s[..j] + [s[j]] + s[j + 1..];
      assert multiset(s) == multiset(s[..j]) + multiset{s[j]} + multiset(s[j + 1..]);
      assert s[i] == s[..j][i];
      assert multiset(s[..j])[s[i]] >= 1 && multiset{s[j]}[s[j]] == 1;
      assert multiset(s)[s[j]] <= 1 by { assert s[j] in s; }
    }
  }

  lemma SameElements(a: seq<Key>, b: seq<Key>)
    requires multiset(a) == multiset(b)
    ensures Elements(a) == Elements(b) && |a| == |b|
  {
    assert |multiset(a)| == |a| && |multiset(b)| == |b|;
    forall x ensures x in a <==> x in b {
      assert x in a <==> x in multiset(a);
      assert x in b <==> x in multiset(b);
    }
  }

  /** Entries and samples list the same client turns, each exactly once. */
  lemma KeysMatch(file: seq<Row>)
    requires Valid(file)
    ensures var entries, samples := EntryKeys(file, Conversations(file)), ClientKeys(file);
      Distinct(entries) && Distinct(samples) && Elements(entries) == Elements(samples) && |entries| == |samples|
  {
    var convs := Conversations(file);
    ConversationsDistinct(file);
    var entries, samples := EntryKeys(file, convs), ClientKeys(file);
    forall key ensures multiset(entries)[key] == multiset(samples)[key] <= 1 {
      EntryKeysCount(file, convs, key);
      ConversationsCount(file, key);
      CountOnce(file, convs, key);
    }
    OnceIsDistinct(entries);
    OnceIsDistinct(samples);
    SameElements(entries, samples);
  }

  // ---- loading ----

  lemma {:induction false} KeysKeepConversation(rows: seq<Row>, conv: string)
    requires forall k :: 0 <= k < |rows| ==> rows[k].conv == conv
    ensures forall key :: key in ClientKeys(rows) ==> key.0 == conv
    ensures forall key :: key in ClientKeys(rows) ==>
      exists k :: 0 <= k < |rows| && IsClient(rows[k].role) && KeyOf(rows[k]) == key
  {
    if rows != [] {
      KeysKeepConversation(rows[..|rows| - 1], conv);
      forall key | key in ClientKeys(rows)
        ensures exists k :: 0 <= k < |rows| && IsClient(rows[k].role) && KeyOf(rows[k]) == key
      {
        if key in ClientKeys(rows[..|rows| - 1]) {
          var k :| 0 <= k < |rows| - 1 && IsClient(rows[..|rows| - 1][k].role) && KeyOf(rows[..|rows| - 1][k]) == key;
          assert rows[k] == rows[..|rows| - 1][k];
        }
      }
    }
  }

  /** The messages a client turn must be sent: its conversation's system prompt, every
      earlier row in turn order, and its own. */
  ghost predicate SentTo(file: seq<Row>, key: Key, messages: seq<Wire>) {
    var rows := TurnOrder(file, key.0);
    exists k :: 0 <= k < |rows| && IsClient(rows[k].role) && KeyOf(rows[k]) == key
                && History(rows, k + 1) == Some(Sent(rows, k))
                && messages == SystemWire(SystemOf(rows)) + Sent(rows, k)
  }

  function Sent(rows: seq<Row>, k: nat): seq<Wire>
    requires k < |rows|
  {
    match History(rows, k + 1) case Some(h) => h case None => []
  }

  lemma BuiltIsSent(file: seq<Row>, conv: string, prebuilt: map<Key, seq<Wire>>, key: Key)
    requires Numbered(RowsFor(file, conv))
    requires Snapshots(TurnOrder(file, conv), prebuilt, |TurnOrder(file, conv)|)
    requires key in ClientKeys(TurnOrder(file, conv)) && key in prebuilt
    ensures key.0 == conv && SentTo(file, key, prebuilt[key])
  {
    var rows := TurnOrder(file, conv);
    assert forall k :: 0 <= k < |rows| ==> rows[k].conv == conv by { TurnOrderOk(file, conv); }
    KeysKeepConversation(rows, conv);
    var k :| 0 <= k < |rows| && IsClient(rows[k].role) && KeyOf(rows[k]) == key;
    assert SnapshotAt(rows, prebuilt, k);
  }

  ghost predicate AllFormat(file: seq<Row>, convs: seq<string>) {
    forall c :: c in convs ==> Formats(file, c)
  }

  ghost predicate Formats(file: seq<Row>, conv: string) {
    History(TurnOrder(file, conv), |TurnOrder(file, conv)|).Some?
  }

  lemma EntryKeysNext(file: seq<Row>, convs: seq<string>, n: nat)
    requires n < |convs|
    ensures EntryKeys(file, convs[..n + 1]) == EntryKeys(file, convs[..n]) + ClientKeys(TurnOrder(file, convs[n]))
  {
    assert convs[..n + 1][..n] == convs[..n];
  }

  lemma AllBuiltAreSent(file: seq<Row>, conv: string, prebuilt: map<Key, seq<Wire>>)
    requires Numbered(RowsFor(file, conv))
    requires Snapshots(TurnOrder(file, conv), prebuilt, |TurnOrder(file, conv)|)
    requires prebuilt.Keys == Elements(ClientKeys(TurnOrder(file, conv)))
    ensures AllSent(file, prebuilt)
  {
    forall key | key in prebuilt ensures SentTo(file, key, prebuilt[key]) {
      assert key in prebuilt.Keys;
      BuiltIsSent(file, conv, prebuilt, key);
    }
  }

  ghost predicate AllSent(file: seq<Row>, prebuilt: map<Key, seq<Wire>>) {
    forall key :: key in prebuilt ==> SentTo(file, key, prebuilt[key])
  }

  lemma AllSentUnion(file: seq<Row>, a: map<Key, seq<Wire>>, b: map<Key, seq<Wire>>)
    requires AllSent(file, a) && AllSent(file, b)
    ensures AllSent(file, a + b)
  {
  }

  /** One more conversation of the file. */
  method AddConversation(file: seq<Row>, c: string, prebuilt: map<Key, seq<Wire>>, keys: seq<Key>)
    returns (meta: Metadata)
    requires Numbered(RowsFor(file, c)) && AllSent(file, prebuilt) && prebuilt.Keys == Elements(keys)
    ensures meta.BadRow? <==> !Formats(file, c)
    ensures meta.Metadata? ==> meta.keys == keys + ClientKeys(TurnOrder(file, c))
    ensures meta.Metadata? ==> meta.prebuilt.Keys == Elements(meta.keys) && AllSent(file, meta.prebuilt)
  {
    TurnOrderOk(file, c);
    var built := BuildConversation(TurnOrder(file, c));
    if built.Failed? { return BadRow; }
    AllBuiltAreSent(file, c, built.prebuilt);
    ElementsConcat(keys, built.samples);
    AllSentUnion(file, prebuilt, built.prebuilt);
    return Metadata(prebuilt + built.prebuilt, keys + built.samples);
  }

  datatype Metadata = BadRow | Metadata(prebuilt: map<Key, seq<Wire>>, keys: seq<Key>)

  /** The per-conversation passes, in order of first appearance. */
  method BuildMetadata(file: seq<Row>) returns (meta: Metadata)
    requires Valid(file)
    ensures meta.BadRow? <==> !AllFormat(file, Conversations(file))
    ensures meta.Metadata? ==> meta.keys == EntryKeys(file, Conversations(file))
    ensures meta.Metadata? ==> meta.prebuilt.Keys == Elements(meta.keys)
    ensures meta.Metadata? ==> AllSent(file, meta.prebuilt)
  {
    var convs := Conversations(file);
    ConversationsDistinct(file);
    var prebuilt: map<Key, seq<Wire>> := map[];
    var keys: seq<Key> := [];
    for n := 0 to |convs|
      invariant keys == EntryKeys(file, convs[..n]) && prebuilt.Keys == Elements(keys)
      invariant AllSent(file, prebuilt)
      invariant forall k :: 0 <= k < n ==> Formats(file, convs[k])
    {
      var c := convs[n];
      assert c in convs;
      var more := AddConversation(file, c, prebuilt, keys);
      if more.BadRow? { return BadRow; }
      EntryKeysNext(file, convs, n);
      prebuilt, keys := more.prebuilt, more.keys;
    }
    assert convs[..|convs|] == convs;
    return Metadata(prebuilt, keys);
  }

  ghost predicate Used(entries: seq<Entry>, i: nat) {
    exists e :: 0 <= e < |entries| && entries[e].index == i
  }

  ghost predicate Leads(data: seq<Sample>, entry: Entry) {
    entry.index < |data| && data[entry.index].key == entry.key
  }

  /** Samples and entries agree: the entries' indices are the sample positions 0..n-1,
      each used once, and each leads to the sample of the same client turn. */
  ghost predicate Indexed(data: seq<Sample>, entries: seq<Entry>) {
    && |entries| == |data|
    && (forall e :: 0 <= e < |entries| ==> Leads(data, entries[e]))
    && (forall e, f :: 0 <= e < f < |entries| ==> entries[e].index != entries[f].index)
    && (forall i :: 0 <= i < |data| ==> Used(entries, i))
  }

  function SampleKeys(data: seq<Sample>): (keys: seq<Key>)
    ensures |keys| == |data| && forall i :: 0 <= i < |data| ==> keys[i] == data[i].key
  {
    seq(|data|, i requires 0 <= i < |data| => data[i].key)
  }

  /** One sample per client row, in file order, with its position by key. */
  method StoreSamples(file: seq<Row>, prebuilt: map<Key, seq<Wire>>)
    returns (data: seq<Sample>, position: map<Key, nat>)
    requires Elements(ClientKeys(file)) <= prebuilt.Keys
    ensures SampleKeys(data) == ClientKeys(file)
    ensures forall i :: 0 <= i < |data| ==> data[i].key in prebuilt && data[i].messages == prebuilt[data[i].key]
    ensures position.Keys == Elements(ClientKeys(file))
    ensures forall key :: key in position ==> Leads(data, Entry(key, position[key]))
  {
    data, position := [], map[];
    for n := 0 to |file|
      invariant SampleKeys(data) == ClientKeys(file[..n])
      invariant forall i :: 0 <= i < |data| ==> data[i].key in prebuilt && data[i].messages == prebuilt[data[i].key]
      invariant position.Keys == Elements(ClientKeys(file[..n]))
      invariant forall key :: key in position ==> Leads(data, Entry(key, position[key]))
    {
      ClientKeysNext(file, n);
      var row := file[n];
      if IsClient(row.role) {
        KeyListed(file, n);
        assert KeyOf(row) in Elements(ClientKeys(file));
        var sample := Sample(KeyOf(row), prebuilt[KeyOf(row)]);
        assert SampleKeys(data + [sample]) == SampleKeys(data) + [KeyOf(row)];
        position := position[KeyOf(row) := |data|];
        data := data + [sample];
      }
    }
    assert file[..|file|] == file;
  }

  /** Gives every entry whose turn was stored the position of its sample. */
  method BackfillIndex(keys: seq<Key>, position: map<Key, nat>, ghost data: seq<Sample>) returns (entries: seq<Entry>)
    requires Elements(keys) <= position.Keys
    requires forall key :: key in position ==> Leads(data, Entry(key, position[key]))
    ensures EntriesFollow(entries, keys)
    ensures forall e :: 0 <= e < |entries| ==> Leads(data, entries[e])
  {
    entries := [];
    for e := 0 to |keys|
      invariant |entries| == e
      invariant forall f :: 0 <= f < e ==> entries[f].key == keys[f] && Leads(data, entries[f])
    {
      assert keys[e] in Elements(keys);
      entries := entries + [Entry(keys[e], position[keys[e]])];
    }
  }

  method Load(file: seq<Row>) returns (loaded: Loaded)
    requires Valid(file)
    ensures loaded.Invalid? <==> file == [] || !AllFormat(file, Conversations(file))
    ensures loaded.Loaded? ==> Indexed(loaded.data, loaded.entries)
    ensures loaded.Loaded? ==> SampleKeys(loaded.data) == ClientKeys(file)
    ensures loaded.Loaded? ==>
      forall i :: 0 <= i < |loaded.data| ==> SentTo(file, loaded.data[i].key, loaded.data[i].messages)
    ensures loaded.Loaded? ==> EntriesFollow(loaded.entries, EntryKeys(file, Conversations(file)))
  {
    if file == [] { return Invalid; }
    var meta := BuildMetadata(file);
    if meta.BadRow? { return Invalid; }
    KeysMatch(file);
    var data, position := StoreSamples(file, meta.prebuilt);
    var entries := BackfillIndex(meta.keys, position, data);
    IndexIsBijection(data, entries, meta.keys);
    return Loaded(data, entries);
  }

  ghost predicate EntriesFollow(entries: seq<Entry>, keys: seq<Key>) {
    |entries| == |keys| && forall e :: 0 <= e < |entries| ==> entries[e].key == keys[e]
  }

  /** A client row's key is among the keys of its file. */
  lemma {:induction false} KeyListed(file: seq<Row>, n: nat)
    requires n < |file| && IsClient(file[n].role)
    ensures KeyOf(file[n]) in ClientKeys(file)
  {
    if n < |file| - 1 {
      KeyListed(file[..|file| - 1], n);
    }
  }

  lemma IndexIsBijection(data: seq<Sample>, entries: seq<Entry>, keys: seq<Key>)
    requires Distinct(keys) && Distinct(SampleKeys(data)) && Elements(keys) == Elements(SampleKeys(data))
    requires |keys| == |data| && EntriesFollow(entries, keys)
    requires forall e :: 0 <= e < |entries| ==> Leads(data, entries[e])
    ensures Indexed(data, entries)
  {
    forall i | 0 <= i < |data| ensures Used(entries, i) {
      assert SampleKeys(data)[i] in Elements(keys);
      var e :| 0 <= e < |keys| && keys[e] == SampleKeys(data)[i];
      assert Leads(data, entries[e]);
      assert SampleKeys(data)[entries[e].index] == SampleKeys(data)[i];
    }
    forall e, f | 0 <= e < f < |entries| ensures entries[e].index != entries[f].index {
      assert Leads(data, entries[e]) && Leads(data, entries[f]);
      assert keys[e] != keys[f];
    }
  }

  // ---- from the file: validators first, then the load

  function ConversationIds(file: seq<Row>): (ids: seq<Option<string>>)
    ensures |ids| == |file| && forall k :: 0 <= k < |ids| ==> ids[k] == Some(file[k].conv)
  {
    seq(|file|, k requires 0 <= k < |file| => Some(file[k].conv))
  }

  ghost predicate StructureOk(file: seq<Row>, convs: seq<string>) {
    convs == [] || (WellFormed(TurnOrder(file, convs[0])) && StructureOk(file, convs[1..]))
  }

  ghost predicate NumberingOk(file: seq<Row>, convs: seq<string>) {
    convs == [] || (Numbered(RowsFor(file, convs[0])) && NumberingOk(file, convs[1..]))
  }

  /** What the constructor accepts. */
  ghost predicate Accepted(file: seq<Row>) {
    && GroupingOk(ConversationIds(file))
    && StructureOk(file, Conversations(file)) && NumberingOk(file, Conversations(file))
  }

  lemma {:induction false} NumberingOfAll(file: seq<Row>, convs: seq<string>)
    requires NumberingOk(file, convs)
    ensures forall c :: c in convs ==> Numbered(RowsFor(file, c))
  {
    if convs != [] { NumberingOfAll(file, convs[1..]); }
  }

  method ValidateStructures(file: seq<Row>, convs: seq<string>) returns (ok: bool)
    ensures ok <==> StructureOk(file, convs)
  {
    var rest := convs;
    while rest != []
      invariant StructureOk(file, convs) <==> StructureOk(file, rest)
      decreases |rest|
    {
      ok := ValidateStructure(TurnOrder(file, rest[0]));
      if !ok { return; }
      rest := rest[1..];
    }
    return true;
  }

  method ValidateNumberings(file: seq<Row>, convs: seq<string>) returns (ok: bool)
    ensures ok <==> NumberingOk(file, convs)
  {
    var rest := convs;
    while rest != []
      invariant NumberingOk(file, convs) <==> NumberingOk(file, rest)
      decreases |rest|
    {
      ok := ValidateTurnNumbering(RowsFor(file, rest[0]));
      if !ok { return; }
      rest := rest[1..];
    }
    return true;
  }

  method Validate(file: seq<Row>) returns (ok: bool)
    ensures ok <==> Accepted(file)
  {
    ok := ValidateGrouping(ConversationIds(file));
    if ok { ok := ValidateStructures(file, Conversations(file)); }
    if ok { ok := ValidateNumberings(file, Conversations(file)); }
  }

  // ---- which accepted files load

  /** Every tool result of the row has a call id and a content. */
  predicate ResultsComplete(r: Row) {
    r.toolResults.Some? ==> forall x :: x in r.toolResults.value ==> Complete(x)
  }

  lemma {:induction false} HistoryExactlyWhen(rows: seq<Row>, n: nat)
    requires n <= |rows|
    ensures History(rows, n).Some? <==> forall k :: 0 <= k < n ==> ResultsComplete(rows[k])
  {
    if n > 0 {
      HistoryExactlyWhen(rows, n - 1);
      assert Format(rows[n - 1]).Some? <==> ResultsComplete(rows[n - 1]);
    }
  }

  lemma FormatsExactlyWhen(file: seq<Row>, conv: string)
    ensures Formats(file, conv) <==> forall r :: r in file && r.conv == conv ==> ResultsComplete(r)
  {
    var rows := TurnOrder(file, conv);
    HistoryExactlyWhen(rows, |rows|);
    TurnOrderOk(file, conv);
    RowsForOk(file, conv);
    forall r ensures r in rows <==> r in file && r.conv == conv {
      assert r in rows <==> r in multiset(rows);
      assert r in RowsFor(file, conv) <==> r in multiset(RowsFor(file, conv));
    }
  }

  /** All conversations format exactly when no row of the file has an incomplete result. */
  lemma AllFormatExactlyWhen(file: seq<Row>)
    ensures AllFormat(file, Conversations(file)) <==> forall r :: r in file ==> ResultsComplete(r)
  {
    forall c ensures Formats(file, c) <==> forall r :: r in file && r.conv == c ==> ResultsComplete(r) {
      FormatsExactlyWhen(file, c);
    }
    forall r | r in file ensures r.conv in Conversations(file) {
      if r.conv !in Conversations(file) {
        NewConversationIsEmpty(file, r.conv);
        RowsForOk(file, r.conv);
        assert false;
      }
    }
  }

  /** A file either is refused, by a validator or for a tool result without an id or a
      content, or becomes samples with a bijective index, each sample carrying what its
      client turn is sent. */
  method OpenAndLoad(file: seq<Row>) returns (loaded: Loaded)
    ensures loaded.Loaded? <==> Accepted(file) && file != [] && forall r :: r in file ==> ResultsComplete(r)
    ensures loaded.Loaded? ==> Indexed(loaded.data, loaded.entries) && SampleKeys(loaded.data) == ClientKeys(file)
    ensures loaded.Loaded? ==>
      forall i :: 0 <= i < |loaded.data| ==> SentTo(file, loaded.data[i].key, loaded.data[i].messages)
    ensures loaded.Loaded? ==> EntriesFollow(loaded.entries, EntryKeys(file, Conversations(file)))
  {
    var ok := Validate(file);
    if !ok { return Invalid; }
    NumberingOfAll(file, Conversations(file));
    AllFormatExactlyWhen(file);
    loaded := Load(file);
  }
}
