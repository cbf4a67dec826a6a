/** Replaying a generated log through the series rebuild recovers the planted times, one
    per sample. */
module LogReplay {
  import opened Collections
  import opened EventSeries
  import opened ClosedLoop
  import opened EventGenerator
  import opened EventOrder
  import opened Sorting

  /** Samples numbered in order, issued inside the window, with causal times. */
  ghost predicate Replayable(samples: seq<Sample>, start: int, end: int) {
    forall k :: 0 <= k < |samples| ==> InWindow(samples[k], k, start, end)
  }

  predicate InWindow(s: Sample, id: nat, start: int, end: int) {
    s.id == id && start <= s.issue < end && s.issue <= s.recv <= s.complete && s.tokens >= 2
  }

  /** A sample event of one of the samples. */
  predicate Belongs(e: Event, samples: seq<Sample>) {
    HasUuid(e) && e.uuid.value < |samples| && e in Emitted(samples[e.uuid.value])
  }

  lemma {:induction false} EmittedExactly(samples: seq<Sample>, start: int, end: int)
    requires Replayable(samples, start, end)
    ensures Distinct(AllEmitted(samples))
    ensures forall e :: e in AllEmitted(samples) <==> Belongs(e, samples)
  {
    if samples != [] {
      var n := |samples| - 1;
      EmittedExactly(samples[..n], start, end);
      forall e ensures e in AllEmitted(samples) <==> Belongs(e, samples) {
        assert e in AllEmitted(samples[..n]) <==> Belongs(e, samples[..n]);
      }
      assert forall e :: e in AllEmitted(samples[..n]) ==> Belongs(e, samples[..n]);
      assert forall e :: e in Emitted(samples[n]) ==> !Belongs(e, samples[..n]);
      DistinctConcat(AllEmitted(samples[..n]), Emitted(samples[n]));
    }
  }

  /** What is known of the sorted log. */
  ghost predicate Orders(log: seq<Event>, samples: seq<Sample>, start: int, end: int) {
    && Replayable(samples, start, end) && Sorted(log) && Distinct(log)
    && forall e :: e in log <==> (e == StartTracking(start) || e == StopTracking(end) || Belongs(e, samples))
  }

  lemma LogOnce(samples: seq<Sample>, start: int, end: int)
    requires Replayable(samples, start, end)
    ensures Distinct(Log(start, end, samples))
    ensures forall e :: e in Log(start, end, samples)
                        <==> (e == StartTracking(start) || e == StopTracking(end) || Belongs(e, samples))
  {
    EmittedExactly(samples, start, end);
    var sent := AllEmitted(samples);
    assert StartTracking(start) !in sent && StopTracking(end) !in sent;
    DistinctConcat([StartTracking(start)], sent);
    DistinctConcat([StartTracking(start)] + sent, [StopTracking(end)]);
  }

  lemma SortedLogOrders(samples: seq<Sample>, start: int, end: int)
    requires Replayable(samples, start, end)
    ensures Orders(Sort(Log(start, end, samples)), samples, start, end)
  {
    var log := Log(start, end, samples);
    LogOnce(samples, start, end);
    assert Sorted(Sort(log)) by { SortSorts(log); }
    SortKeeps(log);
    forall e ensures e in Sort(log) <==> (e == StartTracking(start) || e == StopTracking(end) || Belongs(e, samples)) {
      assert e in Elements(Sort(log)) <==> e in Elements(log);
    }
  }

  lemma {:induction false} TrackingHolds(log: seq<Event>, p: nat, k: nat)
    requires p < k <= |log| && log[p].StartTracking?
    requires forall i :: p < i < k ==> !log[i].StopTracking?
    ensures Tracking(log, k)
  {
    if p < k - 1 { TrackingHolds(log, p, k - 1); }
  }

  /** A sample's issue happens in the window, before its other events, and stays open until
      its completion. */
  lemma OpenUntilComplete(log: seq<Event>, samples: seq<Sample>, start: int, end: int, id: nat, k: nat) returns (j: nat)
    requires Orders(log, samples, start, end) && k < |log| && id < |samples|
    requires log[k] in Emitted(samples[id]) && !log[k].Issued?
    ensures j < k && log[j] == Issued(Some(id), samples[id].issue) && OpenIssue(log, id, k) == Some(j)
  {
    var s := samples[id];
    var issue := Issued(Some(id), s.issue);
    assert Belongs(issue, samples) && StartTracking(start) in log;
    j :| 0 <= j < |log| && log[j] == issue;
    var p :| 0 <= p < |log| && log[p] == StartTracking(start);
    assert !Before(log[k], log[j]) && !Before(log[j], log[p]);
    assert !Before(StopTracking(end), issue);
    forall i | 0 <= i < j ensures !log[i].StopTracking? {
      assert Before(log[i], log[j]) && log[i] in log;
    }
    TrackingHolds(log, p, j);
    assert !CompletedBetween(log, id, j, k) by {
      forall i | j <= i < k ensures !(log[i].Complete? && Of(log[i], id)) {
        assert log[i] in log && log[i] != log[k] && Before(log[i], log[k]);
      }
    }
    forall i | j < i < k ensures !InWindowIssue(log, id, i) {
      assert log[i] in log && log[i] != log[j];
    }
    OpenIssueExactly(log, id, k, j);
  }

  /** Just before a sample's completion its row holds its issue and first-chunk times; just
      before its first chunk it holds its issue time. */
  lemma RowInReplay(log: seq<Event>, samples: seq<Sample>, start: int, end: int, id: nat, k: nat)
    requires Orders(log, samples, start, end) && k < |log| && id < |samples|
    requires log[k] in Emitted(samples[id]) && !log[k].Issued?
    ensures var row := RowAt(log, id, k);
      row.Some? && row.value.issued == samples[id].issue
      && (log[k].Complete? ==> row.value.recvFirst == Some(samples[id].recv))
  {
    var j := OpenUntilComplete(log, samples, start, end, id, k);
    if log[k].Complete? {
      var recv := RecvFirst(Some(id), samples[id].recv);
      assert Belongs(recv, samples);
      var m :| 0 <= m < |log| && log[m] == recv;
      assert !Before(log[k], log[m]);
      var j' := OpenUntilComplete(log, samples, start, end, id, m);
      assert !CompletedBetween(log, id, m, k) by {
        forall i | m <= i < k ensures !(log[i].Complete? && Of(log[i], id)) {
          assert log[i] in log && log[i] != log[k];
        }
      }
      forall i | m < i < k ensures !ChunkOfOpen(log, id, i) {
        assert log[i] in log && log[i] != log[m];
      }
      FirstChunkExactly(log, id, k, m);
    }
  }

  // ---- Per-event contributions, whatever the order of the events

  function Each<T>(f: Event -> seq<T>, log: seq<Event>): seq<T> {
    if log == [] then [] else f(log[0]) + Each(f, log[1..])
  }

  lemma {:induction false} EachConcat<T>(f: Event -> seq<T>, a: seq<Event>, b: seq<Event>)
    ensures Each(f, a + b) == Each(f, a) + Each(f, b)
  {
    if a == [] {
      assert a + b == b;
    } else {
      assert (a + b)[1..] == a[1..] + b;
      EachConcat(f, a[1..], b);
    }
  }

  lemma EachNext<T>(f: Event -> seq<T>, log: seq<Event>, k: nat)
    requires k < |log|
    ensures Each(f, log[..k + 1]) == Each(f, log[..k]) + f(log[k])
  {
    assert log[..k + 1] == log[..k] + [log[k]];
    EachConcat(f, log[..k], [log[k]]);
    assert Each(f, [log[k]]) == f([log[k]][0]) + Each(f, [log[k]][1..]);
  }

  lemma {:induction false} InsertContributes<T>(f: Event -> seq<T>, key: Event -> int, e: Event, log: seq<Event>)
    ensures multiset(Each(f, InsertBy(key, e, log))) == multiset(f(e)) + multiset(Each(f, log))
  {
    if log == [] || key(e) < key(log[0]) {
      assert ([e] + log)[1..] == log;
    } else {
      InsertContributes(f, key, e, log[1..]);
      assert ([log[0]] + InsertBy(key, e, log[1..]))[1..] == InsertBy(key, e, log[1..]);
    }
  }

  /** Sorting a log permutes what its events contribute. */
  lemma {:induction false} SortContributes<T>(f: Event -> seq<T>, key: Event -> int, log: seq<Event>)
    ensures multiset(Each(f, SortBy(key, log))) == multiset(Each(f, log))
  {
    if log != [] {
      var n := |log| - 1;
      SortContributes(f, key, log[..n]);
      InsertContributes(f, key, log[n], SortBy(key, log[..n]));
      EachNext(f, log, n);
      assert log[..n + 1] == log;
    }
  }

  function PerSample<T>(g: Sample -> T, samples: seq<Sample>): (r: seq<T>)
    ensures |r| == |samples| && forall k :: 0 <= k < |r| ==> r[k] == g(samples[k])
  {
    if samples == [] then [] else PerSample(g, samples[..|samples| - 1]) + [g(samples[|samples| - 1])]
  }

  /** `f` takes one value, `g`'s, from the three events of each sample. */
  ghost predicate OneOf<T>(f: Event -> seq<T>, g: Sample -> T, samples: seq<Sample>) {
    forall k :: 0 <= k < |samples| ==> Each(f, Emitted(samples[k])) == [g(samples[k])]
  }

  lemma {:induction false} EmittedContributes<T>(f: Event -> seq<T>, g: Sample -> T, samples: seq<Sample>)
    requires OneOf(f, g, samples)
    ensures Each(f, AllEmitted(samples)) == PerSample(g, samples)
  {
    if samples != [] {
      var n := |samples| - 1;
      EmittedContributes(f, g, samples[..n]);
      EachConcat(f, AllEmitted(samples[..n]), Emitted(samples[n]));
    }
  }

  lemma LogContributes<T>(f: Event -> seq<T>, g: Sample -> T, samples: seq<Sample>, start: int, end: int)
    requires OneOf(f, g, samples) && f(StartTracking(start)) == f(StopTracking(end)) == []
    ensures multiset(Each(f, Sort(Log(start, end, samples)))) == multiset(PerSample(g, samples))
  {
    var first, last := [StartTracking(start)], [StopTracking(end)];
    SortContributes(f, OrderKey(), Log(start, end, samples));
    EachConcat(f, first + AllEmitted(samples), last);
    EachConcat(f, first, AllEmitted(samples));
    EmittedContributes(f, g, samples);
    assert Each(f, first) == f(first[0]) + Each(f, first[1..]) && Each(f, last) == f(last[0]) + Each(f, last[1..]);
  }

  // ---- The planted series

  function Known(samples: seq<Sample>, e: Event): Option<Row> {
    if HasUuid(e) && e.uuid.value < |samples| then
      var s := samples[e.uuid.value]; Some(Row(s.issue, Some(s.recv)))
    else None
  }

  function LatencyIn(samples: seq<Sample>): Event -> seq<int> {
    e => LatencyOf(Known(samples, e), e)
  }

  function FirstTokenIn(samples: seq<Sample>): Event -> seq<int> {
    e => FirstTokenOf(Known(samples, e), e)
  }

  function RateIn(samples: seq<Sample>, one: string -> int): Event -> seq<Rate> {
    e => PerToken(MeasureOf(Known(samples, e), e), one)
  }

  lemma KnownSuffices(log: seq<Event>, samples: seq<Sample>, start: int, end: int, k: nat)
    requires Orders(log, samples, start, end) && k < |log|
    ensures var row, e := RowBefore(log, k), log[k];
      LatencyOf(row, e) == LatencyIn(samples)(e) && FirstTokenOf(row, e) == FirstTokenIn(samples)(e)
      && MeasureOf(row, e) == MeasureOf(Known(samples, e), e)
  {
    var e := log[k];
    assert e in log;
    if Belongs(e, samples) && !e.Issued? { RowInReplay(log, samples, start, end, e.uuid.value, k); }
  }

  lemma {:induction false} LatenciesAreKnown(log: seq<Event>, samples: seq<Sample>, start: int, end: int, k: nat)
    requires Orders(log, samples, start, end) && k <= |log|
    ensures Latencies(log, k) == Each(LatencyIn(samples), log[..k])
  {
    if k > 0 {
      LatenciesAreKnown(log, samples, start, end, k - 1);
      assert LatencyOf(RowBefore(log, k - 1), log[k - 1]) == LatencyIn(samples)(log[k - 1]) by {
        KnownSuffices(log, samples, start, end, k - 1);
      }
      EachNext(LatencyIn(samples), log, k - 1);
    }
  }

  lemma {:induction false} FirstTokensAreKnown(log: seq<Event>, samples: seq<Sample>, start: int, end: int, k: nat)
    requires Orders(log, samples, start, end) && k <= |log|
    ensures FirstTokens(log, k) == Each(FirstTokenIn(samples), log[..k])
  {
    if k > 0 {
      FirstTokensAreKnown(log, samples, start, end, k - 1);
      assert FirstTokenOf(RowBefore(log, k - 1), log[k - 1]) == FirstTokenIn(samples)(log[k - 1]) by {
        KnownSuffices(log, samples, start, end, k - 1);
      }
      EachNext(FirstTokenIn(samples), log, k - 1);
    }
  }

  lemma MeasuresNext(log: seq<Event>, k: nat, m: seq<Measure>, one: string -> int)
    requires k < |log| && m == MeasureOf(RowBefore(log, k), log[k])
    ensures PerToken(Measures(log, k + 1), one) == PerToken(Measures(log, k), one) + PerToken(m, one)
  {
    PerTokenConcat(Measures(log, k), m, one);
  }

  lemma {:induction false} RatesAreKnown(log: seq<Event>, samples: seq<Sample>, start: int, end: int, k: nat,
                                         one: string -> int)
    requires Orders(log, samples, start, end) && k <= |log|
    ensures PerToken(Measures(log, k), one) == Each(RateIn(samples, one), log[..k])
  {
    if k > 0 {
      RatesAreKnown(log, samples, start, end, k - 1, one);
      KnownSuffices(log, samples, start, end, k - 1);
      EachNext(RateIn(samples, one), log, k - 1);
      MeasuresNext(log, k - 1, MeasureOf(Known(samples, log[k - 1]), log[k - 1]), one);
    }
  }

  ghost predicate CountsWords(one: string -> int) {
    forall n: nat :: one(Words(n)) == n
  }

  function Latency(s: Sample): int { s.complete - s.issue }

  function FirstToken(s: Sample): int { s.recv - s.issue }

  function TokenRate(s: Sample): Rate { Rate(s.complete - s.recv, s.tokens - 1) }

  lemma EachOfThree<T>(f: Event -> seq<T>, a: Event, b: Event, c: Event)
    ensures Each(f, [a, b, c]) == f(a) + f(b) + f(c)
  {
    assert [a, b, c][1..] == [b, c] && [b, c][1..] == [c] && [c][1..] == [];
    assert Each(f, [c]) == f(c) + [];
    assert Each(f, [b, c]) == f(b) + f(c);
    assert f(a) + (f(b) + f(c)) == f(a) + f(b) + f(c);
  }

  /** What the replay knows of a sample at any of its events. */
  lemma KnownOfSample(s: Sample, samples: seq<Sample>, start: int, end: int)
    requires Replayable(samples, start, end) && s in samples
    ensures forall e :: e in Emitted(s) ==> Known(samples, e) == Some(Row(s.issue, Some(s.recv)))
    ensures s.tokens >= 2
  {
  }

  lemma OneMeasure(delta: int, n: nat, one: string -> int)
    requires n >= 1 && CountsWords(one)
    ensures Words(n) != "" && PerToken([Measure(delta, Words(n))], one) == [Rate(delta, n)]
  {
    var m := [Measure(delta, Words(n))];
    assert one(Words(n)) == n;
    assert m[..0] == [] && PerToken(m[..0], one) == [];
  }

  lemma EmittedTimes(s: Sample, samples: seq<Sample>, start: int, end: int)
    requires Replayable(samples, start, end) && s in samples
    ensures Each(LatencyIn(samples), Emitted(s)) == [Latency(s)]
    ensures Each(FirstTokenIn(samples), Emitted(s)) == [FirstToken(s)]
  {
    var e := Emitted(s);
    KnownOfSample(s, samples, start, end);
    EachOfThree(LatencyIn(samples), e[0], e[1], e[2]);
    EachOfThree(FirstTokenIn(samples), e[0], e[1], e[2]);
  }

  lemma EmittedRate(s: Sample, samples: seq<Sample>, start: int, end: int, one: string -> int)
    requires Replayable(samples, start, end) && s in samples && CountsWords(one)
    ensures Each(RateIn(samples, one), Emitted(s)) == [TokenRate(s)]
  {
    var e := Emitted(s);
    KnownOfSample(s, samples, start, end);
    EachOfThree(RateIn(samples, one), e[0], e[1], e[2]);
    OneMeasure(s.complete - s.recv, s.tokens - 1, one);
  }

  lemma EachSampleOnce(samples: seq<Sample>, start: int, end: int, one: string -> int)
    requires Replayable(samples, start, end) && CountsWords(one)
    ensures OneOf(LatencyIn(samples), Latency, samples) && OneOf(FirstTokenIn(samples), FirstToken, samples)
    ensures OneOf(RateIn(samples, one), TokenRate, samples)
  {
    forall k | 0 <= k < |samples|
      ensures Each(LatencyIn(samples), Emitted(samples[k])) == [Latency(samples[k])]
      ensures Each(FirstTokenIn(samples), Emitted(samples[k])) == [FirstToken(samples[k])]
      ensures Each(RateIn(samples, one), Emitted(samples[k])) == [TokenRate(samples[k])]
    {
      EmittedTimes(samples[k], samples, start, end);
      EmittedRate(samples[k], samples, start, end, one);
    }
  }

  lemma LatenciesRecovered(log: seq<Event>, samples: seq<Sample>, start: int, end: int)
    requires Replayable(samples, start, end) && log == Sort(Log(start, end, samples))
    requires OneOf(LatencyIn(samples), Latency, samples)
    ensures multiset(Latencies(log, |log|)) == multiset(PerSample(Latency, samples))
  {
    SortedLogOrders(samples, start, end);
    LatenciesAreKnown(log, samples, start, end, |log|);
    assert log[..|log|] == log;
    LogContributes(LatencyIn(samples), Latency, samples, start, end);
  }

  lemma FirstTokensRecovered(log: seq<Event>, samples: seq<Sample>, start: int, end: int)
    requires Replayable(samples, start, end) && log == Sort(Log(start, end, samples))
    requires OneOf(FirstTokenIn(samples), FirstToken, samples)
    ensures multiset(FirstTokens(log, |log|)) == multiset(PerSample(FirstToken, samples))
  {
    SortedLogOrders(samples, start, end);
    FirstTokensAreKnown(log, samples, start, end, |log|);
    assert log[..|log|] == log;
    LogContributes(FirstTokenIn(samples), FirstToken, samples, start, end);
  }

  lemma RatesRecovered(log: seq<Event>, samples: seq<Sample>, start: int, end: int, one: string -> int)
    requires Replayable(samples, start, end) && log == Sort(Log(start, end, samples))
    requires OneOf(RateIn(samples, one), TokenRate, samples)
    ensures multiset(Rates(true, log, |log|, one)) == multiset(PerSample(TokenRate, samples))
  {
    SortedLogOrders(samples, start, end);
    RatesAreKnown(log, samples, start, end, |log|, one);
    assert log[..|log|] == log;
    LogContributes(RateIn(samples, one), TokenRate, samples, start, end);
  }

  /** The rebuilt series are, as collections, exactly the planted latency, time to first
      token and time per token of the generated samples: one of each per sample. */
  lemma ReplayRecoversPlanted(samples: seq<Sample>, start: int, end: int, one: string -> int)
    requires Replayable(samples, start, end) && CountsWords(one)
    ensures var log := Sort(Log(start, end, samples));
      multiset(Latencies(log, |log|)) == multiset(PerSample(Latency, samples))
      && multiset(FirstTokens(log, |log|)) == multiset(PerSample(FirstToken, samples))
      && multiset(Rates(true, log, |log|, one)) == multiset(PerSample(TokenRate, samples))
  {
    var log := Sort(Log(start, end, samples));
    EachSampleOnce(samples, start, end, one);
    LatenciesRecovered(log, samples, start, end);
    FirstTokensRecovered(log, samples, start, end);
    RatesRecovered(log, samples, start, end, one);
  }

  lemma {:induction false} ChainReplayable(w: World, t: int, id: nat)
    requires Serviced(w) && w.start <= t
    ensures forall k :: 0 <= k < |Chain(w, t, id)| ==> InWindow(Chain(w, t, id)[k], id + k, w.start, w.end)
    decreases w.end - t
  {
    if t < w.end {
      var s := Serve(w, id, t);
      ChainReplayable(w, s.complete, id + 1);
      var rest := Chain(w, s.complete, id + 1);
      forall k | 0 <= k < |Chain(w, t, id)| ensures InWindow(Chain(w, t, id)[k], id + k, w.start, w.end) {
        if k > 0 { assert InWindow(rest[k - 1], id + 1 + (k - 1), w.start, w.end); }
      }
    }
  }

  lemma {:induction false} SlotsReplayable(w: World, slots: nat)
    requires Serviced(w)
    ensures Replayable(Slots(w, slots), w.start, w.end)
  {
    if slots > 0 {
      SlotsReplayable(w, slots - 1);
      ChainReplayable(w, w.start, |Slots(w, slots - 1)|);
    }
  }

  /** Generating a closed-loop log and replaying it recovers every planted time. */
  method GenerateAndReplay(w: World, count: seq<string> -> seq<int>, ghost one: string -> int, batchLimit: nat)
    returns (series: Series, samples: nat)
    requires Serviced(w) && Pointwise(count, one) && CountsWords(one)
    ensures var planted := Slots(w, w.concurrency);
      samples == |planted| && multiset(series.latency) == multiset(PerSample(Latency, planted))
      && multiset(series.ttft) == multiset(PerSample(FirstToken, planted))
      && multiset(series.tpot) == multiset(PerSample(TokenRate, planted))
  {
    var gen := new Generator(w);
    gen.Generate();
    SlotsReplayable(w, w.concurrency);
    ReplayRecoversPlanted(Slots(w, w.concurrency), w.start, w.end, one);
    var malformed, skipped;
    series, malformed, skipped := ComputeSeries(gen.events, Some(count), one, batchLimit);
    samples := gen.nSamples;
  }
}
