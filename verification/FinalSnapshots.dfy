/** Choosing the snapshot of each conversation to convert: the one with the highest index,
    the earliest of those. */
module FinalSnapshots {
  import opened Collections
  import opened ConversationData

  datatype Snapshot = Snapshot(conversation: string, index: int, messages: seq<Msg>)

  /** Among the first `n` records, record `k` is the chosen one of its conversation. */
  ghost predicate Chosen(records: seq<Snapshot>, n: nat, k: nat) {
    k < n <= |records|
    && (forall j :: 0 <= j < n && records[j].conversation == records[k].conversation ==>
                      records[j].index <= records[k].index)
    && (forall j :: 0 <= j < k && records[j].conversation == records[k].conversation ==>
                      records[j].index < records[k].index)
  }

  ghost predicate Holds(final: map<string, Snapshot>, records: seq<Snapshot>, n: nat, conv: string)
    requires n <= |records|
  {
    if conv in final then
      exists k: nat :: Chosen(records, n, k) && records[k] == final[conv] && records[k].conversation == conv
    else forall k :: 0 <= k < n ==> records[k].conversation != conv
  }

  function Taken(final: map<string, Snapshot>, r: Snapshot): map<string, Snapshot> {
    if r.conversation !in final || r.index > final[r.conversation].index then final[r.conversation := r] else final
  }

  /** The chosen record stays chosen unless the next one has a higher index. */
  lemma ChosenStays(records: seq<Snapshot>, n: nat, k: nat)
    requires n < |records| && Chosen(records, n, k)
    requires records[n].conversation == records[k].conversation ==> records[n].index <= records[k].index
    ensures Chosen(records, n + 1, k)
  {
  }

  lemma ChosenNext(records: seq<Snapshot>, n: nat)
    requires n < |records|
    requires forall j :: 0 <= j < n && records[j].conversation == records[n].conversation ==>
                           records[j].index < records[n].index
    ensures Chosen(records, n + 1, n)
  {
  }

  lemma HeldBy(final: map<string, Snapshot>, records: seq<Snapshot>, n: nat, conv: string, k: nat)
    requires n <= |records| && Chosen(records, n, k) && conv in final
    requires records[k] == final[conv] && records[k].conversation == conv
    ensures Holds(final, records, n, conv)
  {
  }

  lemma HoldsNext(final: map<string, Snapshot>, records: seq<Snapshot>, n: nat, conv: string)
    requires n < |records| && Holds(final, records, n, conv)
    ensures Holds(Taken(final, records[n]), records, n + 1, conv)
  {
    var r, now := records[n], Taken(final, records[n]);
    if conv in final {
      var k: nat :| Chosen(records, n, k) && records[k] == final[conv] && records[k].conversation == conv;
      if r.conversation == conv && r.index > final[conv].index {
        ChosenNext(records, n);
        HeldBy(now, records, n + 1, conv, n);
      } else {
        ChosenStays(records, n, k);
        HeldBy(now, records, n + 1, conv, k);
      }
    } else if r.conversation == conv {
      ChosenNext(records, n);
      HeldBy(now, records, n + 1, conv, n);
    }
  }

  ghost predicate AllHold(final: map<string, Snapshot>, records: seq<Snapshot>, n: nat)
    requires n <= |records|
  {
    forall conv :: Holds(final, records, n, conv)
  }

  lemma AllHoldNext(final: map<string, Snapshot>, records: seq<Snapshot>, n: nat)
    requires n < |records| && AllHold(final, records, n)
    ensures AllHold(Taken(final, records[n]), records, n + 1)
  {
    var next := n + 1;
    forall conv ensures Holds(Taken(final, records[n]), records, next, conv) {
      HoldsNext(final, records, n, conv);
    }
  }

  method LoadFinalSnapshots(records: seq<Snapshot>) returns (final: map<string, Snapshot>)
    ensures forall conv :: Holds(final, records, |records|, conv)
  {
    final := map[];
    for n := 0 to |records|
      invariant AllHold(final, records, n)
    {
      var r := records[n];
      AllHoldNext(final, records, n);
      if r.conversation !in final || r.index > final[r.conversation].index {
        final := final[r.conversation := r];
      }
    }
  }
}
