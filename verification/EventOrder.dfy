/** The order of a generated log: by time, and at one instant by the causal order of events. */
module EventOrder {
  import opened Collections
  import opened EventSeries
  import opened Sorting

  function Priority(e: Event): nat {
    match e
    case StartTracking(_) => 0
    case Issued(_, _) => 1
    case RecvFirst(_, _) => 2
    case Complete(_, _, _) => 3
    case _ => 4
  }

  function Stamp(e: Event): int {
    if e.Undecodable? || e.Unrelated? then 0 else e.ts
  }

  predicate Before(a: Event, b: Event) {
    Stamp(a) < Stamp(b) || (Stamp(a) == Stamp(b) && Priority(a) <= Priority(b))
  }

  /** Both parts of the order in one number: there are fewer than five priorities. */
  function OrderKey(): Event -> int {
    (e: Event) => 5 * Stamp(e) + Priority(e)
  }

  lemma KeyOrders(a: Event, b: Event)
    ensures Before(a, b) <==> OrderKey()(a) <= OrderKey()(b)
  {
  }

  /** The stable sort by timestamp, then priority. */
  function Sort(log: seq<Event>): seq<Event> {
    SortBy(OrderKey(), log)
  }

  ghost predicate Sorted(log: seq<Event>) {
    forall i, j :: 0 <= i < j < |log| ==> Before(log[i], log[j])
  }

  /** The log is in order and has the very same events. */
  lemma SortSorts(log: seq<Event>)
    ensures Sorted(Sort(log)) && multiset(Sort(log)) == multiset(log)
  {
    SortByOrders(OrderKey(), log);
    SortByPermutes(OrderKey(), log);
    var sorted := Sort(log);
    forall i, j | 0 <= i < j < |sorted| ensures Before(sorted[i], sorted[j]) {
      KeyOrders(sorted[i], sorted[j]);
    }
  }

  /** At one instant tracking starts first, then come issues, first chunks and completions,
      and tracking stops last. */
  lemma CausalAtOneInstant(log: seq<Event>, i: nat, j: nat)
    requires i < j < |Sort(log)| && Stamp(Sort(log)[i]) == Stamp(Sort(log)[j])
    ensures var a, b := Sort(log)[i], Sort(log)[j];
      && (b.StartTracking? ==> a.StartTracking?)
      && (b.Issued? ==> a.StartTracking? || a.Issued?)
      && (b.RecvFirst? ==> a.StartTracking? || a.Issued? || a.RecvFirst?)
      && (a.StopTracking? ==> b.StopTracking? || b.Undecodable? || b.Unrelated?)
  {
    SortSorts(log);
    assert Before(Sort(log)[i], Sort(log)[j]);
  }

  /** Events of one instant and kind keep their order. */
  lemma SortIsStable(log: seq<Event>, ts: int, kind: nat)
    requires kind < 5
    ensures Selected(Sort(log), (e: Event) => Stamp(e) == ts && Priority(e) == kind)
         == Selected(log, (e: Event) => Stamp(e) == ts && Priority(e) == kind)
  {
    var same := (e: Event) => Stamp(e) == ts && Priority(e) == kind;
    SortByStable(OrderKey(), log, 5 * ts + kind, same);
  }

  lemma SortKeeps(log: seq<Event>)
    ensures Elements(Sort(log)) == Elements(log)
    ensures Distinct(log) ==> Distinct(Sort(log))
  {
    SortByKeeps(OrderKey(), log);
  }
}
