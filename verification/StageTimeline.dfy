/** Stage events of CRM deals, their order, and the open episodes a timeline enters. */
module StageTimeline {
  import opened Common
  import opened Sequences
  import opened Sorting
  import opened Text

  datatype ParentKey = ParentKey(system: string, record: string)

  datatype MappedState = Open | Won | Lost

  /** Instants are integers. */
  datatype StageEvent = StageEvent(
    identity: string,
    parent: ParentKey,
    state: MappedState,
    eventAt: int,
    availableAt: int,
    headVersion: nat)

  // ----- Orders -----

  /** By event time, then head version, then identity. */
  predicate EventLe(a: StageEvent, b: StageEvent) {
    if a.eventAt != b.eventAt then a.eventAt < b.eventAt
    else if a.headVersion != b.headVersion then a.headVersion < b.headVersion
    else StringLe(a.identity, b.identity)
  }

  lemma EventOrder()
    ensures TotalPreorder(EventLe)
  {
    StringOrder();
  }

  predicate ParentLe(a: ParentKey, b: ParentKey) {
    if a.system != b.system then StringLe(a.system, b.system) else StringLe(a.record, b.record)
  }

  lemma ParentOrder()
    ensures TotalOrder(ParentLe)
  {
    StringOrder();
  }

  // ----- Timelines -----

  function OfParent(p: ParentKey, events: seq<StageEvent>): seq<StageEvent> {
    Filter((e: StageEvent) => e.parent == p, events)
  }

  function Timeline(p: ParentKey, events: seq<StageEvent>): seq<StageEvent> {
    Sort(EventLe, OfParent(p, events))
  }

  /** The parents in the order a dictionary first sees them. */
  function FirstSeen(events: seq<StageEvent>): seq<ParentKey> {
    if events == [] then []
    else
      var n := |events| - 1;
      var before := FirstSeen(events[..n]);
      if events[n].parent in before then before else before + [events[n].parent]
  }

  lemma {:induction false} SeenOnce(events: seq<StageEvent>)
    ensures Distinct(FirstSeen(events))
  {
    if events != [] {
      SeenOnce(events[..|events| - 1]);
    }
  }

  lemma {:induction false} SeenExactly(events: seq<StageEvent>, p: ParentKey)
    ensures p in FirstSeen(events) <==> OfParent(p, events) != []
  {
    if events != [] {
      var n := |events| - 1;
      SeenExactly(events[..n], p);
      OfParentMore(p, events[..n], events[n]);
      assert events == events[..n] + [events[n]];
    }
  }

  lemma OfParentMore(p: ParentKey, events: seq<StageEvent>, e: StageEvent)
    ensures OfParent(p, events + [e]) == OfParent(p, events) + if e.parent == p then [e] else []
  {
    FilterConcat((x: StageEvent) => x.parent == p, events, [e]);
  }

  function Parents(events: seq<StageEvent>): seq<ParentKey> {
    Sort(ParentLe, FirstSeen(events))
  }

  /** The open events that the event before them does not already hold open. */
  function Entries(previous: Option<MappedState>, ordered: seq<StageEvent>): seq<StageEvent>
    decreases |ordered|
  {
    if ordered == [] then []
    else
      (if ordered[0].state == Open && previous != Some(Open) then [ordered[0]] else [])
      + Entries(Some(ordered[0].state), ordered[1..])
  }

  predicate EntersAt(ordered: seq<StageEvent>, i: nat)
    requires i < |ordered|
  {
    ordered[i].state == Open && (i == 0 || ordered[i - 1].state != Open)
  }

  function LastState(previous: Option<MappedState>, ordered: seq<StageEvent>): Option<MappedState> {
    if ordered == [] then previous else Some(ordered[|ordered| - 1].state)
  }

  lemma {:induction false} EntriesConcat(previous: Option<MappedState>, a: seq<StageEvent>, b: seq<StageEvent>)
    ensures Entries(previous, a + b) == Entries(previous, a) + Entries(LastState(previous, a), b)
    decreases |a|
  {
    if a == [] {
      assert a + b == b;
    } else {
      var head := if a[0].state == Open && previous != Some(Open) then [a[0]] else [];
      var state, rest := Some(a[0].state), a[1..];
      EntriesConcat(state, rest, b);
      assert (a + b)[0] == a[0] && (a + b)[1..] == rest + b;
      assert Entries(previous, a + b) == head + Entries(state, rest + b);
      assert Entries(previous, a) == head + Entries(state, rest);
      assert LastState(state, rest) == LastState(previous, a);
    }
  }

  /** An event is an entry exactly when it is open and the one before it in the timeline is not. */
  lemma {:induction false} EntriesAreWhereEpisodesOpen(ordered: seq<StageEvent>, e: StageEvent)
    ensures e in Entries(None, ordered) <==> exists i :: 0 <= i < |ordered| && EntersAt(ordered, i) && ordered[i] == e
  {
    if ordered != [] {
      var n := |ordered| - 1;
      var before := ordered[..n];
      EntriesAreWhereEpisodesOpen(before, e);
      EntriesConcat(None, before, [ordered[n]]);
      assert ordered == before + [ordered[n]];
      assert LastState(None, before) == if n == 0 then None else Some(ordered[n - 1].state);
      assert e in Entries(LastState(None, before), [ordered[n]]) <==> EntersAt(ordered, n) && ordered[n] == e;
      assert forall i :: 0 <= i < n ==> EntersAt(before, i) == EntersAt(ordered, i) && before[i] == ordered[i];
    }
  }

  lemma {:induction false} EntriesAreEvents(previous: Option<MappedState>, ordered: seq<StageEvent>)
    ensures forall e :: e in Entries(previous, ordered) ==> e in ordered && e.state == Open
    decreases |ordered|
  {
    if ordered != [] {
      EntriesAreEvents(Some(ordered[0].state), ordered[1..]);
    }
  }

  datatype Entry = Entry(parent: ParentKey, event: StageEvent, timeline: seq<StageEvent>)

  function EntriesOf(p: ParentKey, timeline: seq<StageEvent>): seq<Entry> {
    Map(e => Entry(p, e, timeline), Entries(None, timeline))
  }

  function OpenEntries(events: seq<StageEvent>): seq<Entry> {
    FlatMap(p => EntriesOf(p, Timeline(p, events)), Parents(events))
  }

  // ----- What the orders say -----

  /** Events by time, those of one time by head version, those of one version by identity. */
  ghost predicate Earlier(a: StageEvent, b: StageEvent) {
    && a.eventAt <= b.eventAt
    && (a.eventAt == b.eventAt ==>
          && a.headVersion <= b.headVersion
          && (a.headVersion == b.headVersion ==> StringLe(a.identity, b.identity)))
  }

  ghost predicate InOrder(events: seq<StageEvent>) {
    forall i, j :: 0 <= i < j < |events| ==> Earlier(events[i], events[j])
  }

  ghost predicate ParentEarlier(a: ParentKey, b: ParentKey) {
    StringLe(a.system, b.system) && (a.system == b.system ==> StringLe(a.record, b.record))
  }

  /** A timeline holds its parent's events in their order. */
  lemma TimelineIsInOrder(p: ParentKey, events: seq<StageEvent>)
    ensures forall e :: e in Timeline(p, events) <==> e in events && e.parent == p
    ensures InOrder(Timeline(p, events))
  {
    EventOrder();
    SortSorted(EventLe, OfParent(p, events));
    SortPermutes(EventLe, OfParent(p, events));
    PermutationSameElements(Timeline(p, events), OfParent(p, events));
  }

  lemma {:induction false} EntriesStayInOrder(previous: Option<MappedState>, ordered: seq<StageEvent>)
    requires InOrder(ordered)
    ensures InOrder(Entries(previous, ordered))
    decreases |ordered|
  {
    if ordered != [] {
      var rest := Entries(Some(ordered[0].state), ordered[1..]);
      EntriesStayInOrder(Some(ordered[0].state), ordered[1..]);
      EntriesAreEvents(Some(ordered[0].state), ordered[1..]);
      forall e | e in rest
        ensures Earlier(ordered[0], e)
      {
        var i :| 0 <= i < |ordered| - 1 && ordered[1..][i] == e;
        assert ordered[i + 1] == e;
      }
      assert Entries(previous, ordered) == rest || Entries(previous, ordered) == [ordered[0]] + rest;
    }
  }

  /** Entries by parent, and those of one parent by event. */
  ghost predicate EntryEarlier(a: Entry, b: Entry) {
    && ParentEarlier(a.parent, b.parent)
    && (a.parent == b.parent ==> Earlier(a.event, b.event))
  }

  lemma OneParentInOrder(p: ParentKey, events: seq<StageEvent>)
    ensures var found := EntriesOf(p, Timeline(p, events));
            && (forall e :: e in found ==> e.parent == p)
            && (forall i, j :: 0 <= i < j < |found| ==> EntryEarlier(found[i], found[j]))
  {
    TimelineIsInOrder(p, events);
    EntriesStayInOrder(None, Timeline(p, events));
    StringOrder();
    var entered, found := Entries(None, Timeline(p, events)), EntriesOf(p, Timeline(p, events));
    forall i, j | 0 <= i < j < |found|
      ensures EntryEarlier(found[i], found[j])
    {
      assert found[i].event == entered[i] && found[j].event == entered[j];
      assert StringLe(p.system, p.system) && StringLe(p.record, p.record);
    }
  }

  lemma {:induction false} ParentsInOrder(parents: seq<ParentKey>, events: seq<StageEvent>)
    requires SortedBy(ParentLe, parents) && Distinct(parents)
    ensures var found := FlatMap(p => EntriesOf(p, Timeline(p, events)), parents);
            && (forall e :: e in found ==> e.parent in parents)
            && (forall i, j :: 0 <= i < j < |found| ==> EntryEarlier(found[i], found[j]))
  {
    if parents != [] {
      var before, p := parents[..|parents| - 1], parents[|parents| - 1];
      ParentsInOrder(before, events);
      OneParentInOrder(p, events);
      StringOrder();
    }
  }

  /** The entries come by parent, and those of one parent by event. */
  lemma EntriesAreInOrder(events: seq<StageEvent>)
    ensures forall i, j :: 0 <= i < j < |OpenEntries(events)| ==>
              EntryEarlier(OpenEntries(events)[i], OpenEntries(events)[j])
  {
    ParentOrder();
    SeenOnce(events);
    SortSorted(ParentLe, FirstSeen(events));
    SortPermutes(ParentLe, FirstSeen(events));
    DistinctCounts(FirstSeen(events));
    DistinctCounts(Parents(events));
    ParentsInOrder(Parents(events), events);
  }

  // ----- The loops -----

  ghost predicate Groups(events: seq<StageEvent>, groups: map<ParentKey, seq<StageEvent>>) {
    && (forall p :: p in groups ==> groups[p] == OfParent(p, events))
    && (forall p :: p in groups <==> p in FirstSeen(events))
  }

  lemma GroupsMore(events: seq<StageEvent>, groups: map<ParentKey, seq<StageEvent>>, e: StageEvent)
    requires Groups(events, groups)
    ensures var group := if e.parent in groups then groups[e.parent] else [];
            Groups(events + [e], groups[e.parent := group + [e]])
    ensures FirstSeen(events + [e]) == if e.parent in groups then FirstSeen(events) else FirstSeen(events) + [e.parent]
  {
    var group := if e.parent in groups then groups[e.parent] else [];
    var more := groups[e.parent := group + [e]];
    assert (events + [e])[..|events|] == events;
    SeenExactly(events, e.parent);
    forall p | p in more
      ensures more[p] == OfParent(p, events + [e])
    {
      OfParentMore(p, events, e);
    }
  }

  method GroupByParent(events: seq<StageEvent>)
    returns (parents: seq<ParentKey>, groups: map<ParentKey, seq<StageEvent>>)
    ensures parents == FirstSeen(events)
    ensures Groups(events, groups)
  {
    parents, groups := [], map[];
    for n := 0 to |events|
      invariant parents == FirstSeen(events[..n])
      invariant Groups(events[..n], groups)
    {
      var e := events[n];
      assert events[..n + 1] == events[..n] + [e];
      GroupsMore(events[..n], groups, e);
      if e.parent in groups {
        groups := groups[e.parent := groups[e.parent] + [e]];
      } else {
        parents := parents + [e.parent];
        groups := groups[e.parent := [] + [e]];
      }
    }
    assert events[..|events|] == events;
  }

  method EntriesInTimeline(parent: ParentKey, ordered: seq<StageEvent>) returns (entries: seq<Entry>)
    ensures entries == EntriesOf(parent, ordered)
  {
    entries := [];
    var previous: Option<MappedState> := None;
    for n := 0 to |ordered|
      invariant previous == LastState(None, ordered[..n])
      invariant entries == Map(e => Entry(parent, e, ordered), Entries(None, ordered[..n]))
    {
      var event := ordered[n];
      assert ordered[..n + 1] == ordered[..n] + [event];
      EntriesConcat(None, ordered[..n], [event]);
      if event.state == Open && previous != Some(Open) {
        entries := entries + [Entry(parent, event, ordered)];
      }
      previous := Some(event.state);
    }
    assert ordered[..|ordered|] == ordered;
  }

  /** Every open-episode entry with its parent's ordered timeline. */
  method IterateOpenEntries(events: seq<StageEvent>) returns (entries: seq<Entry>)
    ensures entries == OpenEntries(events)
  {
    var seen, groups := GroupByParent(events);
    var parents := Sort(ParentLe, seen);
    SortPermutes(ParentLe, seen);
    entries := [];
    for n := 0 to |parents|
      invariant entries == FlatMap(p => EntriesOf(p, Timeline(p, events)), parents[..n])
    {
      assert parents[n] in seen;
      var more := EntriesInTimeline(parents[n], Sort(EventLe, groups[parents[n]]));
      entries := entries + more;
      assert parents[..n + 1][..n] == parents[..n];
    }
    assert parents[..|parents|] == parents;
  }
}
