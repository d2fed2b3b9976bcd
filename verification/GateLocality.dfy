/**
  A label is settled by its horizon: the labels whose thirty days end by an instant do not
  change when events after that instant are added or removed.
 */
module GateLocality {
  import opened Common
  import opened Sequences
  import opened Sorting
  import opened StageTimeline
  import opened GateLabels

  /** The events up to an instant. */
  function Cut(events: seq<StageEvent>, last: int): seq<StageEvent> {
    Filter((e: StageEvent) => e.eventAt <= last, events)
  }

  function SnapshotOf(selector: Selector, e: StageEvent): int {
    match selector
    case Operational => OperationalSnapshot(e)
    case Retrospective => e.eventAt
  }

  predicate Settled(l: Label, last: int) {
    l.snapshotAt + HORIZON <= last
  }

  // ----- One timeline -----

  lemma TimelineOfCut(p: ParentKey, events: seq<StageEvent>, last: int)
    ensures Timeline(p, Cut(events, last)) == Cut(Timeline(p, events), last)
  {
    EventOrder();
    var early := (e: StageEvent) => e.eventAt <= last;
    FiltersCommute((e: StageEvent) => e.parent == p, early, events);
    FilterSort(EventLe, early, OfParent(p, events));
  }

  lemma TimelineSorted(p: ParentKey, events: seq<StageEvent>)
    ensures SortedBy(EventLe, Timeline(p, events))
  {
    EventOrder();
    SortSorted(EventLe, OfParent(p, events));
  }

  /** Cutting an ordered timeline leaves a prefix of it. */
  lemma {:induction false} CutIsPrefix(timeline: seq<StageEvent>, last: int) returns (rest: seq<StageEvent>)
    requires SortedBy(EventLe, timeline)
    ensures timeline == Cut(timeline, last) + rest
    ensures forall e :: e in rest ==> e.eventAt > last
  {
    if timeline == [] {
      rest := [];
    } else if timeline[0].eventAt <= last {
      rest := CutIsPrefix(timeline[1..], last);
    } else {
      rest := timeline;
      forall e | e in timeline
        ensures e.eventAt > last
      {
        var i :| 0 <= i < |timeline| && timeline[i] == e;
        assert i > 0 ==> EventLe(timeline[0], timeline[i]);
      }
      FilterNone((e: StageEvent) => e.eventAt <= last, timeline);
    }
  }

  lemma {:induction false} FirstWonConcat(a: seq<StageEvent>, b: seq<StageEvent>)
    ensures FirstWon(a + b) == if FirstWon(a).Some? then FirstWon(a) else FirstWon(b)
  {
    if a == [] {
      assert a + b == b;
    } else {
      FirstWonConcat(a[1..], b);
      assert (a + b)[1..] == a[1..] + b;
    }
  }

  lemma {:induction false} FirstWonIsIn(s: seq<StageEvent>)
    ensures FirstWon(s).Some? ==> FirstWon(s).value in s
  {
    if s != [] {
      FirstWonIsIn(s[1..]);
    }
  }

  /** Of the timeline, only the first win can be lost by the cut, and then it lies past the horizon. */
  lemma KnownTimelineIsLocal(timeline: seq<StageEvent>, snapshot: int, last: int)
    requires SortedBy(EventLe, timeline) && snapshot <= last
    ensures var all, early := TimelineAsKnown(timeline, snapshot), TimelineAsKnown(Cut(timeline, last), snapshot);
            && all.disqualified == early.disqualified && all.state == early.state
            && (all.won == early.won || (early.won.None? && all.won.value.eventAt > last))
  {
    var early := (x: StageEvent) => x.eventAt <= last;
    FilterTwice((x: StageEvent) => x.eventAt <= snapshot && x.availableAt <= snapshot, early, timeline);
    assert forall x :: x in timeline && LateDisqualifier(x, snapshot) ==> x in Cut(timeline, last);
    var rest := CutIsPrefix(timeline, last);
    FirstWonConcat(Cut(timeline, last), rest);
    FirstWonIsIn(rest);
  }

  lemma OutcomeIsLocal(all: Option<StageEvent>, early: Option<StageEvent>, snapshot: int, last: int, cutoff: int)
    requires snapshot + HORIZON <= last
    requires all == early || (early.None? && all.Some? && all.value.eventAt > last)
    ensures OperationalOutcome(all, snapshot, cutoff) == OperationalOutcome(early, snapshot, cutoff)
  {
  }

  lemma OperationalLabelIsLocal(inputs: Inputs, p: ParentKey, e: StageEvent, timeline: seq<StageEvent>, last: int)
    requires SortedBy(EventLe, timeline) && inputs.selector == Operational
    requires OperationalSnapshot(e) + HORIZON <= last
    ensures LabelOf(inputs, Entry(p, e, timeline)) == LabelOf(inputs, Entry(p, e, Cut(timeline, last)))
  {
    var snapshot := OperationalSnapshot(e);
    KnownTimelineIsLocal(timeline, snapshot, last);
    OutcomeIsLocal(FirstWon(timeline), FirstWon(Cut(timeline, last)), snapshot, last, inputs.release.evidenceCutoffAt);
  }

  lemma StateAndWinAreLocal(timeline: seq<StageEvent>, snapshot: int, last: int)
    requires snapshot + HORIZON <= last
    ensures StateAt(timeline, snapshot) == StateAt(Cut(timeline, last), snapshot)
    ensures WonInHorizon(timeline, snapshot) == WonInHorizon(Cut(timeline, last), snapshot)
  {
    FilterTwice((x: StageEvent) => x.eventAt <= snapshot, (x: StageEvent) => x.eventAt <= last, timeline);
    assert forall x :: x in timeline && WonWithin(x, snapshot) ==> x in Cut(timeline, last);
  }

  lemma RetrospectiveLabelIsLocal(inputs: Inputs, p: ParentKey, e: StageEvent, timeline: seq<StageEvent>, last: int)
    requires inputs.selector == Retrospective
    requires e.eventAt + HORIZON <= last
    ensures LabelOf(inputs, Entry(p, e, timeline)) == LabelOf(inputs, Entry(p, e, Cut(timeline, last)))
  {
    StateAndWinAreLocal(timeline, e.eventAt, last);
    RetrospectiveLabelReads(inputs, p, e, timeline, Cut(timeline, last));
  }

  /** Of the timeline a retrospective label reads the state at the snapshot and whether a win follows in time. */
  lemma RetrospectiveLabelReads(inputs: Inputs, p: ParentKey, e: StageEvent, a: seq<StageEvent>, b: seq<StageEvent>)
    requires inputs.selector == Retrospective
    requires StateAt(a, e.eventAt) == StateAt(b, e.eventAt) && WonInHorizon(a, e.eventAt) == WonInHorizon(b, e.eventAt)
    ensures LabelOf(inputs, Entry(p, e, a)) == LabelOf(inputs, Entry(p, e, b))
  {
  }

  /** The label of an entry is decided by the events up to its horizon, under either selector. */
  lemma LabelIsLocal(inputs: Inputs, p: ParentKey, e: StageEvent, timeline: seq<StageEvent>, last: int)
    requires SortedBy(EventLe, timeline)
    requires SnapshotOf(inputs.selector, e) + HORIZON <= last
    ensures LabelOf(inputs, Entry(p, e, timeline)) == LabelOf(inputs, Entry(p, e, Cut(timeline, last)))
  {
    match inputs.selector
    case Operational => OperationalLabelIsLocal(inputs, p, e, timeline, last);
    case Retrospective => RetrospectiveLabelIsLocal(inputs, p, e, timeline, last);
  }

  // ----- The settled labels of one parent -----

  lemma LabelSnapshot(inputs: Inputs, entry: Entry)
    ensures LabelOf(inputs, entry).snapshotAt == SnapshotOf(inputs.selector, entry.event)
  {
  }

  /** The settled labels of the listed entries of a parent. */
  function SettledLabels(inputs: Inputs, p: ParentKey, timeline: seq<StageEvent>, entries: seq<StageEvent>, last: int)
    : seq<Label>
  {
    Filter((l: Label) => Settled(l, last), Map(e => LabelOf(inputs, Entry(p, e, timeline)), entries))
  }

  lemma SettledLabelsAreLocal(inputs: Inputs, p: ParentKey, timeline: seq<StageEvent>, entries: seq<StageEvent>,
                              last: int)
    requires SortedBy(EventLe, timeline)
    ensures SettledLabels(inputs, p, timeline, entries, last) ==
            SettledLabels(inputs, p, Cut(timeline, last), entries, last)
  {
    var keep := (l: Label) => Settled(l, last);
    var all := e => LabelOf(inputs, Entry(p, e, timeline));
    var early := e => LabelOf(inputs, Entry(p, e, Cut(timeline, last)));
    forall e | e in entries
      ensures keep(all(e)) == keep(early(e)) && (keep(all(e)) ==> all(e) == early(e))
    {
      LabelSnapshot(inputs, Entry(p, e, timeline));
      LabelSnapshot(inputs, Entry(p, e, Cut(timeline, last)));
      if keep(all(e)) {
        LabelIsLocal(inputs, p, e, timeline, last);
      }
    }
    FilterMapAgree(keep, all, early, entries);
  }

  lemma LateEntriesAreUnsettled(inputs: Inputs, p: ParentKey, timeline: seq<StageEvent>,
                                a: seq<StageEvent>, b: seq<StageEvent>, last: int)
    requires forall e :: e in b ==> e.eventAt > last
    ensures SettledLabels(inputs, p, timeline, a + b, last) == SettledLabels(inputs, p, timeline, a, last)
  {
    forall e | e in b
      ensures !Settled(LabelOf(inputs, Entry(p, e, timeline)), last)
    {
      LabelSnapshot(inputs, Entry(p, e, timeline));
    }
    FilterMapDrop((l: Label) => Settled(l, last), e => LabelOf(inputs, Entry(p, e, timeline)), a, b);
  }

  function SettledOfParent(inputs: Inputs, p: ParentKey, events: seq<StageEvent>, last: int): seq<Label> {
    SettledLabels(inputs, p, Timeline(p, events), Entries(None, Timeline(p, events)), last)
  }

  lemma ParentIsLocal(inputs: Inputs, p: ParentKey, events: seq<StageEvent>, last: int)
    ensures SettledOfParent(inputs, p, events, last) == SettledOfParent(inputs, p, Cut(events, last), last)
  {
    var timeline := Timeline(p, events);
    var early := Cut(timeline, last);
    TimelineSorted(p, events);
    TimelineOfCut(p, events, last);
    var rest := CutIsPrefix(timeline, last);
    EntriesConcat(None, early, rest);
    EntriesAreEvents(LastState(None, early), rest);
    LateEntriesAreUnsettled(inputs, p, timeline, Entries(None, early), Entries(LastState(None, early), rest), last);
    SettledLabelsAreLocal(inputs, p, timeline, Entries(None, early), last);
  }

  // ----- All parents -----

  function SettledOfAll(inputs: Inputs, parents: seq<ParentKey>, events: seq<StageEvent>, last: int): seq<Label> {
    FlatMap(p => SettledOfParent(inputs, p, events, last), parents)
  }

  lemma LabelsOfEntriesOf(inputs: Inputs, p: ParentKey, events: seq<StageEvent>, last: int)
    ensures Filter((l: Label) => Settled(l, last), Map(e => LabelOf(inputs, e), EntriesOf(p, Timeline(p, events))))
         == SettledOfParent(inputs, p, events, last)
  {
    var timeline := Timeline(p, events);
    var entries := Entries(None, timeline);
    assert Map(e => LabelOf(inputs, e), EntriesOf(p, timeline)) ==
        Map(e => LabelOf(inputs, Entry(p, e, timeline)), entries);
  }

  lemma SettledInAllLabels(inputs: Inputs, events: seq<StageEvent>, last: int)
    ensures Filter((l: Label) => Settled(l, last), LabelsOf(inputs, OpenEntries(events)))
         == SettledOfAll(inputs, Parents(events), events, last)
  {
    var keep := (l: Label) => Settled(l, last);
    var entriesOf := p => EntriesOf(p, Timeline(p, events));
    var settledOf := p => SettledOfParent(inputs, p, events, last);
    forall p
      ensures settledOf(p) == Filter(keep, Map(e => LabelOf(inputs, e), entriesOf(p)))
    {
      LabelsOfEntriesOf(inputs, p, events, last);
    }
    FilterFlatMap(keep, e => LabelOf(inputs, e), entriesOf, settledOf, Parents(events));
  }

  lemma AllParentsAreLocal(inputs: Inputs, parents: seq<ParentKey>, events: seq<StageEvent>, last: int)
    ensures SettledOfAll(inputs, parents, events, last) == SettledOfAll(inputs, parents, Cut(events, last), last)
  {
    var all := p => SettledOfParent(inputs, p, events, last);
    var early := p => SettledOfParent(inputs, p, Cut(events, last), last);
    forall p
      ensures all(p) == early(p)
    {
      ParentIsLocal(inputs, p, events, last);
    }
    FlatMapAgree(all, early, parents);
  }

  /** Parents without events contribute nothing. */
  lemma SilentParents(inputs: Inputs, parents: seq<ParentKey>, events: seq<StageEvent>, last: int)
    ensures SettledOfAll(inputs, parents, events, last)
         == SettledOfAll(inputs, Filter(p => p in FirstSeen(events), parents), events, last)
  {
    var settledOf := p => SettledOfParent(inputs, p, events, last);
    forall p | p !in FirstSeen(events)
      ensures settledOf(p) == []
    {
      SeenExactly(events, p);
      assert Timeline(p, events) == [];
    }
    FlatMapFilter(settledOf, p => p in FirstSeen(events), parents);
  }

  lemma ParentsOfCut(events: seq<StageEvent>, last: int)
    ensures Parents(Cut(events, last)) == Filter(p => p in FirstSeen(Cut(events, last)), Parents(events))
  {
    ParentOrder();
    var seen, kept := FirstSeen(events), FirstSeen(Cut(events, last));
    var all := Parents(events);
    var q := (p: ParentKey) => p in kept;
    SeenOnce(events);
    SeenOnce(Cut(events, last));
    SortPermutes(ParentLe, seen);
    SortPermutes(ParentLe, kept);
    SortSorted(ParentLe, seen);
    SortSorted(ParentLe, kept);
    DistinctCounts(seen);
    DistinctCounts(all);
    DistinctCounts(kept);
    DistinctCounts(Parents(Cut(events, last)));
    FilterKeepsDistinct(q, all);
    FilterSorted(ParentLe, q, all);
    forall p
      ensures p in Parents(Cut(events, last)) <==> p in Filter(q, all)
    {
      KeptParentIsSeen(events, last, p);
    }
    DistinctPermutes(Parents(Cut(events, last)), Filter(q, all));
    SortedUnique(ParentLe, Parents(Cut(events, last)), Filter(q, all));
  }

  lemma KeptParentIsSeen(events: seq<StageEvent>, last: int, p: ParentKey)
    ensures p in FirstSeen(Cut(events, last)) ==> p in FirstSeen(events)
  {
    SeenExactly(events, p);
    SeenExactly(Cut(events, last), p);
    if OfParent(p, Cut(events, last)) != [] {
      assert OfParent(p, Cut(events, last))[0] in OfParent(p, events);
    }
  }

  // ----- The theorem -----

  /** Removing every event after an instant leaves the labels settled by it as they were, in the same order. */
  lemma SettledLabelsSurviveTheCut(inputs: Inputs, events: seq<StageEvent>, last: int)
    ensures Filter((l: Label) => Settled(l, last), Labels(inputs, events))
         == Filter((l: Label) => Settled(l, last), Labels(inputs, Cut(events, last)))
  {
    var settled := (l: Label) => Settled(l, last);
    var early := Cut(events, last);
    LabelOrder();
    FilterSort(LabelLe, settled, LabelsOf(inputs, OpenEntries(events)));
    FilterSort(LabelLe, settled, LabelsOf(inputs, OpenEntries(early)));
    SettledInAllLabels(inputs, events, last);
    SettledInAllLabels(inputs, early, last);
    AllParentsAreLocal(inputs, Parents(events), events, last);
    SilentParents(inputs, Parents(events), early, last);
    ParentsOfCut(events, last);
  }

  /** Two histories that agree up to an instant publish the same labels settled by it. */
  lemma LaterEventsCannotChangeSettledLabels(inputs: Inputs, a: seq<StageEvent>, b: seq<StageEvent>, last: int)
    requires Cut(a, last) == Cut(b, last)
    ensures Filter((l: Label) => Settled(l, last), Labels(inputs, a))
         == Filter((l: Label) => Settled(l, last), Labels(inputs, b))
  {
    SettledLabelsSurviveTheCut(inputs, a, last);
    SettledLabelsSurviveTheCut(inputs, b, last);
  }
}
