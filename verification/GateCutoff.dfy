/**
  A later evidence cutoff: it resolves labels that were waiting for it and changes no other,
  label by label, over the published list, and together with later events.
 */
module GateCutoff {
  import opened Common
  import opened Sequences
  import opened Sorting
  import opened StageTimeline
  import opened GateLabels
  import opened GateLocality

  // ----- One label -----

  /** The same evidence read at a later cutoff. */
  ghost predicate LaterCutoff(a: Inputs, b: Inputs) {
    && a.release.evidenceCutoffAt <= b.release.evidenceCutoffAt
    && b == a.(release := a.release.(evidenceCutoffAt := b.release.evidenceCutoffAt))
  }

  predicate WinAvailable(won: Option<StageEvent>, cutoff: int) {
    won.Some? && won.value.availableAt <= cutoff
  }

  /** The verdict a later cutoff gives, from the verdict an earlier one gave. */
  function Revised(before: Verdict, won: Option<StageEvent>, horizon: int, cutoff: int): Verdict {
    if before.reason == ImmatureHorizon && horizon <= cutoff then Verdict(Negative, MatureNoFirstWon, false)
    else if before.reason == WonUnavailableByCutoff && WinAvailable(won, cutoff) then
      Verdict(Positive, FirstWonInHorizon, false)
    else before
  }

  lemma VerdictAtLaterCutoff(a: GateRelease, b: GateRelease, selected: Result<DealVersion, Reason>, linked: bool,
                             supported: bool, known: KnownTimeline, snapshot: int, invalidEvent: bool)
    requires a.evidenceCutoffAt <= b.evidenceCutoffAt && b == a.(evidenceCutoffAt := b.evidenceCutoffAt)
    requires selected.Err? ==>
               selected.error in {InvalidParentTimestamp, MissingParentAtSnapshot, SelectedParentAmbiguity}
    ensures OperationalVerdict(b, selected, linked, supported, known, snapshot, invalidEvent)
         == Revised(OperationalVerdict(a, selected, linked, supported, known, snapshot, invalidEvent),
                    known.won, snapshot + HORIZON, b.evidenceCutoffAt)
  {
  }

  /** The label under a verdict and a maturity. */
  function Resolved(l: Label, mature: bool, status: LabelStatus, reason: Reason): Label {
    l.(mature := mature, status := status, reason := reason)
  }

  /**
    Advancing the cutoff leaves an operational label as it is, maturity aside, unless it was immature
    and its horizon has passed, or it was a win whose event had not become available.
   */
  lemma CutoffOnlyResolvesLabels(a: Inputs, b: Inputs, entry: Entry)
    requires LaterCutoff(a, b) && a.selector == Operational
    ensures var before, after := LabelOf(a, entry), LabelOf(b, entry);
            var matured := before.snapshotAt + HORIZON <= b.release.evidenceCutoffAt;
            && (before.mature ==> matured)
            && after == if before.reason == ImmatureHorizon && matured then
                          Resolved(before, true, Negative, MatureNoFirstWon)
                        else if before.reason == WonUnavailableByCutoff
                                && WinAvailable(FirstWon(entry.timeline), b.release.evidenceCutoffAt) then
                          Resolved(before, matured, Positive, FirstWonInHorizon)
                        else
                          Resolved(before, matured, before.status, before.reason)
  {
    var snapshot := OperationalSnapshot(entry.event);
    var selected := SelectVersion(VersionsOf(entry.parent, a.versions), snapshot);
    VerdictAtLaterCutoff(a.release, b.release, selected, PersonLinked(selected, snapshot),
                         LabelOf(a, entry).entityKey in a.entityKeys, TimelineAsKnown(entry.timeline, snapshot),
                         snapshot, entry.parent in a.invalidParents);
  }

  /** A retrospective label changes only from immature, to positive or negative. */
  lemma CutoffOnlyResolvesRetrospectiveLabels(a: Inputs, b: Inputs, entry: Entry)
    requires LaterCutoff(a, b) && a.selector == Retrospective
    ensures var before, after := LabelOf(a, entry), LabelOf(b, entry);
            var matured := before.snapshotAt + HORIZON <= b.release.evidenceCutoffAt;
            after == if before.reason == ImmatureHorizon && matured then
                       if WonInHorizon(entry.timeline, before.snapshotAt) then
                         Resolved(before, true, Positive, FirstWonInHorizon)
                       else Resolved(before, true, Negative, MatureNoFirstWon)
                     else Resolved(before, matured, before.status, before.reason)
  {
  }

  /** What a later cutoff makes of a label, read off the label and its parent's timeline. */
  function Advanced(selector: Selector, l: Label, timeline: seq<StageEvent>, cutoff: int): Label {
    var matured := l.snapshotAt + HORIZON <= cutoff;
    if l.reason == ImmatureHorizon && matured then
      if selector == Retrospective && WonInHorizon(timeline, l.snapshotAt) then
        Resolved(l, true, Positive, FirstWonInHorizon)
      else Resolved(l, true, Negative, MatureNoFirstWon)
    else if l.reason == WonUnavailableByCutoff && WinAvailable(FirstWon(timeline), cutoff) then
      Resolved(l, matured, Positive, FirstWonInHorizon)
    else Resolved(l, matured, l.status, l.reason)
  }

  lemma LabelAdvances(a: Inputs, b: Inputs, entry: Entry)
    requires LaterCutoff(a, b)
    ensures LabelOf(b, entry)
         == Advanced(b.selector, LabelOf(a, entry), entry.timeline, b.release.evidenceCutoffAt)
  {
    match a.selector
    case Operational => CutoffOnlyResolvesLabels(a, b, entry);
    case Retrospective =>
      CutoffOnlyResolvesRetrospectiveLabels(a, b, entry);
      RetrospectiveWinsAreAvailable(a, entry);
  }

  lemma RetrospectiveWinsAreAvailable(a: Inputs, entry: Entry)
    requires a.selector == Retrospective
    ensures LabelOf(a, entry).reason != WonUnavailableByCutoff
  {
  }

  // ----- The published list -----

  /** The listed labels at a later cutoff, each by the timeline of its own parent. */
  function AdvancedList(b: Inputs, events: seq<StageEvent>, labels: seq<Label>): seq<Label> {
    Map((l: Label) => Advanced(b.selector, l, Timeline(l.parent, events), b.release.evidenceCutoffAt), labels)
  }

  lemma AdvancedListPermutes(b: Inputs, events: seq<StageEvent>, s: seq<Label>, t: seq<Label>)
    requires multiset(s) == multiset(t)
    ensures multiset(AdvancedList(b, events, s)) == multiset(AdvancedList(b, events, t))
  {
    MapPermutes((l: Label) => Advanced(b.selector, l, Timeline(l.parent, events), b.release.evidenceCutoffAt), s, t);
  }

  lemma EntryCarriesItsTimeline(p: ParentKey, timeline: seq<StageEvent>, entry: Entry)
    requires entry in EntriesOf(p, timeline)
    ensures entry.parent == p && entry.timeline == timeline
  {
  }

  lemma {:induction false} EntriesCarryTimelines(entriesOf: ParentKey -> seq<Entry>, parents: seq<ParentKey>,
                                                 events: seq<StageEvent>, entry: Entry)
    requires forall p :: entriesOf(p) == EntriesOf(p, Timeline(p, events))
    requires entry in FlatMap(entriesOf, parents)
    ensures entry.timeline == Timeline(entry.parent, events)
  {
    if parents != [] {
      var p := parents[|parents| - 1];
      if entry in entriesOf(p) {
        EntryCarriesItsTimeline(p, Timeline(p, events), entry);
      } else {
        EntriesCarryTimelines(entriesOf, parents[..|parents| - 1], events, entry);
      }
    }
  }

  lemma LabelsAdvance(a: Inputs, b: Inputs, events: seq<StageEvent>)
    requires LaterCutoff(a, b)
    ensures LabelsOf(b, OpenEntries(events)) == AdvancedList(b, events, LabelsOf(a, OpenEntries(events)))
  {
    var entries := OpenEntries(events);
    forall i | 0 <= i < |entries|
      ensures LabelOf(b, entries[i]) == AdvancedList(b, events, LabelsOf(a, entries))[i]
    {
      EntriesCarryTimelines(p => EntriesOf(p, Timeline(p, events)), Parents(events), events, entries[i]);
      LabelAdvances(a, b, entries[i]);
    }
  }

  /** The list published at a later cutoff is the list published before, label by label advanced. */
  lemma PublishedListAdvances(a: Inputs, b: Inputs, events: seq<StageEvent>)
    requires LaterCutoff(a, b)
    ensures multiset(Labels(b, events)) == multiset(AdvancedList(b, events, Labels(a, events)))
  {
    var before, after := LabelsOf(a, OpenEntries(events)), LabelsOf(b, OpenEntries(events));
    LabelsAdvance(a, b, events);
    SortPermutes(LabelLe, before);
    SortPermutes(LabelLe, after);
    AdvancedListPermutes(b, events, Labels(a, events), before);
  }

  // ----- A later run -----

  /** The labels of a list that are settled by an instant. */
  function SettledBy(labels: seq<Label>, last: int): seq<Label> {
    Filter((l: Label) => Settled(l, last), labels)
  }

  lemma SettledPublished(inputs: Inputs, events: seq<StageEvent>, last: int)
    ensures multiset(SettledBy(Labels(inputs, events), last))
         == multiset(SettledBy(LabelsOf(inputs, OpenEntries(events)), last))
  {
    LabelOrder();
    var settled := (l: Label) => Settled(l, last);
    FilterSort(LabelLe, settled, LabelsOf(inputs, OpenEntries(events)));
    SortPermutes(LabelLe, SettledBy(LabelsOf(inputs, OpenEntries(events)), last));
  }

  lemma SettledAdvance(a: Inputs, b: Inputs, events: seq<StageEvent>, last: int)
    requires LaterCutoff(a, b)
    ensures multiset(SettledBy(Labels(b, events), last))
         == multiset(AdvancedList(b, events, SettledBy(LabelsOf(a, OpenEntries(events)), last)))
  {
    var settled := (l: Label) => Settled(l, last);
    SettledPublished(b, events, last);
    LabelsAdvance(a, b, events);
    FilterMapCommute(settled, settled,
                     (l: Label) => Advanced(b.selector, l, Timeline(l.parent, events), b.release.evidenceCutoffAt),
                     LabelsOf(a, OpenEntries(events)));
  }

  /**
    A later run, over any history that agrees with the earlier one up to an instant and at a later
    cutoff, publishes the labels settled by that instant as before, each advanced to its cutoff by
    what the earlier run had already read.
   */
  lemma LaterRunAdvancesSettledLabels(a: Inputs, b: Inputs, earlier: seq<StageEvent>, later: seq<StageEvent>, last: int)
    requires LaterCutoff(a, b) && Cut(earlier, last) == Cut(later, last)
    ensures multiset(SettledBy(Labels(b, later), last))
         == multiset(AdvancedList(b, earlier, SettledBy(Labels(a, earlier), last)))
  {
    LaterEventsCannotChangeSettledLabels(b, earlier, later, last);
    SettledAdvance(a, b, earlier, last);
    SettledPublished(a, earlier, last);
    AdvancedListPermutes(b, earlier, SettledBy(Labels(a, earlier), last),
                         SettledBy(LabelsOf(a, OpenEntries(earlier)), last));
  }

  lemma OperationalReason(release: GateRelease, selected: Result<DealVersion, Reason>, linked: bool, supported: bool,
                          known: KnownTimeline, snapshot: int, invalidEvent: bool)
    ensures var v := OperationalVerdict(release, selected, linked, supported, known, snapshot, invalidEvent);
            v.status in {Positive, Negative} ==> v.reason in {FirstWonInHorizon, MatureNoFirstWon}
  {
  }

  lemma DecidedReason(inputs: Inputs, entry: Entry)
    requires LabelOf(inputs, entry).status in {Positive, Negative}
    ensures LabelOf(inputs, entry).reason in {FirstWonInHorizon, MatureNoFirstWon}
  {
    if inputs.selector == Operational {
      var snapshot := OperationalSnapshot(entry.event);
      var selected := SelectVersion(VersionsOf(entry.parent, inputs.versions), snapshot);
      OperationalReason(inputs.release, selected, PersonLinked(selected, snapshot),
                        LabelOf(inputs, entry).entityKey in inputs.entityKeys,
                        TimelineAsKnown(entry.timeline, snapshot), snapshot, entry.parent in inputs.invalidParents);
    }
  }

  lemma PublishedReasons(inputs: Inputs, events: seq<StageEvent>)
    ensures forall l :: l in Labels(inputs, events) && l.status in {Positive, Negative} ==>
              l.reason in {FirstWonInHorizon, MatureNoFirstWon}
  {
    var entries := OpenEntries(events);
    SortPermutes(LabelLe, LabelsOf(inputs, entries));
    PermutationSameElements(Labels(inputs, events), LabelsOf(inputs, entries));
    forall l | l in Labels(inputs, events) && l.status in {Positive, Negative}
      ensures l.reason in {FirstWonInHorizon, MatureNoFirstWon}
    {
      var i :| 0 <= i < |entries| && LabelsOf(inputs, entries)[i] == l;
      DecidedReason(inputs, entries[i]);
    }
  }

  lemma AdvancedIsListed(b: Inputs, events: seq<StageEvent>, labels: seq<Label>, l: Label)
    requires l in labels
    ensures Advanced(b.selector, l, Timeline(l.parent, events), b.release.evidenceCutoffAt)
         in AdvancedList(b, events, labels)
  {
    var n :| 0 <= n < |labels| && labels[n] == l;
    assert AdvancedList(b, events, labels)[n] in AdvancedList(b, events, labels);
  }

  lemma DecidedIsKept(selector: Selector, l: Label, timeline: seq<StageEvent>, cutoff: int)
    requires l.reason in {FirstWonInHorizon, MatureNoFirstWon}
    ensures Advanced(selector, l, timeline, cutoff)
         == Resolved(l, l.snapshotAt + HORIZON <= cutoff, l.status, l.reason)
  {
  }

  lemma SettledAreAmongAll(inputs: Inputs, events: seq<StageEvent>, last: int, labels: seq<Label>, l: Label)
    requires multiset(SettledBy(Labels(inputs, events), last)) == multiset(labels)
    requires l in labels
    ensures l in Labels(inputs, events)
  {
    PermutationSameElements(SettledBy(Labels(inputs, events), last), labels);
  }

  /** A settled label once published as positive or negative is published so by every later run. */
  lemma DecidedLabelsStay(a: Inputs, b: Inputs, earlier: seq<StageEvent>, later: seq<StageEvent>, last: int, l: Label)
    requires LaterCutoff(a, b) && Cut(earlier, last) == Cut(later, last)
    requires l in Labels(a, earlier) && Settled(l, last) && l.status in {Positive, Negative}
    ensures Resolved(l, l.snapshotAt + HORIZON <= b.release.evidenceCutoffAt, l.status, l.reason) in Labels(b, later)
  {
    var kept, cutoff := SettledBy(Labels(a, earlier), last), b.release.evidenceCutoffAt;
    PublishedReasons(a, earlier);
    DecidedIsKept(b.selector, l, Timeline(l.parent, earlier), cutoff);
    AdvancedIsListed(b, earlier, kept, l);
    LaterRunAdvancesSettledLabels(a, b, earlier, later, last);
    SettledAreAmongAll(b, later, last, AdvancedList(b, earlier, kept),
                       Advanced(b.selector, l, Timeline(l.parent, earlier), cutoff));
  }

  // ----- The cutoff of a run -----

  function Latest(instants: seq<int>): (r: int)
    requires instants != []
    ensures r in instants && forall t :: t in instants ==> t <= r
  {
    if |instants| == 1 then instants[0]
    else
      assert forall t :: t in instants <==> t == instants[0] || t in instants[1..];
      var rest := Latest(instants[1..]);
      if rest <= instants[0] then instants[0] else rest
  }

  function Earlier(a: int, b: int): int {
    if a <= b then a else b
  }

  /** The acceptance of the release, the last event or the last availability, whichever is first. */
  function EvidenceCutoff(acceptedAt: int, events: seq<StageEvent>): int
    requires events != []
  {
    var lastEvent := Latest(Map((e: StageEvent) => e.eventAt, events));
    var lastAvailable := Latest(Map((e: StageEvent) => e.availableAt, events));
    Earlier(acceptedAt, Earlier(lastEvent, lastAvailable))
  }

  /** The cutoff is the latest instant by the acceptance that some event and some availability still reach. */
  lemma CutoffIsTheFirst(acceptedAt: int, events: seq<StageEvent>, t: int)
    requires events != []
    ensures t <= EvidenceCutoff(acceptedAt, events) <==>
            && t <= acceptedAt && (exists e :: e in events && t <= e.eventAt)
            && (exists e :: e in events && t <= e.availableAt)
  {
    LatestIs((e: StageEvent) => e.eventAt, events, t);
    LatestIs((e: StageEvent) => e.availableAt, events, t);
  }

  lemma LatestIs(f: StageEvent -> int, events: seq<StageEvent>, t: int)
    requires events != []
    ensures t <= Latest(Map(f, events)) <==> exists e :: e in events && t <= f(e)
  {
    var i :| 0 <= i < |events| && Map(f, events)[i] == Latest(Map(f, events));
    assert events[i] in events;
    if e :| e in events && t <= f(e) {
      var j :| 0 <= j < |events| && events[j] == e;
      assert Map(f, events)[j] in Map(f, events);
    }
  }

  lemma LatestOfMore(f: StageEvent -> int, a: seq<StageEvent>, b: seq<StageEvent>)
    requires a != [] && b != [] && forall e :: e in a ==> e in b
    ensures Latest(Map(f, a)) <= Latest(Map(f, b))
  {
    var i :| 0 <= i < |a| && Map(f, a)[i] == Latest(Map(f, a));
    assert a[i] in b;
    var j :| 0 <= j < |b| && b[j] == a[i];
    assert Map(f, b)[j] in Map(f, b);
  }

  /** The runner's cutoff moves with the events: with more of them, and a later acceptance, it never goes back. */
  lemma RunnerAdvancesSettledLabels(a: Inputs, acceptedA: int, acceptedB: int,
                                    earlier: seq<StageEvent>, later: seq<StageEvent>, last: int)
    requires earlier != [] && acceptedA <= acceptedB && forall e :: e in earlier ==> e in later
    requires a.release.evidenceCutoffAt == EvidenceCutoff(acceptedA, earlier)
    requires Cut(earlier, last) == Cut(later, last)
    ensures later != []
    ensures var b := a.(release := a.release.(evidenceCutoffAt := EvidenceCutoff(acceptedB, later)));
            && a.release.evidenceCutoffAt <= b.release.evidenceCutoffAt
            && multiset(SettledBy(Labels(b, later), last))
               == multiset(AdvancedList(b, earlier, SettledBy(Labels(a, earlier), last)))
  {
    assert earlier[0] in later;
    LatestOfMore((e: StageEvent) => e.eventAt, earlier, later);
    LatestOfMore((e: StageEvent) => e.availableAt, earlier, later);
    var b := a.(release := a.release.(evidenceCutoffAt := EvidenceCutoff(acceptedB, later)));
    LaterRunAdvancesSettledLabels(a, b, earlier, later, last);
  }
}
