/** What the redacted snapshot shows of each record it keeps, and in which order it keeps them. */
module SnapshotEvidence {
  import opened Common
  import opened Sequences
  import opened Sorting
  import opened Text
  import opened ContactAlias
  import opened RedactedSnapshot
  import opened SnapshotCanon

  // ----- The orders, field by field -----

  lemma SourceOrderReads(a: SourceRecord, b: SourceRecord)
    ensures SourceLe(a, b) <==>
            if TextOr(a.observed) != TextOr(b.observed) then StringLe(TextOr(a.observed), TextOr(b.observed))
            else if a.recordType != b.recordType then StringLe(a.recordType, b.recordType)
            else if a.category != b.category then StringLe(a.category, b.category)
            else if TextOr(a.quality) != TextOr(b.quality) then StringLe(TextOr(a.quality), TextOr(b.quality))
            else if TextOr(a.trust) != TextOr(b.trust) then StringLe(TextOr(a.trust), TextOr(b.trust))
            else if a.confidence != b.confidence then StringLe(a.confidence, b.confidence)
            else StringLe(a.sourceRecordId, b.sourceRecordId)
  {
    var k, l := SourceKey(a), SourceKey(b);
    SevenDecide(k, l);
  }

  lemma OrderOrderReads(a: Order, b: Order)
    ensures var items, others := JoinItems(Sort(ItemLe, a.items)), JoinItems(Sort(ItemLe, b.items));
            OrderLe(a, b) <==>
            if TextOr(a.date) != TextOr(b.date) then StringLe(TextOr(a.date), TextOr(b.date))
            else if a.total != b.total then StringLe(a.total, b.total)
            else if TextOr(a.currency) != TextOr(b.currency) then StringLe(TextOr(a.currency), TextOr(b.currency))
            else if TextOr(a.merchant) != TextOr(b.merchant) then StringLe(TextOr(a.merchant), TextOr(b.merchant))
            else if items != others then StringLe(items, others)
            else StringLe(a.orderId, b.orderId)
  {
    var k, l := OrderKey(a), OrderKey(b);
    SixDecide(k, l, 0);
  }

  lemma VehicleOrderReads(a: Vehicle, b: Vehicle)
    ensures VehicleLe(a, b) <==>
            if TextOr(a.product) != TextOr(b.product) then StringLe(TextOr(a.product), TextOr(b.product))
            else if TextOr(a.manufacturer) != TextOr(b.manufacturer) then
              StringLe(TextOr(a.manufacturer), TextOr(b.manufacturer))
            else if TextOr(a.model) != TextOr(b.model) then StringLe(TextOr(a.model), TextOr(b.model))
            else if a.relationship != b.relationship then StringLe(a.relationship, b.relationship)
            else StringLe(a.vehicleId, b.vehicleId)
  {
    var k, l := VehicleKey(a), VehicleKey(b);
    FiveDecide(k, l, 0);
  }

  lemma RelationshipOrderReads(a: Relationship, b: Relationship)
    ensures RelationshipLe(a, b) <==>
            if a.relatedPersonId != b.relatedPersonId then StringLe(a.relatedPersonId, b.relatedPersonId)
            else if a.category != b.category then StringLe(a.category, b.category)
            else if a.direction != b.direction then StringLe(a.direction, b.direction)
            else if TextOr(a.date) != TextOr(b.date) then StringLe(TextOr(a.date), TextOr(b.date))
            else StringLe(a.relationshipId, b.relationshipId)
  {
    var k, l := RelationshipKey(a), RelationshipKey(b);
    FiveDecide(k, l, 0);
  }

  lemma ItemOrderReads(a: OrderItem, b: OrderItem)
    ensures ItemLe(a, b) <==>
            if TextOr(a.product) != TextOr(b.product) then StringLe(TextOr(a.product), TextOr(b.product))
            else StringLe(TextOr(a.category), TextOr(b.category))
  {
    var k, l := ItemKey(a), ItemKey(b);
    LexDecides(StringLe, k, l, 0);
    LastDecides(k, l);
    assert k[0..] == k && l[0..] == l;
  }

  lemma LastDecides(k: seq<string>, l: seq<string>)
    requires |k| == |l| > 0
    ensures LexLe(StringLe, k[|k| - 1..], l[|l| - 1..]) <==> StringLe(k[|k| - 1], l[|l| - 1])
  {
    LexDecides(StringLe, k, l, |k| - 1);
    StringOrder();
    assert k[|k|..] == [] && l[|l|..] == [];
  }

  lemma FiveDecide(k: seq<string>, l: seq<string>, n: nat)
    requires |k| == |l| == n + 5
    ensures LexLe(StringLe, k[n..], l[n..]) <==>
            if k[n] != l[n] then StringLe(k[n], l[n])
            else if k[n + 1] != l[n + 1] then StringLe(k[n + 1], l[n + 1])
            else if k[n + 2] != l[n + 2] then StringLe(k[n + 2], l[n + 2])
            else if k[n + 3] != l[n + 3] then StringLe(k[n + 3], l[n + 3])
            else StringLe(k[n + 4], l[n + 4])
    ensures n == 0 ==> k[n..] == k && l[n..] == l
  {
    LexDecides(StringLe, k, l, n);
    LexDecides(StringLe, k, l, n + 1);
    LexDecides(StringLe, k, l, n + 2);
    LexDecides(StringLe, k, l, n + 3);
    LastDecides(k, l);
  }

  lemma SixDecide(k: seq<string>, l: seq<string>, n: nat)
    requires |k| == |l| == n + 6
    ensures LexLe(StringLe, k[n..], l[n..]) <==>
            if k[n] != l[n] then StringLe(k[n], l[n]) else LexLe(StringLe, k[n + 1..], l[n + 1..])
    ensures LexLe(StringLe, k[n + 1..], l[n + 1..]) <==>
            if k[n + 1] != l[n + 1] then StringLe(k[n + 1], l[n + 1])
            else if k[n + 2] != l[n + 2] then StringLe(k[n + 2], l[n + 2])
            else if k[n + 3] != l[n + 3] then StringLe(k[n + 3], l[n + 3])
            else if k[n + 4] != l[n + 4] then StringLe(k[n + 4], l[n + 4])
            else StringLe(k[n + 5], l[n + 5])
    ensures n == 0 ==> k[n..] == k && l[n..] == l
  {
    LexDecides(StringLe, k, l, n);
    FiveDecide(k, l, n + 1);
  }

  lemma SevenDecide(k: seq<string>, l: seq<string>)
    requires |k| == |l| == 7
    ensures LexLe(StringLe, k, l) <==>
            if k[0] != l[0] then StringLe(k[0], l[0])
            else if k[1] != l[1] then StringLe(k[1], l[1])
            else if k[2] != l[2] then StringLe(k[2], l[2])
            else if k[3] != l[3] then StringLe(k[3], l[3])
            else if k[4] != l[4] then StringLe(k[4], l[4])
            else if k[5] != l[5] then StringLe(k[5], l[5])
            else StringLe(k[6], l[6])
  {
    LexDecides(StringLe, k, l, 0);
    SixDecide(k, l, 1);
    assert k[0..] == k && l[0..] == l;
  }

  // ----- What is shown -----

  predicate ShowsSource(e: SourceEvidence, r: SourceRecord, number: nat) {
    && e.ref == "source-" + Decimal(number) && e.recordType == r.recordType && e.category == r.category
    && e.observed == r.observed && e.quality == r.quality && e.trust == r.trust && e.confidence == r.confidence
  }

  /** Of the items the least are shown, five at most. */
  ghost predicate ShowsOrder(e: OrderEvidence, o: Order, number: nat) {
    && e.ref == "order-" + Decimal(number) && e.date == o.date && e.total == o.total && e.currency == o.currency
    && e.merchant == o.merchant && |e.items| == Least(|o.items|, 5)
    && exists dropped :: KeepsLeast(ItemLe, o.items, e.items, dropped)
  }

  predicate ShowsVehicle(e: VehicleEvidence, v: Vehicle, number: nat) {
    && e.ref == "vehicle-" + Decimal(number) && e.product == v.product && e.manufacturer == v.manufacturer
    && e.model == v.model && e.relationship == v.relationship
  }

  /** The alias counts the related persons of the shown relationships that come before. */
  ghost predicate ShowsRelationship(e: RelationshipEvidence, r: Relationship, number: nat, shown: seq<Relationship>) {
    && e.ref == "relationship-" + Decimal(number) && e.category == r.category && e.direction == r.direction
    && e.date == r.date
    && e.contactAlias == "Contact " + Letters(|PersonsBefore(shown, r.relatedPersonId)|)
  }

  ghost function PersonsBefore(shown: seq<Relationship>, person: string): set<string> {
    set r | r in shown && TextBefore(r.relatedPersonId, person) :: r.relatedPersonId
  }

  function Least(a: nat, b: nat): nat {
    if a <= b then a else b
  }

  lemma AliasCountsPersons(shown: seq<Relationship>, person: string)
    requires person in RelatedIds(shown)
    ensures AliasOf(RelatedIds(shown), person) == "Contact " + Letters(|PersonsBefore(shown, person)|)
  {
    var ids := RelatedIds(shown);
    AliasCountsPredecessors(ids, person);
    forall x
      ensures x in Predecessors(ids, person) <==> x in PersonsBefore(shown, person)
    {
      TextBeforeExactly(x, person);
      if x in ids {
        var i :| 0 <= i < |ids| && ids[i] == x;
        assert shown[i] in shown;
      }
      if x in PersonsBefore(shown, person) {
        var r :| r in shown && TextBefore(r.relatedPersonId, person) && r.relatedPersonId == x;
        var i :| 0 <= i < |shown| && shown[i] == r;
        assert ids[i] == x;
      }
    }
    assert Predecessors(ids, person) == PersonsBefore(shown, person);
  }

  lemma OrderIsShown(index: nat, o: Order)
    ensures ShowsOrder(SafeOrder(index, o), o, index + 1)
  {
    TupleOrder();
    SortPermutes(ItemLe, o.items);
    var dropped := KeepFirstKeepsLeast(ItemLe, o.items, MAX_ITEMS_PER_ORDER);
  }

  lemma SourcesAreShown(sources: seq<SourceRecord>)
    ensures forall i :: 0 <= i < |sources| ==> ShowsSource(Numbered(SafeSource, sources)[i], sources[i], i + 1)
  {
  }

  lemma OrdersAreShown(orders: seq<Order>)
    ensures forall i :: 0 <= i < |orders| ==> ShowsOrder(Numbered(SafeOrder, orders)[i], orders[i], i + 1)
  {
    forall i | 0 <= i < |orders|
      ensures ShowsOrder(SafeOrder(i, orders[i]), orders[i], i + 1)
    {
      OrderIsShown(i, orders[i]);
    }
  }

  lemma VehiclesAreShown(vehicles: seq<Vehicle>)
    ensures forall i :: 0 <= i < |vehicles| ==> ShowsVehicle(Numbered(SafeVehicle, vehicles)[i], vehicles[i], i + 1)
  {
  }

  lemma RelationshipsAreShown(relationships: seq<Relationship>)
    ensures forall i :: 0 <= i < |relationships| ==>
              ShowsRelationship(SafeRelationships(relationships)[i], relationships[i], i + 1, relationships)
  {
    forall i | 0 <= i < |relationships|
      ensures ShowsRelationship(SafeRelationships(relationships)[i], relationships[i], i + 1, relationships)
    {
      AliasCountsPersons(relationships, relationships[i].relatedPersonId);
    }
  }

  /** What the snapshot shows of the records it keeps, each numbered from one. */
  ghost predicate ShowsKept(t: Snapshot, sources: seq<SourceRecord>, orders: seq<Order>, vehicles: seq<Vehicle>,
                            relationships: seq<Relationship>) {
    && |t.sources| == |sources| && |t.orders| == |orders| && |t.vehicles| == |vehicles|
    && |t.relationships| == |relationships|
    && (forall i :: 0 <= i < |sources| ==> ShowsSource(t.sources[i], sources[i], i + 1))
    && (forall i :: 0 <= i < |orders| ==> ShowsOrder(t.orders[i], orders[i], i + 1))
    && (forall i :: 0 <= i < |vehicles| ==> ShowsVehicle(t.vehicles[i], vehicles[i], i + 1))
    && (forall i :: 0 <= i < |relationships| ==>
          ShowsRelationship(t.relationships[i], relationships[i], i + 1, relationships))
  }

  lemma KeptIsShown(t: Snapshot, sources: seq<SourceRecord>, orders: seq<Order>, vehicles: seq<Vehicle>,
                    relationships: seq<Relationship>)
    requires t.sources == Numbered(SafeSource, sources) && t.orders == Numbered(SafeOrder, orders)
    requires t.vehicles == Numbered(SafeVehicle, vehicles) && t.relationships == SafeRelationships(relationships)
    ensures ShowsKept(t, sources, orders, vehicles, relationships)
  {
    SourcesAreShown(sources);
    OrdersAreShown(orders);
    VehiclesAreShown(vehicles);
    RelationshipsAreShown(relationships);
  }

  /**
    The snapshot shows the profile and, numbered from one, what each kept record carries: the greatest
    of sources, orders and relationships and the least of vehicles, up to the limit of each.
   */
  lemma SnapshotShows(s: SnapshotInput)
    returns (sources: seq<SourceRecord>, orders: seq<Order>, vehicles: seq<Vehicle>, relationships: seq<Relationship>)
    ensures exists dropped :: KeepsGreatest(SourceLe, s.sources, sources, dropped)
    ensures exists dropped :: KeepsGreatest(OrderLe, s.orders, orders, dropped)
    ensures exists dropped :: KeepsLeast(VehicleLe, s.vehicles, vehicles, dropped)
    ensures exists dropped :: KeepsGreatest(RelationshipLe, s.relationships, relationships, dropped)
    ensures BuildSnapshot(s).profile == s.profile
    ensures |sources| == Least(|s.sources|, 20) && |orders| == Least(|s.orders|, 8)
    ensures |vehicles| == Least(|s.vehicles|, 10) && |relationships| == Least(|s.relationships|, 20)
    ensures ShowsKept(BuildSnapshot(s), sources, orders, vehicles, relationships)
  {
    sources, orders, vehicles, relationships := ShowsTheLatest(s);
    KeptIsShown(BuildSnapshot(s), sources, orders, vehicles, relationships);
    ShownCounts(s);
  }

  lemma ShownCounts(s: SnapshotInput)
    ensures var t := BuildSnapshot(s);
            && |t.sources| == Least(|s.sources|, 20) && |t.orders| == Least(|s.orders|, 8)
            && |t.vehicles| == Least(|s.vehicles|, 10) && |t.relationships| == Least(|s.relationships|, 20)
  {
    SortPermutes(SourceLe, s.sources);
    SortPermutes(OrderLe, s.orders);
    SortPermutes(VehicleLe, s.vehicles);
    SortPermutes(RelationshipLe, s.relationships);
  }

  // ----- What is said of quality -----

  ghost predicate IsSortedSet(s: seq<string>) {
    forall i, j :: 0 <= i < j < |s| ==> TextBefore(s[i], s[j])
  }

  lemma DistinctSortedIsSet(s: seq<string>)
    ensures IsSortedSet(DistinctSorted(s)) && forall x :: x in DistinctSorted(s) <==> x in s
  {
    StringOrder();
    DedupDistinct(s);
    SortSorted(StringLe, Dedup(s));
    SortPermutes(StringLe, Dedup(s));
    PermutationSameElements(DistinctSorted(s), Dedup(s));
    DistinctCounts(Dedup(s));
    DistinctCounts(DistinctSorted(s));
    forall i, j | 0 <= i < j < |DistinctSorted(s)|
      ensures TextBefore(DistinctSorted(s)[i], DistinctSorted(s)[j])
    {
      TextBeforeExactly(DistinctSorted(s)[i], DistinctSorted(s)[j]);
    }
  }

  ghost predicate GapsSay(gaps: seq<string>, given: seq<string>, sources: nat, orders: nat, vehicles: nat,
                          relationships: nat) {
    forall area :: area in gaps <==>
      || area in given
      || (area == "source_records" && sources > 20) || (area == "orders" && orders > 8)
      || (area == "vehicles" && vehicles > 10) || (area == "relationships" && relationships > 20)
  }

  lemma TruncatedAreasSay(sources: nat, orders: nat, vehicles: nat, relationships: nat)
    ensures GapsSay(TruncatedAreas(sources, orders, vehicles, relationships), [], sources, orders, vehicles,
                    relationships)
  {
  }

  lemma GapsAreSaid(given: seq<string>, sources: nat, orders: nat, vehicles: nat, relationships: nat)
    ensures GapsSay(DistinctSorted(given + TruncatedAreas(sources, orders, vehicles, relationships)), given,
                    sources, orders, vehicles, relationships)
  {
    var truncated := TruncatedAreas(sources, orders, vehicles, relationships);
    TruncatedAreasSay(sources, orders, vehicles, relationships);
    DistinctSortedIsSet(given + truncated);
    assert forall area :: area in given + truncated <==> area in given || area in truncated;
  }

  /** The gaps are those given and the areas whose limit was exceeded; each list of areas is a sorted set. */
  lemma QualityShows(s: SnapshotInput)
    ensures var q := BuildSnapshot(s).quality;
            && IsSortedSet(q.gaps) && IsSortedSet(q.conflicts) && IsSortedSet(q.staleAreas)
            && GapsSay(q.gaps, s.quality.gaps, |s.sources|, |s.orders|, |s.vehicles|, |s.relationships|)
            && (forall area :: area in q.conflicts <==> area in s.quality.conflicts)
            && (forall area :: area in q.staleAreas <==> area in s.quality.staleAreas)
  {
    SortPermutes(SourceLe, s.sources);
    SortPermutes(OrderLe, s.orders);
    SortPermutes(VehicleLe, s.vehicles);
    SortPermutes(RelationshipLe, s.relationships);
    GapsAreSaid(s.quality.gaps, |s.sources|, |s.orders|, |s.vehicles|, |s.relationships|);
    DistinctSortedIsSet(s.quality.gaps + TruncatedAreas(|s.sources|, |s.orders|, |s.vehicles|, |s.relationships|));
    DistinctSortedIsSet(s.quality.conflicts);
    DistinctSortedIsSet(s.quality.staleAreas);
  }
}
