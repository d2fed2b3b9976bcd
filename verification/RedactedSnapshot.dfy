/**
  The redacted profile snapshot: evidence is ordered by its own content, so the order in
  which records arrive leaves no trace. Numbers appear as the text Python prints them as.
 */
module RedactedSnapshot {
  import opened Common
  import opened Sequences
  import opened Sorting
  import opened Text
  import opened ContactAlias

  const MAX_SOURCES: nat := 20
  const MAX_ORDERS: nat := 8
  const MAX_ITEMS_PER_ORDER: nat := 5
  const MAX_VEHICLES: nat := 10
  const MAX_RELATIONSHIPS: nat := 20

  const UNIT_SEPARATOR: char := '\U{001F}'
  const RECORD_SEPARATOR: char := '\U{001E}'

  // ----- Inputs -----

  datatype SourceRecord = SourceRecord(
    sourceRecordId: string,
    recordType: string,
    category: string,
    observed: Option<string>,
    quality: Option<string>,
    trust: Option<string>,
    confidence: string,
    rawPayload: string)

  datatype OrderItem = OrderItem(product: Option<string>, category: Option<string>)

  datatype Order = Order(
    orderId: string,
    date: Option<string>,
    total: string,
    currency: Option<string>,
    merchant: Option<string>,
    items: seq<OrderItem>)

  datatype Vehicle = Vehicle(
    vehicleId: string,
    product: Option<string>,
    manufacturer: Option<string>,
    model: Option<string>,
    relationship: string,
    serialNumber: string)

  datatype Relationship = Relationship(
    relationshipId: string,
    relatedPersonId: string,
    category: string,
    direction: string,
    date: Option<string>,
    relatedPersonName: string)

  datatype DataQuality = DataQuality(
    gaps: seq<string>,
    conflicts: seq<string>,
    staleAreas: seq<string>,
    omittedSources: int,
    omittedOrders: int,
    omittedOrderItems: int,
    omittedVehicles: int,
    omittedRelationships: int)

  datatype SnapshotInput = SnapshotInput(
    profile: string,
    sources: seq<SourceRecord>,
    orders: seq<Order>,
    vehicles: seq<Vehicle>,
    relationships: seq<Relationship>,
    quality: DataQuality)

  /** What the constructors of labels, dates, currencies and enumerations guarantee of an optional text. */
  predicate Present(text: Option<string>) {
    text.Some? ==> text.value != ""
  }

  /** A label has no control characters, the separators among them. */
  predicate PlainLabel(text: Option<string>) {
    text.Some? ==> text.value != "" && UNIT_SEPARATOR !in text.value && RECORD_SEPARATOR !in text.value
  }

  predicate ValidSource(r: SourceRecord) {
    Present(r.observed) && Present(r.quality) && Present(r.trust)
  }

  predicate ValidItem(i: OrderItem) {
    PlainLabel(i.product) && PlainLabel(i.category)
  }

  predicate ValidOrder(o: Order) {
    Present(o.date) && Present(o.currency) && PlainLabel(o.merchant) && forall i :: i in o.items ==> ValidItem(i)
  }

  predicate ValidVehicle(v: Vehicle) {
    PlainLabel(v.product) && PlainLabel(v.manufacturer) && PlainLabel(v.model)
  }

  predicate ValidRelationship(r: Relationship) {
    Present(r.date)
  }

  predicate ValidInput(s: SnapshotInput) {
    && (forall r :: r in s.sources ==> ValidSource(r))
    && (forall o :: o in s.orders ==> ValidOrder(o))
    && (forall v :: v in s.vehicles ==> ValidVehicle(v))
    && (forall r :: r in s.relationships ==> ValidRelationship(r))
  }

  // ----- Sort keys -----

  function TextOr(text: Option<string>): string {
    if text.Some? then text.value else ""
  }

  function SourceKey(r: SourceRecord): seq<string> {
    [TextOr(r.observed), r.recordType, r.category, TextOr(r.quality), TextOr(r.trust), r.confidence, r.sourceRecordId]
  }

  function ItemKey(i: OrderItem): seq<string> {
    [TextOr(i.product), TextOr(i.category)]
  }

  predicate ItemLe(a: OrderItem, b: OrderItem) {
    TupleLe(ItemKey(a), ItemKey(b))
  }

  function ItemText(i: OrderItem): string {
    TextOr(i.product) + [RECORD_SEPARATOR] + TextOr(i.category)
  }

  function JoinItems(items: seq<OrderItem>): string {
    if items == [] then ""
    else if |items| == 1 then ItemText(items[0])
    else ItemText(items[0]) + [UNIT_SEPARATOR] + JoinItems(items[1..])
  }

  function OrderKey(o: Order): seq<string> {
    [TextOr(o.date), o.total, TextOr(o.currency), TextOr(o.merchant), JoinItems(Sort(ItemLe, o.items)), o.orderId]
  }

  function VehicleKey(v: Vehicle): seq<string> {
    [TextOr(v.product), TextOr(v.manufacturer), TextOr(v.model), v.relationship, v.vehicleId]
  }

  function RelationshipKey(r: Relationship): seq<string> {
    [r.relatedPersonId, r.category, r.direction, TextOr(r.date), r.relationshipId]
  }

  predicate SourceLe(a: SourceRecord, b: SourceRecord) {
    TupleLe(SourceKey(a), SourceKey(b))
  }

  predicate OrderLe(a: Order, b: Order) {
    TupleLe(OrderKey(a), OrderKey(b))
  }

  predicate VehicleLe(a: Vehicle, b: Vehicle) {
    TupleLe(VehicleKey(a), VehicleKey(b))
  }

  predicate RelationshipLe(a: Relationship, b: Relationship) {
    TupleLe(RelationshipKey(a), RelationshipKey(b))
  }

  // ----- Evidence -----

  datatype SourceEvidence = SourceEvidence(
    ref: string,
    recordType: string,
    category: string,
    observed: Option<string>,
    quality: Option<string>,
    trust: Option<string>,
    confidence: string)

  datatype OrderEvidence = OrderEvidence(
    ref: string,
    date: Option<string>,
    total: string,
    currency: Option<string>,
    merchant: Option<string>,
    items: seq<OrderItem>)

  datatype VehicleEvidence = VehicleEvidence(
    ref: string,
    product: Option<string>,
    manufacturer: Option<string>,
    model: Option<string>,
    relationship: string)

  datatype RelationshipEvidence = RelationshipEvidence(
    ref: string,
    contactAlias: string,
    category: string,
    direction: string,
    date: Option<string>)

  datatype Snapshot = Snapshot(
    profile: string,
    sources: seq<SourceEvidence>,
    orders: seq<OrderEvidence>,
    vehicles: seq<VehicleEvidence>,
    relationships: seq<RelationshipEvidence>,
    quality: DataQuality)

  /** References count from one. */
  function Ref(kind: string, index: nat): string {
    kind + "-" + Decimal(index + 1)
  }

  function SafeSource(index: nat, r: SourceRecord): SourceEvidence {
    SourceEvidence(Ref("source", index), r.recordType, r.category, r.observed, r.quality, r.trust, r.confidence)
  }

  function SafeOrder(index: nat, o: Order): OrderEvidence {
    OrderEvidence(Ref("order", index), o.date, o.total, o.currency, o.merchant,
                  KeepFirst(Sort(ItemLe, o.items), MAX_ITEMS_PER_ORDER))
  }

  function SafeVehicle(index: nat, v: Vehicle): VehicleEvidence {
    VehicleEvidence(Ref("vehicle", index), v.product, v.manufacturer, v.model, v.relationship)
  }

  function KeepFirst<A>(s: seq<A>, n: nat): seq<A> {
    if |s| <= n then s else s[..n]
  }

  function KeepLast<A>(s: seq<A>, n: nat): seq<A> {
    if |s| <= n then s else s[|s| - n..]
  }

  function Numbered<A, E>(make: (nat, A) -> E, s: seq<A>): (r: seq<E>)
    ensures |r| == |s|
    ensures forall i :: 0 <= i < |s| ==> r[i] == make(i, s[i])
  {
    seq(|s|, i requires 0 <= i < |s| => make(i, s[i]))
  }

  function RelatedIds(relationships: seq<Relationship>): (ids: seq<string>)
    ensures |ids| == |relationships|
    ensures forall i :: 0 <= i < |ids| ==> ids[i] == relationships[i].relatedPersonId
  {
    Map((r: Relationship) => r.relatedPersonId, relationships)
  }

  function SafeRelationships(relationships: seq<Relationship>): (r: seq<RelationshipEvidence>)
    ensures |r| == |relationships|
    ensures forall i :: 0 <= i < |r| ==>
              relationships[i].relatedPersonId in RelatedIds(relationships)
              && r[i] == RelationshipEvidence(Ref("relationship", i),
                                              AliasOf(RelatedIds(relationships), relationships[i].relatedPersonId),
                                              relationships[i].category, relationships[i].direction,
                                              relationships[i].date)
  {
    var ids := RelatedIds(relationships);
    assert forall i :: 0 <= i < |relationships| ==> ids[i] in ids;
    seq(|relationships|, i requires 0 <= i < |relationships| =>
      RelationshipEvidence(Ref("relationship", i), AliasOf(ids, relationships[i].relatedPersonId),
                           relationships[i].category, relationships[i].direction, relationships[i].date))
  }

  function ItemCount(o: Order): int {
    |o.items|
  }

  function KeptItemCount(o: Order): int {
    if |o.items| <= MAX_ITEMS_PER_ORDER then |o.items| else MAX_ITEMS_PER_ORDER
  }

  /** Items of dropped orders and items beyond the limit of kept ones. */
  function NewlyOmittedItems(sorted: seq<Order>): int {
    Sum(Map(ItemCount, sorted)) - Sum(Map(KeptItemCount, KeepLast(sorted, MAX_ORDERS)))
  }

  function TruncatedAreas(sources: nat, orders: nat, vehicles: nat, relationships: nat): seq<string> {
    (if sources > MAX_SOURCES then ["source_records"] else [])
    + (if orders > MAX_ORDERS then ["orders"] else [])
    + (if vehicles > MAX_VEHICLES then ["vehicles"] else [])
    + (if relationships > MAX_RELATIONSHIPS then ["relationships"] else [])
  }

  function Excess(count: nat, limit: nat): nat {
    if count > limit then count - limit else 0
  }

  function BuildQuality(q: DataQuality, sources: nat, orders: nat, items: int, vehicles: nat, relationships: nat)
    : DataQuality
  {
    DataQuality(
      DistinctSorted(q.gaps + TruncatedAreas(sources, orders, vehicles, relationships)),
      DistinctSorted(q.conflicts),
      DistinctSorted(q.staleAreas),
      q.omittedSources + Excess(sources, MAX_SOURCES),
      q.omittedOrders + Excess(orders, MAX_ORDERS),
      q.omittedOrderItems + items,
      q.omittedVehicles + Excess(vehicles, MAX_VEHICLES),
      q.omittedRelationships + Excess(relationships, MAX_RELATIONSHIPS))
  }

  function SafeSources(sorted: seq<SourceRecord>): seq<SourceEvidence> {
    Numbered(SafeSource, KeepLast(sorted, MAX_SOURCES))
  }

  function SafeOrders(sorted: seq<Order>): seq<OrderEvidence> {
    Numbered(SafeOrder, KeepLast(sorted, MAX_ORDERS))
  }

  function SafeVehicles(sorted: seq<Vehicle>): seq<VehicleEvidence> {
    Numbered(SafeVehicle, KeepFirst(sorted, MAX_VEHICLES))
  }

  function BuildSnapshot(s: SnapshotInput): Snapshot {
    var sources, orders := Sort(SourceLe, s.sources), Sort(OrderLe, s.orders);
    var vehicles, relationships := Sort(VehicleLe, s.vehicles), Sort(RelationshipLe, s.relationships);
    Snapshot(
      s.profile, SafeSources(sources), SafeOrders(orders), SafeVehicles(vehicles),
      SafeRelationships(KeepLast(relationships, MAX_RELATIONSHIPS)),
      BuildQuality(s.quality, |sources|, |orders|, NewlyOmittedItems(orders), |vehicles|, |relationships|))
  }
}
