/** The redacted snapshot does not depend on arrival order, and it accounts for everything it drops. */
module SnapshotCanon {
  import opened Common
  import opened Sequences
  import opened Sorting
  import opened Text
  import opened ContactAlias
  import opened RedactedSnapshot

  // ----- The joined item key loses nothing -----

  /** The text before the first separator and the text after it can be read back. */
  lemma {:induction false} SplitAtSeparator(p: string, q: string, separator: char, s: string, t: string)
    requires separator !in p && separator !in q
    requires p + [separator] + s == q + [separator] + t
    ensures p == q && s == t
  {
    var l, r := p + [separator] + s, q + [separator] + t;
    assert l[0] == if p == "" then separator else p[0];
    assert r[0] == if q == "" then separator else q[0];
    if p != "" && q != "" {
      assert l[1..] == p[1..] + [separator] + s;
      assert r[1..] == q[1..] + [separator] + t;
      SplitAtSeparator(p[1..], q[1..], separator, s, t);
    } else {
      assert l[1..] == s && r[1..] == t;
    }
  }

  lemma PlainText(text: Option<string>)
    requires PlainLabel(text)
    ensures UNIT_SEPARATOR !in TextOr(text) && RECORD_SEPARATOR !in TextOr(text)
  {
  }

  lemma ItemTextIsPlain(i: OrderItem)
    requires ValidItem(i)
    ensures UNIT_SEPARATOR !in ItemText(i)
  {
    PlainText(i.product);
    PlainText(i.category);
  }

  lemma ItemTextIsInjective(i: OrderItem, j: OrderItem)
    requires ValidItem(i) && ValidItem(j) && ItemText(i) == ItemText(j)
    ensures i == j
  {
    PlainText(i.product);
    PlainText(j.product);
    SplitAtSeparator(TextOr(i.product), TextOr(j.product), RECORD_SEPARATOR, TextOr(i.category), TextOr(j.category));
  }

  ghost predicate AllValid(items: seq<OrderItem>) {
    forall i :: i in items ==> ValidItem(i)
  }

  lemma {:induction false} SeparatorMarksMore(items: seq<OrderItem>)
    requires AllValid(items)
    ensures UNIT_SEPARATOR in JoinItems(items) <==> |items| > 1
    ensures JoinItems(items) == "" <==> items == []
  {
    if |items| == 1 {
      ItemTextIsPlain(items[0]);
      assert RECORD_SEPARATOR in ItemText(items[0]);
    } else if |items| > 1 {
      var joined := JoinItems(items);
      assert joined[|ItemText(items[0])|] == UNIT_SEPARATOR;
    }
  }

  /** Lists of control-free items with equal joined keys are equal. */
  lemma {:induction false} JoinIsInjective(a: seq<OrderItem>, b: seq<OrderItem>)
    requires AllValid(a) && AllValid(b) && JoinItems(a) == JoinItems(b)
    ensures a == b
  {
    SeparatorMarksMore(a);
    SeparatorMarksMore(b);
    if a != [] {
      ItemTextIsPlain(a[0]);
      ItemTextIsPlain(b[0]);
      if |a| == 1 {
        ItemTextIsInjective(a[0], b[0]);
      } else {
        SplitAtSeparator(ItemText(a[0]), ItemText(b[0]), UNIT_SEPARATOR, JoinItems(a[1..]), JoinItems(b[1..]));
        ItemTextIsInjective(a[0], b[0]);
        JoinIsInjective(a[1..], b[1..]);
      }
    }
  }

  // ----- Equal keys, equal evidence -----

  lemma TextIsInjective(a: Option<string>, b: Option<string>)
    requires Present(a) && Present(b) && TextOr(a) == TextOr(b)
    ensures a == b
  {
  }

  lemma SourceFromKey(index: nat, a: SourceRecord, b: SourceRecord)
    requires ValidSource(a) && ValidSource(b) && SourceKey(a) == SourceKey(b)
    ensures SafeSource(index, a) == SafeSource(index, b)
  {
    var k, l := SourceKey(a), SourceKey(b);
    assert k[0] == l[0] && k[1] == l[1] && k[2] == l[2] && k[3] == l[3] && k[4] == l[4] && k[5] == l[5];
    TextIsInjective(a.observed, b.observed);
    TextIsInjective(a.quality, b.quality);
    TextIsInjective(a.trust, b.trust);
  }

  lemma VehicleFromKey(index: nat, a: Vehicle, b: Vehicle)
    requires ValidVehicle(a) && ValidVehicle(b) && VehicleKey(a) == VehicleKey(b)
    ensures SafeVehicle(index, a) == SafeVehicle(index, b)
  {
    var k, l := VehicleKey(a), VehicleKey(b);
    assert k[0] == l[0] && k[1] == l[1] && k[2] == l[2] && k[3] == l[3];
    TextIsInjective(a.product, b.product);
    TextIsInjective(a.manufacturer, b.manufacturer);
    TextIsInjective(a.model, b.model);
  }

  lemma SortedItemsAreValid(o: Order)
    requires ValidOrder(o)
    ensures AllValid(Sort(ItemLe, o.items)) && |Sort(ItemLe, o.items)| == |o.items|
  {
    SortPermutes(ItemLe, o.items);
  }

  /** The key of an order determines its evidence and how many items it has. */
  lemma OrderFromKey(index: nat, a: Order, b: Order)
    requires ValidOrder(a) && ValidOrder(b) && OrderKey(a) == OrderKey(b)
    ensures SafeOrder(index, a) == SafeOrder(index, b) && |a.items| == |b.items|
  {
    var k, l := OrderKey(a), OrderKey(b);
    assert k[0] == l[0] && k[1] == l[1] && k[2] == l[2] && k[3] == l[3] && k[4] == l[4];
    TextIsInjective(a.date, b.date);
    TextIsInjective(a.currency, b.currency);
    TextIsInjective(a.merchant, b.merchant);
    SortedItemsAreValid(a);
    SortedItemsAreValid(b);
    JoinIsInjective(Sort(ItemLe, a.items), Sort(ItemLe, b.items));
  }

  lemma RelationshipFromKey(a: Relationship, b: Relationship)
    requires ValidRelationship(a) && ValidRelationship(b) && RelationshipKey(a) == RelationshipKey(b)
    ensures a.relatedPersonId == b.relatedPersonId && a.category == b.category
    ensures a.direction == b.direction && a.date == b.date
  {
    var k, l := RelationshipKey(a), RelationshipKey(b);
    assert k[0] == l[0] && k[1] == l[1] && k[2] == l[2] && k[3] == l[3];
    TextIsInjective(a.date, b.date);
  }

  // ----- Equal keys in any order, equal snapshots -----

  ghost predicate SameKeys<T>(key: T -> seq<string>, s: seq<T>, t: seq<T>) {
    multiset(Map(key, s)) == multiset(Map(key, t))
  }

  /** The same areas, however often and in whichever order, and the same counts. */
  ghost predicate SameQuality(q: DataQuality, r: DataQuality) {
    && r == q.(gaps := r.gaps, conflicts := r.conflicts, staleAreas := r.staleAreas)
    && (forall area :: area in q.gaps <==> area in r.gaps)
    && (forall area :: area in q.conflicts <==> area in r.conflicts)
    && (forall area :: area in q.staleAreas <==> area in r.staleAreas)
  }

  lemma QualityAlike(q: DataQuality, r: DataQuality, sources: nat, orders: nat, items: int, vehicles: nat,
                     relationships: nat)
    requires SameQuality(q, r)
    ensures BuildQuality(q, sources, orders, items, vehicles, relationships)
         == BuildQuality(r, sources, orders, items, vehicles, relationships)
  {
    var truncated := TruncatedAreas(sources, orders, vehicles, relationships);
    SortedSetDependsOnElements(q.gaps + truncated, r.gaps + truncated);
    SortedSetDependsOnElements(q.conflicts, r.conflicts);
    SortedSetDependsOnElements(q.staleAreas, r.staleAreas);
  }

  ghost predicate SameEvidence(a: SnapshotInput, b: SnapshotInput) {
    && a.profile == b.profile && SameQuality(a.quality, b.quality)
    && SameKeys(SourceKey, a.sources, b.sources)
    && SameKeys(OrderKey, a.orders, b.orders)
    && SameKeys(VehicleKey, a.vehicles, b.vehicles)
    && SameKeys(RelationshipKey, a.relationships, b.relationships)
  }

  lemma SortedAlike<T(!new)>(key: T -> seq<string>, leq: (T, T) -> bool, s: seq<T>, t: seq<T>)
    requires forall x, y :: leq(x, y) == TupleLe(key(x), key(y))
    requires SameKeys(key, s, t)
    ensures |Sort(leq, s)| == |Sort(leq, t)| == |s| == |t|
    ensures forall i :: 0 <= i < |s| ==> key(Sort(leq, s)[i]) == key(Sort(leq, t)[i])
    ensures forall x :: x in Sort(leq, s) ==> x in s
    ensures forall x :: x in Sort(leq, t) ==> x in t
  {
    TupleOrder();
    SortByKeyUnique(TupleLe, key, leq, s, t);
    SortPermutes(leq, s);
    SortPermutes(leq, t);
    var a, b := Map(key, Sort(leq, s)), Map(key, Sort(leq, t));
    assert forall i :: 0 <= i < |s| ==> a[i] == b[i];
  }

  lemma SourcesAlike(a: seq<SourceRecord>, b: seq<SourceRecord>)
    requires SameKeys(SourceKey, a, b)
    requires (forall r :: r in a ==> ValidSource(r)) && (forall r :: r in b ==> ValidSource(r))
    ensures |Sort(SourceLe, a)| == |Sort(SourceLe, b)|
    ensures SafeSources(Sort(SourceLe, a)) == SafeSources(Sort(SourceLe, b))
  {
    SortedAlike(SourceKey, SourceLe, a, b);
    var s, t := KeepLast(Sort(SourceLe, a), MAX_SOURCES), KeepLast(Sort(SourceLe, b), MAX_SOURCES);
    forall i | 0 <= i < |s|
      ensures SafeSource(i, s[i]) == SafeSource(i, t[i])
    {
      var n := |a| - |s| + i;
      assert s[i] == Sort(SourceLe, a)[n] && t[i] == Sort(SourceLe, b)[n];
      SourceFromKey(i, s[i], t[i]);
    }
  }

  lemma VehiclesAlike(a: seq<Vehicle>, b: seq<Vehicle>)
    requires SameKeys(VehicleKey, a, b)
    requires (forall v :: v in a ==> ValidVehicle(v)) && (forall v :: v in b ==> ValidVehicle(v))
    ensures |Sort(VehicleLe, a)| == |Sort(VehicleLe, b)|
    ensures SafeVehicles(Sort(VehicleLe, a)) == SafeVehicles(Sort(VehicleLe, b))
  {
    SortedAlike(VehicleKey, VehicleLe, a, b);
    var s, t := KeepFirst(Sort(VehicleLe, a), MAX_VEHICLES), KeepFirst(Sort(VehicleLe, b), MAX_VEHICLES);
    forall i | 0 <= i < |s|
      ensures SafeVehicle(i, s[i]) == SafeVehicle(i, t[i])
    {
      assert s[i] == Sort(VehicleLe, a)[i] && t[i] == Sort(VehicleLe, b)[i];
      VehicleFromKey(i, s[i], t[i]);
    }
  }

  ghost predicate OrdersMatch(s: seq<Order>, t: seq<Order>) {
    |s| == |t| && forall i :: 0 <= i < |s| ==> ValidOrder(s[i]) && ValidOrder(t[i]) && OrderKey(s[i]) == OrderKey(t[i])
  }

  lemma SortedOrdersMatch(a: seq<Order>, b: seq<Order>)
    requires SameKeys(OrderKey, a, b)
    requires (forall o :: o in a ==> ValidOrder(o)) && (forall o :: o in b ==> ValidOrder(o))
    ensures OrdersMatch(Sort(OrderLe, a), Sort(OrderLe, b))
  {
    SortedAlike(OrderKey, OrderLe, a, b);
  }

  lemma MatchingOrdersShowTheSame(s: seq<Order>, t: seq<Order>)
    requires OrdersMatch(s, t)
    ensures Numbered(SafeOrder, s) == Numbered(SafeOrder, t)
    ensures Map(ItemCount, s) == Map(ItemCount, t) && Map(KeptItemCount, s) == Map(KeptItemCount, t)
  {
    forall i | 0 <= i < |s|
      ensures SafeOrder(i, s[i]) == SafeOrder(i, t[i]) && |s[i].items| == |t[i].items|
    {
      OrderFromKey(i, s[i], t[i]);
    }
  }

  lemma OrdersAlike(a: seq<Order>, b: seq<Order>)
    requires SameKeys(OrderKey, a, b)
    requires (forall o :: o in a ==> ValidOrder(o)) && (forall o :: o in b ==> ValidOrder(o))
    ensures |Sort(OrderLe, a)| == |Sort(OrderLe, b)|
    ensures SafeOrders(Sort(OrderLe, a)) == SafeOrders(Sort(OrderLe, b))
    ensures NewlyOmittedItems(Sort(OrderLe, a)) == NewlyOmittedItems(Sort(OrderLe, b))
  {
    SortedOrdersMatch(a, b);
    MatchingOrdersShowTheSame(Sort(OrderLe, a), Sort(OrderLe, b));
    MatchingOrdersShowTheSame(KeepLast(Sort(OrderLe, a), MAX_ORDERS), KeepLast(Sort(OrderLe, b), MAX_ORDERS));
  }

  lemma RelationshipsAlike(a: seq<Relationship>, b: seq<Relationship>)
    requires SameKeys(RelationshipKey, a, b)
    requires (forall r :: r in a ==> ValidRelationship(r)) && (forall r :: r in b ==> ValidRelationship(r))
    ensures |Sort(RelationshipLe, a)| == |Sort(RelationshipLe, b)|
    ensures SafeRelationships(KeepLast(Sort(RelationshipLe, a), MAX_RELATIONSHIPS))
         == SafeRelationships(KeepLast(Sort(RelationshipLe, b), MAX_RELATIONSHIPS))
  {
    SortedAlike(RelationshipKey, RelationshipLe, a, b);
    var s := KeepLast(Sort(RelationshipLe, a), MAX_RELATIONSHIPS);
    var t := KeepLast(Sort(RelationshipLe, b), MAX_RELATIONSHIPS);
    forall i | 0 <= i < |s|
      ensures s[i].relatedPersonId == t[i].relatedPersonId && s[i].category == t[i].category
      ensures s[i].direction == t[i].direction && s[i].date == t[i].date
    {
      var n := |a| - |s| + i;
      assert s[i] == Sort(RelationshipLe, a)[n] && t[i] == Sort(RelationshipLe, b)[n];
      RelationshipFromKey(s[i], t[i]);
    }
    assert RelatedIds(s) == RelatedIds(t);
    assert SafeRelationships(s) == SafeRelationships(t);
  }

  lemma SameEvidenceSameSnapshot(a: SnapshotInput, b: SnapshotInput)
    requires ValidInput(a) && ValidInput(b) && SameEvidence(a, b)
    ensures BuildSnapshot(a) == BuildSnapshot(b)
  {
    SourcesAlike(a.sources, b.sources);
    OrdersAlike(a.orders, b.orders);
    VehiclesAlike(a.vehicles, b.vehicles);
    RelationshipsAlike(a.relationships, b.relationships);
    var orders := Sort(OrderLe, a.orders);
    QualityAlike(a.quality, b.quality, |Sort(SourceLe, a.sources)|, |orders|, NewlyOmittedItems(orders),
                 |Sort(VehicleLe, a.vehicles)|, |Sort(RelationshipLe, a.relationships)|);
  }

  // ----- Rearrangement -----

  /** The same order with its items in another order. */
  ghost predicate ItemsRearranged(o: Order, p: Order) {
    p == o.(items := p.items) && multiset(o.items) == multiset(p.items)
  }

  lemma RearrangedItemsSameKey(o: Order, p: Order)
    requires ValidOrder(o) && ValidOrder(p) && ItemsRearranged(o, p)
    ensures OrderKey(o) == OrderKey(p)
  {
    TupleOrder();
    MapPermutes(ItemKey, o.items, p.items);
    SortByKeyUnique(TupleLe, ItemKey, ItemLe, o.items, p.items);
    var s, t := Sort(ItemLe, o.items), Sort(ItemLe, p.items);
    SortedItemsAreValid(o);
    SortedItemsAreValid(p);
    assert |Map(ItemKey, s)| == |Map(ItemKey, t)|;
    forall i | 0 <= i < |s|
      ensures s[i] == t[i]
    {
      assert Map(ItemKey, s)[i] == Map(ItemKey, t)[i];
      ItemFromKey(s[i], t[i]);
    }
    assert s == t;
  }

  lemma ItemFromKey(i: OrderItem, j: OrderItem)
    requires ValidItem(i) && ValidItem(j) && ItemKey(i) == ItemKey(j)
    ensures i == j
  {
    assert ItemKey(i)[0] == ItemKey(j)[0] && ItemKey(i)[1] == ItemKey(j)[1];
    TextIsInjective(i.product, j.product);
    TextIsInjective(i.category, j.category);
  }

  /**
    Permuting sources, orders, vehicles or relationships, the items inside any order, and permuting or
    repeating quality areas, gives the identical snapshot: `orders` lists the orders of `a` in the arrangement of `b`,
    items aside.
   */
  lemma SnapshotIsCanonical(a: SnapshotInput, b: SnapshotInput, orders: seq<Order>)
    requires ValidInput(a) && ValidInput(b) && a.profile == b.profile && SameQuality(a.quality, b.quality)
    requires multiset(a.sources) == multiset(b.sources)
    requires multiset(a.vehicles) == multiset(b.vehicles)
    requires multiset(a.relationships) == multiset(b.relationships)
    requires multiset(a.orders) == multiset(orders) && |orders| == |b.orders|
    requires forall i :: 0 <= i < |orders| ==> ItemsRearranged(orders[i], b.orders[i])
    ensures BuildSnapshot(a) == BuildSnapshot(b)
  {
    MapPermutes(SourceKey, a.sources, b.sources);
    MapPermutes(VehicleKey, a.vehicles, b.vehicles);
    MapPermutes(RelationshipKey, a.relationships, b.relationships);
    MapPermutes(OrderKey, a.orders, orders);
    PermutationSameElements(a.orders, orders);
    forall i | 0 <= i < |orders|
      ensures OrderKey(orders[i]) == OrderKey(b.orders[i])
    {
      assert orders[i] in a.orders && b.orders[i] in b.orders;
      RearrangedItemsSameKey(orders[i], b.orders[i]);
    }
    assert Map(OrderKey, orders) == Map(OrderKey, b.orders);
    SameEvidenceSameSnapshot(a, b);
  }

  // ----- What is kept -----

  /** `kept` and `dropped` are the input split so that nothing dropped comes after anything kept. */
  ghost predicate KeepsGreatest<T(!new)>(leq: (T, T) -> bool, input: seq<T>, kept: seq<T>, dropped: seq<T>) {
    && multiset(kept) + multiset(dropped) == multiset(input)
    && SortedBy(leq, kept)
    && forall d, k :: d in dropped && k in kept ==> leq(d, k)
  }

  ghost predicate KeepsLeast<T(!new)>(leq: (T, T) -> bool, input: seq<T>, kept: seq<T>, dropped: seq<T>) {
    && multiset(kept) + multiset(dropped) == multiset(input)
    && SortedBy(leq, kept)
    && forall d, k :: d in dropped && k in kept ==> leq(k, d)
  }

  lemma KeepLastKeepsGreatest<T(!new)>(leq: (T, T) -> bool, input: seq<T>, n: nat) returns (dropped: seq<T>)
    requires TotalPreorder(leq)
    ensures KeepsGreatest(leq, input, KeepLast(Sort(leq, input), n), dropped)
  {
    var sorted := Sort(leq, input);
    SortPermutes(leq, input);
    SortSorted(leq, input);
    var kept := KeepLast(sorted, n);
    dropped := sorted[..|sorted| - |kept|];
    assert sorted == dropped + kept;
    forall d, k | d in dropped && k in kept
      ensures leq(d, k)
    {
      var i :| 0 <= i < |dropped| && dropped[i] == d;
      var j :| 0 <= j < |kept| && kept[j] == k;
      assert sorted[i] == d && sorted[|dropped| + j] == k;
    }
  }

  lemma KeepFirstKeepsLeast<T(!new)>(leq: (T, T) -> bool, input: seq<T>, n: nat) returns (dropped: seq<T>)
    requires TotalPreorder(leq)
    ensures KeepsLeast(leq, input, KeepFirst(Sort(leq, input), n), dropped)
  {
    var sorted := Sort(leq, input);
    SortPermutes(leq, input);
    SortSorted(leq, input);
    var kept := KeepFirst(sorted, n);
    dropped := sorted[|kept|..];
    assert sorted == kept + dropped;
    forall d, k | d in dropped && k in kept
      ensures leq(k, d)
    {
      var i :| 0 <= i < |dropped| && dropped[i] == d;
      var j :| 0 <= j < |kept| && kept[j] == k;
      assert sorted[|kept| + i] == d && sorted[j] == k;
    }
  }

  /** Of sources, orders and relationships the greatest are shown, of vehicles the least, each in ascending order. */
  lemma ShowsTheLatest(s: SnapshotInput)
    returns (sources: seq<SourceRecord>, orders: seq<Order>, vehicles: seq<Vehicle>, relationships: seq<Relationship>)
    ensures var snapshot := BuildSnapshot(s);
            && snapshot.sources == Numbered(SafeSource, sources)
            && snapshot.orders == Numbered(SafeOrder, orders)
            && snapshot.vehicles == Numbered(SafeVehicle, vehicles)
            && snapshot.relationships == SafeRelationships(relationships)
    ensures exists dropped :: KeepsGreatest(SourceLe, s.sources, sources, dropped)
    ensures exists dropped :: KeepsGreatest(OrderLe, s.orders, orders, dropped)
    ensures exists dropped :: KeepsLeast(VehicleLe, s.vehicles, vehicles, dropped)
    ensures exists dropped :: KeepsGreatest(RelationshipLe, s.relationships, relationships, dropped)
  {
    TupleOrder();
    sources := KeepLast(Sort(SourceLe, s.sources), MAX_SOURCES);
    orders := KeepLast(Sort(OrderLe, s.orders), MAX_ORDERS);
    vehicles := KeepFirst(Sort(VehicleLe, s.vehicles), MAX_VEHICLES);
    relationships := KeepLast(Sort(RelationshipLe, s.relationships), MAX_RELATIONSHIPS);
    var a := KeepLastKeepsGreatest(SourceLe, s.sources, MAX_SOURCES);
    var b := KeepLastKeepsGreatest(OrderLe, s.orders, MAX_ORDERS);
    var c := KeepFirstKeepsLeast(VehicleLe, s.vehicles, MAX_VEHICLES);
    var d := KeepLastKeepsGreatest(RelationshipLe, s.relationships, MAX_RELATIONSHIPS);
  }

  // ----- Conservation -----

  function EvidenceItemCount(o: OrderEvidence): int {
    |o.items|
  }

  lemma EvidenceItems(orders: seq<Order>)
    ensures Map(EvidenceItemCount, Numbered(SafeOrder, orders)) == Map(KeptItemCount, orders)
  {
    forall i | 0 <= i < |orders|
      ensures EvidenceItemCount(SafeOrder(i, orders[i])) == KeptItemCount(orders[i])
    {
      SortPermutes(ItemLe, orders[i].items);
    }
  }

  lemma {:induction false} KeptAreFewer(sorted: seq<Order>, kept: seq<Order>)
    requires |kept| <= |sorted| && kept == sorted[|sorted| - |kept|..]
    ensures Sum(Map(KeptItemCount, kept)) <= Sum(Map(ItemCount, sorted))
    decreases |sorted|
  {
    if sorted != [] {
      assert Map(ItemCount, sorted)[1..] == Map(ItemCount, sorted[1..]);
      if |kept| < |sorted| {
        KeptAreFewer(sorted[1..], kept);
      } else {
        assert Map(KeptItemCount, kept)[1..] == Map(KeptItemCount, kept[1..]);
        KeptAreFewer(sorted[1..], kept[1..]);
      }
    }
  }

  /** What is retained and what is newly counted as omitted add up to what came in; nothing is counted negative. */
  lemma NothingIsLost(s: SnapshotInput)
    ensures var snapshot := BuildSnapshot(s);
            && |snapshot.sources| + (snapshot.quality.omittedSources - s.quality.omittedSources) == |s.sources|
            && |snapshot.orders| + (snapshot.quality.omittedOrders - s.quality.omittedOrders) == |s.orders|
            && |snapshot.vehicles| + (snapshot.quality.omittedVehicles - s.quality.omittedVehicles) == |s.vehicles|
            && |snapshot.relationships| + (snapshot.quality.omittedRelationships - s.quality.omittedRelationships)
               == |s.relationships|
            && |snapshot.sources| <= MAX_SOURCES && |snapshot.orders| <= MAX_ORDERS
            && |snapshot.vehicles| <= MAX_VEHICLES && |snapshot.relationships| <= MAX_RELATIONSHIPS
  {
    SortPermutes(SourceLe, s.sources);
    SortPermutes(OrderLe, s.orders);
    SortPermutes(VehicleLe, s.vehicles);
    SortPermutes(RelationshipLe, s.relationships);
  }

  /** Items of dropped orders count as omitted like the items beyond the limit of kept ones. */
  lemma NoItemIsLost(s: SnapshotInput)
    ensures var snapshot := BuildSnapshot(s);
            var omitted := snapshot.quality.omittedOrderItems - s.quality.omittedOrderItems;
            && Sum(Map(EvidenceItemCount, snapshot.orders)) + omitted == Sum(Map(ItemCount, s.orders))
            && 0 <= omitted
  {
    var sorted := Sort(OrderLe, s.orders);
    var kept := KeepLast(sorted, MAX_ORDERS);
    EvidenceItems(kept);
    KeptAreFewer(sorted, kept);
    SortPermutes(OrderLe, s.orders);
    MapPermutes(ItemCount, sorted, s.orders);
    SumPermutes(Map(ItemCount, sorted), Map(ItemCount, s.orders));
  }

  /** Within a snapshot two relationships share an alias exactly when they share the related person. */
  lemma AliasesTellRelationshipsApart(s: SnapshotInput, i: nat, j: nat)
    requires i < |BuildSnapshot(s).relationships| && j < |BuildSnapshot(s).relationships|
    ensures var kept := KeepLast(Sort(RelationshipLe, s.relationships), MAX_RELATIONSHIPS);
            BuildSnapshot(s).relationships[i].contactAlias == BuildSnapshot(s).relationships[j].contactAlias
            <==> kept[i].relatedPersonId == kept[j].relatedPersonId
  {
    var kept := KeepLast(Sort(RelationshipLe, s.relationships), MAX_RELATIONSHIPS);
    var ids := RelatedIds(kept);
    assert ids[i] in ids && ids[j] in ids;
    AliasesTellPeopleApart(ids, ids[i], ids[j]);
  }
}
