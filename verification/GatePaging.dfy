/** Keyset pagination of the stage events, with the deal versions of each page's parents. */
module GatePaging {
  import opened Common
  import opened Sequences
  import opened Sorting
  import opened Text
  import opened StageTimeline

  const PAGE_SIZE: nat := 2000

  datatype StageRow = StageRow(identity: string, parent: ParentKey, payload: string)

  datatype DealRow = DealRow(versionKey: string, payload: string)

  /** A store that does not change while it is read. */
  datatype EvidenceStore = EvidenceStore(rows: seq<StageRow>, deals: ParentKey -> seq<DealRow>)

  /** `ORDER BY event_identity`. */
  ghost predicate Ordered(rows: seq<StageRow>) {
    forall i, j :: 0 <= i < j < |rows| ==> StringLe(rows[i].identity, rows[j].identity)
  }

  datatype PagingError = InvalidParentText | InvalidVersionKey | InvalidIdentity | DealVersionChanged | DidNotAdvance

  // ----- The query -----

  predicate IsAfter(row: StageRow, after: Option<string>) {
    after.None? || (after.value != row.identity && StringLe(after.value, row.identity))
  }

  function RowsAfter(rows: seq<StageRow>, after: Option<string>): seq<StageRow> {
    Filter((r: StageRow) => IsAfter(r, after), rows)
  }

  function FirstOf(rows: seq<StageRow>, limit: nat): seq<StageRow> {
    if |rows| <= limit then rows else rows[..limit]
  }

  function Page(rows: seq<StageRow>, after: Option<string>, limit: nat): seq<StageRow> {
    FirstOf(RowsAfter(rows, after), limit)
  }

  function LastIdentity(page: seq<StageRow>): string
    requires page != []
  {
    page[|page| - 1].identity
  }

  lemma NextCursorAdvances(rows: seq<StageRow>, after: Option<string>, limit: nat)
    requires Page(rows, after, limit) != []
    ensures after.Some? ==> !StringLe(LastIdentity(Page(rows, after, limit)), after.value)
    ensures after.Some? ==> StringLe(after.value, LastIdentity(Page(rows, after, limit)))
    ensures |RowsAfter(rows, Some(LastIdentity(Page(rows, after, limit))))| < |RowsAfter(rows, after)|
  {
    var page := Page(rows, after, limit);
    var last := page[|page| - 1];
    StringOrder();
    assert last in RowsAfter(rows, after);
    var p, q := (r: StageRow) => IsAfter(r, Some(last.identity)), (r: StageRow) => IsAfter(r, after);
    FilterTwice(p, q, rows);
    FilterDrops(p, RowsAfter(rows, after), last);
  }

  lemma {:induction false} FilterDrops<A(!new)>(p: A -> bool, s: seq<A>, x: A)
    requires x in s && !p(x)
    ensures |Filter(p, s)| < |s|
  {
    if s[0] != x {
      FilterDrops(p, s[1..], x);
    }
  }

  /** The rows the pages after a cursor yield. */
  function Scan(rows: seq<StageRow>, after: Option<string>, limit: nat): seq<StageRow>
    requires limit > 0
    decreases |RowsAfter(rows, after)|
  {
    var page := Page(rows, after, limit);
    if page == [] then []
    else if |page| < limit then page
    else
      NextCursorAdvances(rows, after, limit);
      page + Scan(rows, Some(LastIdentity(page)), limit)
  }

  // ----- What the pages yield -----

  /** No boundary between two full pages separates rows of one identity. */
  ghost predicate BoundariesSeparate(rows: seq<StageRow>, limit: nat)
    requires limit > 0
    decreases |rows|
  {
    |rows| > limit ==> rows[limit - 1].identity != rows[limit].identity && BoundariesSeparate(rows[limit..], limit)
  }

  lemma SuffixAfter(rows: seq<StageRow>, after: Option<string>)
    requires Ordered(rows)
    requires rows != [] ==> IsAfter(rows[0], after)
    ensures RowsAfter(rows, after) == rows
  {
    StringOrder();
    forall r | r in rows
      ensures IsAfter(r, after)
    {
      var i :| 0 <= i < |rows| && rows[i] == r;
      assert i > 0 ==> StringLe(rows[0].identity, rows[i].identity);
    }
    FilterAll((r: StageRow) => IsAfter(r, after), rows);
  }

  lemma BehindIsOfTheBack(rows: seq<StageRow>, limit: nat)
    requires Ordered(rows) && 0 < limit <= |rows|
    ensures RowsAfter(rows, Some(rows[limit - 1].identity)) == RowsAfter(rows[limit..], Some(rows[limit - 1].identity))
  {
    StringOrder();
    var p := (r: StageRow) => IsAfter(r, Some(rows[limit - 1].identity));
    var front, back := rows[..limit], rows[limit..];
    assert rows == front + back;
    FilterConcat(p, front, back);
    forall r | r in front
      ensures !p(r)
    {
      var i :| 0 <= i < limit && front[i] == r;
      assert i < limit - 1 ==> StringLe(rows[i].identity, rows[limit - 1].identity);
    }
    FilterNone(p, front);
  }

  lemma LeftBehindIsTheLast(rows: seq<StageRow>, limit: nat, r: StageRow)
    requires Ordered(rows) && 0 < limit <= |rows| && r in rows[limit..]
    ensures !IsAfter(r, Some(rows[limit - 1].identity)) ==> r.identity == rows[limit - 1].identity
  {
    var i :| limit <= i < |rows| && rows[i] == r;
    assert StringLe(rows[limit - 1].identity, rows[i].identity);
  }

  /** Behind a full page: everything, unless the next row repeats the identity the page ends with. */
  lemma BehindFullPage(rows: seq<StageRow>, limit: nat)
    requires Ordered(rows) && 0 < limit <= |rows|
    ensures var behind := RowsAfter(rows, Some(rows[limit - 1].identity));
            && behind == RowsAfter(rows[limit..], Some(rows[limit - 1].identity))
            && |behind| <= |rows| - limit && Ordered(behind)
            && (behind == rows[limit..] <==> |rows| == limit || rows[limit - 1].identity != rows[limit].identity)
            && (forall r :: r in rows[limit..] && r !in behind ==> r.identity == rows[limit - 1].identity)
  {
    var cursor, back := Some(rows[limit - 1].identity), rows[limit..];
    var p := (r: StageRow) => IsAfter(r, cursor);
    BehindIsOfTheBack(rows, limit);
    FilterOrdered(p, back);
    if back != [] {
      if rows[limit - 1].identity == rows[limit].identity {
        FilterDrops(p, back, back[0]);
      } else {
        StringOrder();
        SuffixAfter(back, cursor);
      }
    }
    forall r | r in back && !p(r)
      ensures r.identity == cursor.value
    {
      LeftBehindIsTheLast(rows, limit, r);
    }
  }

  lemma FilterOrdered(p: StageRow -> bool, rows: seq<StageRow>)
    requires Ordered(rows)
    ensures Ordered(Filter(p, rows))
  {
    var leq := (a: StageRow, b: StageRow) => StringLe(a.identity, b.identity);
    assert SortedBy(leq, rows);
    FilterSorted(leq, p, rows);
    assert forall i, j :: 0 <= i < j < |Filter(p, rows)| ==> leq(Filter(p, rows)[i], Filter(p, rows)[j]);
  }

  /** The scan of the rows that are still to come. */
  ghost function ScanRest(rest: seq<StageRow>, limit: nat): seq<StageRow>
    requires limit > 0 && Ordered(rest)
    decreases |rest|
  {
    if |rest| < limit then rest
    else
      BehindFullPage(rest, limit);
      rest[..limit] + ScanRest(RowsAfter(rest, Some(rest[limit - 1].identity)), limit)
  }

  lemma {:induction false} ScanIsOfTheRest(rows: seq<StageRow>, after: Option<string>, limit: nat)
    requires limit > 0 && Ordered(rows)
    ensures Ordered(RowsAfter(rows, after))
    ensures Scan(rows, after, limit) == ScanRest(RowsAfter(rows, after), limit)
    decreases |RowsAfter(rows, after)|
  {
    var rest := RowsAfter(rows, after);
    FilterOrdered((r: StageRow) => IsAfter(r, after), rows);
    if |rest| >= limit {
      var page := Page(rows, after, limit);
      assert page == rest[..limit];
      var cursor := Some(LastIdentity(page));
      NextCursorAdvances(rows, after, limit);
      LaterRows(rows, after, cursor.value);
      ScanIsOfTheRest(rows, cursor, limit);
    }
  }

  lemma LaterRows(rows: seq<StageRow>, after: Option<string>, cursor: string)
    requires after.Some? ==> StringLe(after.value, cursor)
    ensures RowsAfter(RowsAfter(rows, after), Some(cursor)) == RowsAfter(rows, Some(cursor))
  {
    StringOrder();
    FilterTwice((r: StageRow) => IsAfter(r, Some(cursor)), (r: StageRow) => IsAfter(r, after), rows);
  }

  /**
    Pagination returns the stored rows, each once and in order, exactly when no page boundary falls
    inside an identity.
   */
  lemma {:induction false} ScanIsExact(rest: seq<StageRow>, limit: nat)
    requires limit > 0 && Ordered(rest)
    ensures |ScanRest(rest, limit)| <= |rest|
    ensures ScanRest(rest, limit) == rest <==> BoundariesSeparate(rest, limit)
    decreases |rest|
  {
    if |rest| >= limit {
      BehindFullPage(rest, limit);
      var behind := RowsAfter(rest, Some(rest[limit - 1].identity));
      ScanIsExact(behind, limit);
      assert rest == rest[..limit] + rest[limit..];
      if behind != rest[limit..] {
        FilterShorter((r: StageRow) => IsAfter(r, Some(rest[limit - 1].identity)), rest[limit..]);
      }
    }
  }

  lemma {:induction false} FilterShorter<A(!new)>(p: A -> bool, s: seq<A>)
    ensures Filter(p, s) == s || |Filter(p, s)| < |s|
  {
    if s != [] {
      FilterShorter(p, s[1..]);
    }
  }

  /** Whatever the boundaries, every identity is returned. */
  lemma {:induction false} EveryIdentityIsScanned(rest: seq<StageRow>, limit: nat, row: StageRow)
    requires limit > 0 && Ordered(rest) && row in rest
    ensures exists r :: r in ScanRest(rest, limit) && r.identity == row.identity
    decreases |rest|
  {
    if |rest| >= limit {
      BehindFullPage(rest, limit);
      var behind := RowsAfter(rest, Some(rest[limit - 1].identity));
      assert rest == rest[..limit] + rest[limit..];
      if row in behind {
        EveryIdentityIsScanned(behind, limit, row);
        var r :| r in ScanRest(behind, limit) && r.identity == row.identity;
        assert r in ScanRest(rest, limit);
      } else if row in rest[..limit] {
        assert row in ScanRest(rest, limit);
      } else {
        assert rest[limit - 1] in rest[..limit];
        assert rest[limit - 1] in ScanRest(rest, limit);
      }
    } else {
      assert row in ScanRest(rest, limit);
    }
  }

  /** What the store's uniqueness constraint on mapping version and event identity guarantees of one release. */
  ghost predicate UniqueIdentities(rows: seq<StageRow>) {
    forall i, j :: 0 <= i < j < |rows| ==> rows[i].identity != rows[j].identity
  }

  /** Unique identities are enough, for any number of rows and any page size. */
  lemma {:induction false} UniqueIdentitiesSeparate(rows: seq<StageRow>, limit: nat)
    requires limit > 0 && UniqueIdentities(rows)
    ensures BoundariesSeparate(rows, limit)
    decreases |rows|
  {
    if |rows| > limit {
      UniqueIdentitiesSeparate(rows[limit..], limit);
    }
  }

  /**
    The loop relies on that constraint: at any page size, an identity repeated across the first
    boundary loses a row.
   */
  lemma RepeatedIdentityLosesARow(rows: seq<StageRow>, limit: nat)
    requires 0 < limit < |rows| && Ordered(rows)
    requires rows[limit - 1].identity == rows[limit].identity
    ensures |Scan(rows, None, limit)| < |rows|
  {
    FilterAll((r: StageRow) => IsAfter(r, None), rows);
    ScanIsOfTheRest(rows, None, limit);
    BehindFullPage(rows, limit);
    var behind := RowsAfter(rows, Some(rows[limit - 1].identity));
    ScanIsExact(behind, limit);
    FilterShorter((r: StageRow) => IsAfter(r, Some(rows[limit - 1].identity)), rows[limit..]);
  }

  // ----- The loop -----

  predicate TextPresent(p: ParentKey) {
    p.system != "" && p.record != ""
  }

  /** The versions the store returns for the parents of the rows. */
  function DealsOf(store: EvidenceStore, rows: seq<StageRow>): seq<DealRow> {
    FlatMap((r: StageRow) => store.deals(r.parent), rows)
  }

  /** Every version has a key, and a key stands for one version. */
  ghost predicate Keyed(versions: seq<DealRow>) {
    && (forall d :: d in versions ==> d.versionKey != "")
    && (forall d, e :: d in versions && e in versions && d.versionKey == e.versionKey ==> d == e)
  }

  /** Every parent is named and every version keyed. */
  ghost predicate Readable(store: EvidenceStore, rows: seq<StageRow>) {
    (forall r :: r in rows ==> TextPresent(r.parent)) && Keyed(DealsOf(store, rows))
  }

  /** Some row has a version, in the store's answer for its parent. */
  ghost predicate HasVersion(store: EvidenceStore, rows: seq<StageRow>, d: DealRow) {
    exists r :: r in rows && d in store.deals(r.parent)
  }

  /** What each error objects to. */
  ghost predicate Objects(store: EvidenceStore, rows: seq<StageRow>, e: PagingError) {
    match e
    case InvalidParentText => exists r :: r in rows && (r.parent.system == "" || r.parent.record == "")
    case InvalidVersionKey => exists d :: HasVersion(store, rows, d) && d.versionKey == ""
    case DealVersionChanged =>
      exists d, f :: HasVersion(store, rows, d) && HasVersion(store, rows, f) && d.versionKey == f.versionKey && d != f
    case InvalidIdentity => exists r :: r in rows && r.identity == ""
    case DidNotAdvance => false
  }

  lemma VersionsAreHad(store: EvidenceStore, rows: seq<StageRow>)
    ensures forall d :: d in DealsOf(store, rows) <==> HasVersion(store, rows, d)
  {
    forall d
      ensures d in DealsOf(store, rows) <==> HasVersion(store, rows, d)
    {
      FlatMapHas((r: StageRow) => store.deals(r.parent), rows, d);
    }
  }

  /** Rows are readable exactly when nothing objects to them, missing identities aside. */
  lemma ReadableExactly(store: EvidenceStore, rows: seq<StageRow>)
    ensures Readable(store, rows) <==>
            && !Objects(store, rows, InvalidParentText) && !Objects(store, rows, InvalidVersionKey)
            && !Objects(store, rows, DealVersionChanged)
  {
    VersionsAreHad(store, rows);
  }

  lemma MoreObjects(store: EvidenceStore, some: seq<StageRow>, all: seq<StageRow>, e: PagingError)
    requires some <= all && Objects(store, some, e)
    ensures Objects(store, all, e)
  {
    assert forall r :: r in some ==> r in all;
    assert forall d :: HasVersion(store, some, d) ==> HasVersion(store, all, d);
  }

  lemma VersionObjects(store: EvidenceStore, rows: seq<StageRow>, error: PagingError, d: DealRow, f: DealRow)
    requires d in DealsOf(store, rows) && f in DealsOf(store, rows)
    requires || (error == InvalidVersionKey && d.versionKey == "")
             || (error == DealVersionChanged && d.versionKey == f.versionKey && d != f)
    ensures Objects(store, rows, error)
  {
    VersionsAreHad(store, rows);
  }

  /** One row per version. */
  ghost predicate Indexed(versions: seq<DealRow>, deals: map<string, DealRow>) {
    && (forall d :: d in versions ==> d.versionKey in deals && deals[d.versionKey] == d)
    && (forall k :: k in deals ==> deals[k].versionKey == k && deals[k] in versions)
  }

  ghost predicate Collected(store: EvidenceStore, rows: seq<StageRow>, deals: map<string, DealRow>) {
    Indexed(DealsOf(store, rows), deals)
  }

  lemma IndexedMore(versions: seq<DealRow>, deals: map<string, DealRow>, d: DealRow)
    requires Indexed(versions, deals) && Keyed(versions)
    ensures if d.versionKey == "" || (d.versionKey in deals && deals[d.versionKey] != d) then !Keyed(versions + [d])
            else Keyed(versions + [d]) && Indexed(versions + [d], deals[d.versionKey := d])
  {
    assert forall e :: e in versions + [d] <==> e in versions || e == d;
  }

  lemma FewerAreKeyed(some: seq<DealRow>, all: seq<DealRow>)
    requires some <= all && Keyed(all)
    ensures Keyed(some)
  {
    assert forall d :: d in some ==> d in all;
  }

  lemma StaysUnkeyed(some: seq<DealRow>, all: seq<DealRow>)
    requires some <= all && !Keyed(some)
    ensures !Keyed(all)
  {
    if Keyed(all) {
      FewerAreKeyed(some, all);
    }
  }

  lemma {:induction false} DealsOfFewer(store: EvidenceStore, some: seq<StageRow>, more: seq<StageRow>)
    ensures DealsOf(store, some) <= DealsOf(store, some + more)
  {
    if more == [] {
      assert some + more == some;
    } else {
      var n := |more| - 1;
      DealsOfFewer(store, some, more[..n]);
      assert some + more == some + more[..n] + [more[n]];
      FlatMapMore((r: StageRow) => store.deals(r.parent), some + more[..n], more[n]);
    }
  }

  lemma DealsOfRow(store: EvidenceStore, rows: seq<StageRow>, row: StageRow)
    ensures DealsOf(store, rows + [row]) == DealsOf(store, rows) + store.deals(row.parent)
  {
    FlatMapMore((r: StageRow) => store.deals(r.parent), rows, row);
  }

  lemma StaysUnreadable(store: EvidenceStore, some: seq<StageRow>, all: seq<StageRow>)
    requires !Readable(store, some) && some <= all
    ensures !Readable(store, all)
  {
    assert all == some + all[|some|..];
    DealsOfFewer(store, some, all[|some|..]);
    if Keyed(DealsOf(store, some)) {
      var r :| r in some && !TextPresent(r.parent);
      assert r in all;
    } else {
      StaysUnkeyed(DealsOf(store, some), DealsOf(store, all));
    }
  }

  /** Adds versions, unless one is unnamed or contradicts a version already read. */
  method CollectVersions(ghost read: seq<DealRow>, versions: seq<DealRow>, known: map<string, DealRow>)
    returns (error: Option<PagingError>, deals: map<string, DealRow>)
    requires Keyed(read) && Indexed(read, known)
    ensures error.None? ==> Keyed(read + versions) && Indexed(read + versions, deals)
    ensures error.Some? ==> !Keyed(read + versions) && error.value in {InvalidVersionKey, DealVersionChanged}
    ensures error.Some? ==> exists d, f :: d in read + versions && f in read + versions
                              && if error.value == InvalidVersionKey then d.versionKey == ""
                                 else d.versionKey == f.versionKey && d != f
  {
    deals := known;
    assert read + versions[..0] == read;
    for n := 0 to |versions|
      invariant Keyed(read + versions[..n]) && Indexed(read + versions[..n], deals)
    {
      var d := versions[n];
      IndexedMore(read + versions[..n], deals, d);
      assert read + versions[..n] + [d] == read + versions[..n + 1];
      if d.versionKey == "" {
        error := Some(InvalidVersionKey);
      } else if d.versionKey in deals && deals[d.versionKey] != d {
        assert deals[d.versionKey] in read + versions[..n];
        error := Some(DealVersionChanged);
      } else {
        deals := deals[d.versionKey := d];
        continue;
      }
      StaysUnkeyed(read + versions[..n + 1], read + versions);
      assert d in read + versions;
      assert forall x :: x in read + versions[..n] ==> x in read + versions;
      return;
    }
    assert versions[..|versions|] == versions;
    error := None;
  }

  /** The page's parents are all named before their versions are read. */
  method CollectPage(store: EvidenceStore, ghost rows: seq<StageRow>, page: seq<StageRow>, known: map<string, DealRow>)
    returns (error: Option<PagingError>, deals: map<string, DealRow>)
    requires Readable(store, rows) && Collected(store, rows, known)
    ensures error.None? ==> Readable(store, rows + page) && Collected(store, rows + page, deals)
    ensures error.Some? ==> !Readable(store, rows + page) && Objects(store, rows + page, error.value)
  {
    deals := known;
    for n := 0 to |page|
      invariant forall i :: 0 <= i < n ==> TextPresent(page[i].parent)
    {
      if !TextPresent(page[n].parent) {
        assert page[n] in rows + page;
        return Some(InvalidParentText), deals;
      }
    }
    assert rows + page[..0] == rows;
    for n := 0 to |page|
      invariant Readable(store, rows + page[..n]) && Collected(store, rows + page[..n], deals)
    {
      assert rows + page[..n + 1] == rows + page[..n] + [page[n]];
      DealsOfRow(store, rows + page[..n], page[n]);
      error, deals := CollectVersions(DealsOf(store, rows + page[..n]), store.deals(page[n].parent), deals);
      if error.Some? {
        StaysUnreadable(store, rows + page[..n + 1], rows + page);
        ghost var some := rows + page[..n + 1];
        ghost var d, f :| d in DealsOf(store, some) && f in DealsOf(store, some)
                          && if error.value == InvalidVersionKey then d.versionKey == ""
                             else d.versionKey == f.versionKey && d != f;
        VersionObjects(store, some, error.value, d, f);
        MoreObjects(store, some, rows + page, error.value);
        return;
      }
    }
    assert page[..|page|] == page;
    error := None;
  }

  /** The first page ends with a row that has an identity; later pages end with larger ones. */
  ghost predicate FirstPageNamed(rows: seq<StageRow>, limit: nat)
    requires limit > 0
  {
    var page := Page(rows, None, limit);
    page != [] ==> LastIdentity(page) != ""
  }

  lemma ScanPage(rows: seq<StageRow>, after: Option<string>, limit: nat)
    requires limit > 0 && Page(rows, after, limit) != []
    ensures var page := Page(rows, after, limit);
            && Scan(rows, after, limit)
               == page + (if |page| < limit then [] else Scan(rows, Some(LastIdentity(page)), limit))
            && (after.Some? ==> LastIdentity(page) != "" && !StringLe(LastIdentity(page), after.value))
  {
    NextCursorAdvances(rows, after, limit);
    assert after.Some? ==> StringLe("", after.value);
  }

  lemma Reassociate<A>(a: seq<A>, b: seq<A>, c: seq<A>)
    ensures a + (b + c) == a + b + c
    ensures a + b <= a + b + c
  {
  }

  datatype PageTurn = PageFailed(error: PagingError) | NoMorePages | MorePages(next: string)

  /** What the pages before the cursor have yielded. */
  ghost predicate ReadSoFar(store: EvidenceStore, limit: nat, rows: seq<StageRow>, deals: map<string, DealRow>,
                            after: Option<string>)
    requires limit > 0
  {
    && Readable(store, rows) && Collected(store, rows, deals)
    && Scan(store.rows, None, limit) == rows + Scan(store.rows, after, limit)
    && (after.Some? ==> FirstPageNamed(store.rows, limit))
  }

  ghost predicate ReadAll(store: EvidenceStore, limit: nat, rows: seq<StageRow>, deals: map<string, DealRow>)
    requires limit > 0
  {
    && Readable(store, rows) && Collected(store, rows, deals)
    && Scan(store.rows, None, limit) == rows && FirstPageNamed(store.rows, limit)
  }

  method ReadPage(store: EvidenceStore, limit: nat, before: seq<StageRow>, known: map<string, DealRow>,
                  after: Option<string>)
    returns (turn: PageTurn, rows: seq<StageRow>, deals: map<string, DealRow>)
    requires limit > 0 && ReadSoFar(store, limit, before, known, after)
    ensures turn.MorePages? ==>
              && ReadSoFar(store, limit, rows, deals, Some(turn.next))
              && |RowsAfter(store.rows, Some(turn.next))| < |RowsAfter(store.rows, after)|
    ensures turn.NoMorePages? ==> ReadAll(store, limit, rows, deals)
    ensures turn.PageFailed? ==> Objects(store, Scan(store.rows, None, limit), turn.error)
    ensures turn.PageFailed? ==> !(FirstPageNamed(store.rows, limit) && Readable(store, Scan(store.rows, None, limit)))
  {
    rows, deals := before, known;
    var page := Page(store.rows, after, limit);
    if page == [] {
      assert rows + [] == rows;
      return NoMorePages, rows, deals;
    }
    ScanPage(store.rows, after, limit);
    ghost var all := Scan(store.rows, None, limit);
    ghost var later := if |page| < limit then [] else Scan(store.rows, Some(LastIdentity(page)), limit);
    Reassociate(rows, page, later);
    var error;
    error, deals := CollectPage(store, rows, page, deals);
    if error.Some? {
      StaysUnreadable(store, rows + page, all);
      MoreObjects(store, rows + page, all, error.value);
      return PageFailed(error.value), rows, deals;
    }
    rows := rows + page;
    var next := LastIdentity(page);
    if next == "" {
      assert page[|page| - 1] in rows;
      MoreObjects(store, rows, all, InvalidIdentity);
      return PageFailed(InvalidIdentity), rows, deals;
    }
    if after.Some? && StringLe(next, after.value) {
      return PageFailed(DidNotAdvance), rows, deals;
    }
    if |page| < limit {
      return NoMorePages, rows, deals;
    }
    NextCursorAdvances(store.rows, after, limit);
    return MorePages(next), rows, deals;
  }

  /** Pages of any positive size, until one is empty or short. */
  method ReadPages(store: EvidenceStore, limit: nat)
    returns (r: Result<(seq<StageRow>, map<string, DealRow>), PagingError>)
    requires limit > 0
    ensures r.Ok? <==> FirstPageNamed(store.rows, limit) && Readable(store, Scan(store.rows, None, limit))
    ensures r.Ok? ==> r.value.0 == Scan(store.rows, None, limit) && Collected(store, r.value.0, r.value.1)
    ensures r.Err? ==> Objects(store, Scan(store.rows, None, limit), r.error)
  {
    var rows: seq<StageRow>, deals: map<string, DealRow> := [], map[];
    var after: Option<string> := None;
    while true
      invariant ReadSoFar(store, limit, rows, deals, after)
      decreases |RowsAfter(store.rows, after)|
    {
      var turn;
      turn, rows, deals := ReadPage(store, limit, rows, deals, after);
      match turn
      case PageFailed(error) => return Err(error);
      case NoMorePages => return Ok((rows, deals));
      case MorePages(next) => after := Some(next);
    }
  }

  /** Every parent is named, and the versions are those of the rows' parents, each under its own key. */
  ghost predicate IsEvidence(store: EvidenceStore, rows: seq<StageRow>, deals: map<string, DealRow>) {
    && (forall row :: row in rows ==> row.parent.system != "" && row.parent.record != "")
    && (forall d :: HasVersion(store, rows, d) <==>
          d.versionKey != "" && d.versionKey in deals && deals[d.versionKey] == d)
  }

  lemma CollectedIsEvidence(store: EvidenceStore, rows: seq<StageRow>, deals: map<string, DealRow>)
    requires Readable(store, rows) && Collected(store, rows, deals)
    ensures IsEvidence(store, rows, deals)
  {
    VersionsAreHad(store, rows);
  }

  /** The gate's read: under the store's constraint, the whole store in order and once. */
  method PagedEvidence(store: EvidenceStore) returns (r: Result<(seq<StageRow>, map<string, DealRow>), PagingError>)
    requires Ordered(store.rows)
    ensures UniqueIdentities(store.rows) && r.Ok? ==> r.value.0 == store.rows
    ensures UniqueIdentities(store.rows) && Readable(store, store.rows) && AllNamed(store.rows) ==> r.Ok?
    ensures r.Ok? ==> (r.value.0 == store.rows <==> BoundariesSeparate(store.rows, PAGE_SIZE))
    ensures r.Ok? ==> forall row :: row in store.rows ==> exists q :: q in r.value.0 && q.identity == row.identity
    ensures r.Ok? ==> Collected(store, r.value.0, r.value.1)
    ensures r.Ok? ==> IsEvidence(store, r.value.0, r.value.1)
    ensures UniqueIdentities(store.rows) && r.Err? ==> Objects(store, store.rows, r.error)
    ensures (BoundariesSeparate(store.rows, PAGE_SIZE) && Readable(store, store.rows) && AllNamed(store.rows)) ==> r.Ok?
  {
    r := ReadPages(store, PAGE_SIZE);
    ScanOfStore(store.rows, PAGE_SIZE);
    if UniqueIdentities(store.rows) {
      UniqueIdentitiesSeparate(store.rows, PAGE_SIZE);
    }
    if r.Ok? {
      CollectedIsEvidence(store, r.value.0, r.value.1);
    }
  }

  ghost predicate AllNamed(rows: seq<StageRow>) {
    forall row :: row in rows ==> row.identity != ""
  }

  lemma ScanOfStore(rows: seq<StageRow>, limit: nat)
    requires limit > 0 && Ordered(rows)
    ensures Scan(rows, None, limit) == rows <==> BoundariesSeparate(rows, limit)
    ensures forall row :: row in rows ==> exists q :: q in Scan(rows, None, limit) && q.identity == row.identity
    ensures AllNamed(rows) ==> FirstPageNamed(rows, limit)
  {
    FilterAll((r: StageRow) => IsAfter(r, None), rows);
    ScanIsOfTheRest(rows, None, limit);
    ScanIsExact(rows, limit);
    forall row | row in rows
      ensures exists q :: q in Scan(rows, None, limit) && q.identity == row.identity
    {
      EveryIdentityIsScanned(rows, limit, row);
    }
  }
}
