/** The two listing endpoints: filters, cursor text in, one page and cursor text out. */
module Listings {
  import opened Common
  import opened Cursors
  import opened Pagination

  datatype Reply<K, V> = BadCursor | DatabaseError | Listed(items: seq<Row<K, V>>, nextCursor: Option<string>)

  function Position<K>(c: Cursor<K>): Option<K>
    requires !c.Invalid?
  {
    if c.Start? then None else Some(c.key)
  }

  function Take<T>(s: seq<T>, n: nat): seq<T> { if |s| <= n then s else s[..n] }

  /** The handlers' loop over rows[:limit]. */
  method Shown<T>(rows: seq<T>, limit: nat) returns (items: seq<T>)
    ensures items == Take(rows, limit)
  {
    var shown := Take(rows, limit);
    items := [];
    for i := 0 to |shown|
      invariant items == shown[..i]
    {
      items := items + [shown[i]];
    }
  }

  // ------------------------------------------------------------------- the audit log

  datatype AuditView = AuditView(investigation: Option<int>, action: string, actor: string)

  type AuditRow = Row<int, AuditView>

  /** Query parameters; an empty action or actor filters nothing. */
  datatype AuditFilter = AuditFilter(investigation: Option<int>, action: Option<string>, actor: Option<string>)

  predicate GivenMatches(given: Option<string>, column: Option<string>) {
    given.Or("") == "" || given == column
  }

  predicate AuditKeeps(f: AuditFilter, r: AuditRow) {
    && (f.investigation.Some? ==> r.view.investigation == f.investigation)
    && GivenMatches(f.action, Some(r.view.action))
    && GivenMatches(f.actor, Some(r.view.actor))
  }

  function AuditListing(table: seq<AuditRow>, f: AuditFilter): seq<AuditRow> {
    if table == [] then []
    else (if AuditKeeps(f, table[0]) then [table[0]] else []) + AuditListing(table[1..], f)
  }

  const BY_ID: Order<int> := (a: int, b: int) => a < b

  function EncodedId(at: Option<int>): Option<string> {
    if at.None? then None else Some(EncodeIntCursor(at.value))
  }

  function AuditReply(table: seq<AuditRow>, f: AuditFilter, cursor: Option<string>, limit: nat): Reply<int, AuditView>
    requires limit > 0
  {
    if DecodeIntCursor(cursor).Invalid? then BadCursor
    else
      var page := Fetch(AuditListing(table, f), BY_ID, Position(DecodeIntCursor(cursor)), limit);
      Listed(page.items, EncodedId(page.next))
  }

  /** list_audit over the table in id order. */
  method ListAudit(table: seq<AuditRow>, f: AuditFilter, cursor: Option<string>, limit: nat)
    returns (reply: Reply<int, AuditView>)
    requires limit > 0
    ensures reply == AuditReply(table, f, cursor, limit)
  {
    var position := DecodeIntCursor(cursor);
    if position.Invalid? { return BadCursor; }
    var hits := Rest(AuditListing(table, f), BY_ID, Position(position));
    var rows := Take(hits, limit + 1);
    var items := Shown(rows, limit);
    assert items == Take(hits, limit);
    var next := if |rows| > limit then Some(EncodeIntCursor(rows[limit - 1].key)) else None;
    reply := Listed(items, next);
  }

  // ------------------------------------------------------------------ investigations

  datatype Investigation = Investigation(startedAt: Option<int>, id: int, status: Option<string>,
                                         verdict: Option<string>,
                                         severity: Option<string>, approvalStatus: Option<string>,
                                         reviewStatus: Option<string>)

  datatype InvestigationFilter = InvestigationFilter(status: Option<string>, verdict: Option<string>,
                                                     severity: Option<string>,
                                                     approvalStatus: Option<string>, reviewStatus: Option<string>)

  type Instant = (int, int)

  predicate Keeps(f: InvestigationFilter, v: Investigation) {
    && v.startedAt.Some?
    && GivenMatches(f.status, v.status)
    && GivenMatches(f.verdict, v.verdict)
    && GivenMatches(f.severity, v.severity)
    && GivenMatches(f.approvalStatus, v.approvalStatus)
    && GivenMatches(f.reviewStatus, v.reviewStatus)
  }

  /** The matching rows of a table held in listing order, keyed by (started_at, id). */
  function InvestigationListing(table: seq<Investigation>, f: InvestigationFilter): seq<Row<Instant, Investigation>> {
    if table == [] then []
    else
      (if Keeps(f, table[0]) then [Row((table[0].startedAt.value, table[0].id), table[0])] else [])
      + InvestigationListing(table[1..], f)
  }

  const NEWEST_FIRST: Order<Instant> := (a: Instant, b: Instant) => b.0 < a.0 || (b.0 == a.0 && b.1 < a.1)

  /** list_investigations; `cast` is the database reading a timestamp, which fails on other text. */
  method ListInvestigations(table: seq<Investigation>, f: InvestigationFilter, t: Texts, cast: string -> Option<int>,
                            cursor: Option<string>, limit: nat)
    returns (reply: Reply<Instant, Investigation>)
    requires limit > 0 && TextsOk(t)
    ensures reply == InvestigationReply(table, f, t, cast, cursor, limit)
  {
    var decoded := DecodeUuidTsCursor(t, cursor);
    if decoded.Invalid? { return BadCursor; }
    var position: Option<Instant> := None;
    if decoded.At? {
      var ts := cast(decoded.key.0);
      if ts.None? { return DatabaseError; }
      position := Some((ts.value, decoded.key.1));
    }
    reply := Answer(InvestigationListing(table, f), t, position, limit);
  }

  method Answer(listing: seq<Row<Instant, Investigation>>, t: Texts, position: Option<Instant>, limit: nat)
    returns (reply: Reply<Instant, Investigation>)
    requires limit > 0 && TextsOk(t)
    ensures var page := Fetch(listing, NEWEST_FIRST, position, limit);
            reply == Listed(page.items, EncodedInstant(t, page.next))
  {
    var hits := Rest(listing, NEWEST_FIRST, position);
    var rows := Take(hits, limit + 1);
    var items := Shown(rows, limit);
    assert items == Take(hits, limit);
    if |rows| > limit {
      var last := rows[limit - 1].key;
      reply := Listed(items, Some(EncodeUuidTsCursor(t, last.0, last.1)));
    } else {
      reply := Listed(items, None);
    }
  }

  function InvestigationReply(table: seq<Investigation>, f: InvestigationFilter, t: Texts, cast: string -> Option<int>,
                              cursor: Option<string>, limit: nat): Reply<Instant, Investigation>
    requires limit > 0 && TextsOk(t)
  {
    var decoded := DecodeUuidTsCursor(t, cursor);
    if decoded.Invalid? then BadCursor
    else if decoded.At? && cast(decoded.key.0).None? then DatabaseError
    else
      var position := if decoded.Start? then None else Some((cast(decoded.key.0).value, decoded.key.1));
      var page := Fetch(InvestigationListing(table, f), NEWEST_FIRST, position, limit);
      Listed(page.items, EncodedInstant(t, page.next))
  }

  function EncodedInstant(t: Texts, at: Option<Instant>): Option<string>
    requires TextsOk(t)
  {
    if at.None? then None else Some(EncodeUuidTsCursor(t, at.value.0, at.value.1))
  }

  // ------------------------------------------------------- clients that follow the text

  /** What the endpoint answers to request k with a given cursor text. */
  type Endpoint<!K, !V> = (nat, Option<string>) -> Reply<K, V>

  /** The endpoint serves pages of the tables: handing back the text of a position resumes there. */
  ghost predicate Serves<K(!new), V(!new)>(endpoint: Endpoint<K, V>, tables: History<K, V>, lt: Order<K>, limit: nat,
                                           encode: Option<K> -> Option<string>)
    requires limit > 0
  {
    && encode(None) == None
    && (forall at: Option<K> :: at.Some? ==> encode(at).Some?)
    && (forall k: nat, at: Option<K> ::
          var p := Fetch(tables(k), lt, at, limit); endpoint(k, encode(at)) == Listed(p.items, encode(p.next)))
  }

  datatype Client<K, V> = Client(items: seq<Row<K, V>>, cursor: Option<string>, done: bool, failed: bool)

  /** A client after n requests: it sends the cursor it was last given and stops when it gets none. */
  function Following<K, V>(endpoint: Endpoint<K, V>, n: nat): Client<K, V> {
    if n == 0 then Client([], None, false, false)
    else
      var c := Following(endpoint, n - 1);
      if c.done || c.failed then c
      else
        match endpoint(n - 1, c.cursor)
        case Listed(items, next) =>
          Client(c.items + items, if next.Some? then next else c.cursor, next.None?, false)
        case _ => c.(failed := true)
  }

  /** Such a client never fails, and holds exactly what following positions would hold. */
  lemma {:induction false} ClientFollowsScroll<K(!new), V(!new)>(endpoint: Endpoint<K, V>, tables: History<K, V>,
                                                                 lt: Order<K>,
                                                                 limit: nat,
                                                                 encode: Option<K> -> Option<string>, n: nat)
    requires limit > 0 && Serves(endpoint, tables, lt, limit, encode)
    ensures var c, s := Following(endpoint, n), After(tables, lt, limit, n);
            !c.failed && c.items == s.items && c.done == s.done && c.cursor == encode(s.cursor)
  {
    if n > 0 {
      ClientFollowsScroll(endpoint, tables, lt, limit, encode, n - 1);
      var s := After(tables, lt, limit, n - 1);
      var p := Fetch(tables(n - 1), lt, s.cursor, limit);
      assert endpoint(n - 1, encode(s.cursor)) == Listed(p.items, encode(p.next));
    }
  }

  // --------------------------------------------------------------- the audit client

  type AuditHistory = nat -> seq<AuditRow>

  function AuditEndpoint(tables: AuditHistory, f: AuditFilter, limit: nat): Endpoint<int, AuditView>
    requires limit > 0
  {
    (k: nat, cursor: Option<string>) => AuditReply(tables(k), f, cursor, limit)
  }

  function AuditListings(tables: AuditHistory, f: AuditFilter): History<int, AuditView> {
    (k: nat) => AuditListing(tables(k), f)
  }

  lemma AuditServes(tables: AuditHistory, f: AuditFilter, limit: nat)
    requires limit > 0
    ensures Serves(AuditEndpoint(tables, f, limit), AuditListings(tables, f), BY_ID, limit, EncodedId)
  {
    forall k: nat, at: Option<int>
      ensures var p := Fetch(AuditListings(tables, f)(k), BY_ID, at, limit);
              AuditEndpoint(tables, f, limit)(k, EncodedId(at)) == Listed(p.items, EncodedId(p.next))
    {
      if at.Some? { IntCursorRoundTrip(at.value); }
      assert DecodeIntCursor(EncodedId(at)) == if at.None? then Start else At(at.value);
      assert AuditEndpoint(tables, f, limit)(k, EncodedId(at)) == AuditReply(tables(k), f, EncodedId(at), limit);
    }
  }

  lemma {:induction false} ListingIsSorted(table: seq<AuditRow>, f: AuditFilter)
    requires Sorted(table, BY_ID)
    ensures Sorted(AuditListing(table, f), BY_ID)
    ensures forall r :: r in AuditListing(table, f) <==> r in table && AuditKeeps(f, r)
  {
    if table != [] {
      ListingIsSorted(table[1..], f);
      var tail := AuditListing(table[1..], f);
      forall k | 0 <= k < |tail| ensures table[0].key < tail[k].key {
        assert tail[k] in tail;
        FirstIsFirst(table, BY_ID, tail[k]);
      }
      assert forall r :: r in table <==> r == table[0] || r in table[1..];
    }
  }

  lemma {:induction false} ListingOfAppended(table: seq<AuditRow>, more: seq<AuditRow>, f: AuditFilter)
    ensures AuditListing(table + more, f) == AuditListing(table, f) + AuditListing(more, f)
  {
    if table == [] {
      assert table + more == more;
    } else {
      assert (table + more)[1..] == table[1..] + more;
      ListingOfAppended(table[1..], more, f);
    }
  }

  /** The query parameter lets a column through: absent or empty, or equal to it. */
  predicate Passes(given: Option<string>, column: Option<string>) {
    given in {None, Some("")} || given == column
  }

  /** The rows of the audit listing: those of the table that pass each parameter given. */
  lemma AuditListingMeans(table: seq<AuditRow>, f: AuditFilter, r: AuditRow)
    ensures multiset(AuditListing(table, f))[r]
            == if f.investigation in {None, r.view.investigation} && Passes(f.action, Some(r.view.action))
                  && Passes(f.actor, Some(r.view.actor)) then multiset(table)[r] else 0
  {
    AuditListingCounts(table, f, r);
    assert AuditKeeps(f, r) <==> f.investigation in {None, r.view.investigation}
                                 && Passes(f.action, Some(r.view.action)) && Passes(f.actor, Some(r.view.actor));
  }

  lemma {:induction false} AuditListingCounts(table: seq<AuditRow>, f: AuditFilter, r: AuditRow)
    ensures multiset(AuditListing(table, f))[r] == if AuditKeeps(f, r) then multiset(table)[r] else 0
  {
    if table != [] {
      AuditListingCounts(table[1..], f, r);
      assert table == [table[0]] + table[1..];
    }
  }

  /** The rows of the investigations listing: those that have started and pass each parameter given, under
      their position. */
  lemma {:induction false} InvestigationListingMeans(table: seq<Investigation>, f: InvestigationFilter,
                                                     r: Row<Instant, Investigation>)
    ensures var v := r.view;
            multiset(InvestigationListing(table, f))[r]
            == if v.startedAt == Some(r.key.0) && v.id == r.key.1
                  && Passes(f.status, v.status) && Passes(f.verdict, v.verdict) && Passes(f.severity, v.severity)
                  && Passes(f.approvalStatus, v.approvalStatus) && Passes(f.reviewStatus, v.reviewStatus)
               then multiset(table)[v] else 0
  {
    if table != [] {
      InvestigationListingMeans(table[1..], f, r);
      assert table == [table[0]] + table[1..];
    }
  }

  lemma {:induction false} InvestigationListingOfAppended(table: seq<Investigation>, more: seq<Investigation>,
                                                          f: InvestigationFilter)
    ensures InvestigationListing(table + more, f) == InvestigationListing(table, f) + InvestigationListing(more, f)
  {
    if table == [] {
      assert table + more == more;
    } else {
      assert (table + more)[1..] == table[1..] + more;
      InvestigationListingOfAppended(table[1..], more, f);
    }
  }

  lemma AuditListingsGrow(tables: AuditHistory, f: AuditFilter)
    requires AlwaysSorted(tables, BY_ID) && Appending(tables)
    ensures AlwaysSorted(AuditListings(tables, f), BY_ID) && Appending(AuditListings(tables, f))
  {
    forall k: nat ensures Sorted(AuditListings(tables, f)(k), BY_ID) { ListingIsSorted(tables(k), f); }
    forall k: nat ensures AuditListings(tables, f)(k) <= AuditListings(tables, f)(k + 1) {
      var more := tables(k + 1)[|tables(k)|..];
      assert tables(k) <= tables(k + 1);
      assert tables(k + 1) == tables(k) + more;
      ListingOfAppended(tables(k), more, f);
    }
  }

  /** Following next_cursor through the audit log, while rows with larger ids keep being appended: no
      request fails, and a client that is done holds the whole filtered table, in order, without skip or
      repeat, as its last request saw it; it is done once the matching rows fit its pages. */
  lemma AuditClientSeesEverything(tables: AuditHistory, f: AuditFilter, limit: nat, n: nat)
    requires AlwaysSorted(tables, BY_ID) && Appending(tables) && limit > 0
    ensures var c := Following(AuditEndpoint(tables, f, limit), n);
            && !c.failed
            && (c.done ==> exists k: nat :: k < n && c.items == AuditListing(tables(k), f))
            && (forall i, j :: 0 <= i < j < |c.items| ==> c.items[i].key < c.items[j].key)
            && (n > 0 && |AuditListing(tables(n - 1), f)| <= n * limit ==> c.done)
  {
    var listings := AuditListings(tables, f);
    AuditListingsGrow(tables, f);
    AuditServes(tables, f, limit);
    IdsAreOrdered();
    ClientFollowsScroll(AuditEndpoint(tables, f, limit), listings, BY_ID, limit, EncodedId, n);
    ScrollIsComplete(listings, BY_ID, limit, n);
    NeverRepeats(listings, BY_ID, limit, n);
    if After(listings, BY_ID, limit, n).done {
      var k: nat :| k < n && After(listings, BY_ID, limit, n).items == listings(k);
      assert listings(k) == AuditListing(tables(k), f);
    }
    if n > 0 && |AuditListing(tables(n - 1), f)| <= n * limit { ScrollTerminates(listings, BY_ID, limit, n); }
  }

  lemma IdsAreOrdered()
    ensures IsOrder(BY_ID)
  {
  }

  // ------------------------------------------------------- the investigations client

  ghost function InvestigationEndpoint(table: seq<Investigation>, f: InvestigationFilter, t: Texts,
                                       cast: string -> Option<int>,
                                       limit: nat): Endpoint<Instant, Investigation>
    requires limit > 0 && TextsOk(t)
  {
    (k: nat, cursor: Option<string>) => InvestigationReply(table, f, t, cast, cursor, limit)
  }

  lemma InstantsAreOrdered()
    ensures IsOrder(NEWEST_FIRST)
  {
  }

  /** Following next_cursor through a table of investigations that does not change: no request fails and
      the client ends with the whole filtered listing, newest first, after exactly the pages needed. */
  lemma InvestigationClientSeesEverything(table: seq<Investigation>, f: InvestigationFilter, t: Texts,
                                          cast: string -> Option<int>, limit: nat, n: nat)
    requires limit > 0 && TextsOk(t) && (forall ts: int :: cast(t.iso(ts)) == Some(ts))
    requires Sorted(InvestigationListing(table, f), NEWEST_FIRST)
    ensures var endpoint := InvestigationEndpoint(table, f, t, cast, limit);
            && HoldsPages(Following(endpoint, n), InvestigationListing(table, f), limit, n)
            && NewestFirst(Following(endpoint, n).items)
  {
    InvestigationsServe(table, f, t, cast, limit);
    InstantsAreOrdered();
    FixedClient(InvestigationEndpoint(table, f, t, cast, limit), InvestigationListing(table, f), NEWEST_FIRST, limit,
                EncodeWith(t), n);
    SortedIsNewestFirst(Following(InvestigationEndpoint(table, f, t, cast, limit), n).items);
  }

  lemma SortedIsNewestFirst(items: seq<Row<Instant, Investigation>>)
    requires Sorted(items, NEWEST_FIRST)
    ensures NewestFirst(items)
  {
  }

  /** By starting time, the latest first, and among equals by id, the largest first. */
  ghost predicate NewestFirst(items: seq<Row<Instant, Investigation>>) {
    forall i, j :: 0 <= i < j < |items| ==>
      || items[i].key.0 > items[j].key.0
      || (items[i].key.0 == items[j].key.0 && items[i].key.1 > items[j].key.1)
  }

  lemma FixedClient<K(!new), V(!new)>(endpoint: Endpoint<K, V>, rows: seq<Row<K, V>>, lt: Order<K>, limit: nat,
                                      encode: Option<K> -> Option<string>, n: nat)
    requires limit > 0 && Serves(endpoint, Fixed(rows), lt, limit, encode) && IsOrder(lt) && Sorted(rows, lt)
    ensures HoldsPages(Following(endpoint, n), rows, limit, n) && Sorted(Following(endpoint, n).items, lt)
  {
    ClientFollowsScroll(endpoint, Fixed(rows), lt, limit, encode, n);
    FixedTableScroll(Fixed(rows), rows, lt, limit, n);
  }

  /** Done exactly when the pages suffice, and holding the first n * limit rows, or all of them. */
  ghost predicate HoldsPages<K, V>(c: Client<K, V>, rows: seq<Row<K, V>>, limit: nat, n: nat) {
    && !c.failed
    && (c.done <==> n > 0 && |rows| <= n * limit)
    && c.items == if c.done then rows else Take(rows, n * limit)
  }

  function Fixed<K, V>(rows: seq<Row<K, V>>): History<K, V> { (k: nat) => rows }

  ghost function EncodeWith(t: Texts): Option<Instant> -> Option<string>
    requires TextsOk(t)
  {
    at => if TextsOk(t) then EncodedInstant(t, at) else None
  }

  lemma InvestigationsServe(table: seq<Investigation>, f: InvestigationFilter, t: Texts, cast: string -> Option<int>,
                            limit: nat)
    requires limit > 0 && TextsOk(t) && (forall ts: int :: cast(t.iso(ts)) == Some(ts))
    ensures Serves(InvestigationEndpoint(table, f, t, cast, limit), Fixed(InvestigationListing(table, f)), NEWEST_FIRST,
                   limit, EncodeWith(t))
  {
    var rows, encode := InvestigationListing(table, f), EncodeWith(t);
    var endpoint := InvestigationEndpoint(table, f, t, cast, limit);
    forall k: nat, at: Option<Instant>
      ensures var p := Fetch(Fixed(rows)(k), NEWEST_FIRST, at, limit);
              endpoint(k, encode(at)) == Listed(p.items, encode(p.next))
    {
      InvestigationResumes(table, f, t, cast, limit, at);
    }
  }

  lemma InvestigationResumes(table: seq<Investigation>, f: InvestigationFilter, t: Texts, cast: string -> Option<int>,
                             limit: nat, at: Option<Instant>)
    requires limit > 0 && TextsOk(t) && (forall ts: int :: cast(t.iso(ts)) == Some(ts))
    ensures var p := Fetch(InvestigationListing(table, f), NEWEST_FIRST, at, limit);
            InvestigationReply(table, f, t, cast, EncodedInstant(t, at), limit)
            == Listed(p.items, EncodedInstant(t, p.next))
  {
    if at.Some? {
      UuidTsCursorRoundTrip(t, at.value.0, at.value.1);
      assert cast(t.iso(at.value.0)) == Some(at.value.0);
    }
  }
}
