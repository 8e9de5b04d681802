/** Keyset pagination: the audit log by ascending id, investigations by descending (started_at, id). */
module Pagination {
  import opened Common
  import opened Cursors

  /** A listed row: its position in the listing order and what the page shows of it. */
  datatype Row<K, V> = Row(key: K, view: V)

  /** The listing order: lt(a, b) says a is listed before b. */
  type Order<!K> = (K, K) -> bool

  ghost predicate IsOrder<K(!new)>(lt: Order<K>) {
    && (forall a :: !lt(a, a))
    && (forall a, b, c :: lt(a, b) && lt(b, c) ==> lt(a, c))
    && (forall a, b :: lt(a, b) || a == b || lt(b, a))
  }

  /** ORDER BY over a unique key. */
  ghost predicate Sorted<K, V>(rows: seq<Row<K, V>>, lt: Order<K>) {
    forall i, j :: 0 <= i < j < |rows| ==> lt(rows[i].key, rows[j].key)
  }

  predicate Past<K>(lt: Order<K>, cursor: Option<K>, key: K) {
    cursor.None? || lt(cursor.value, key)
  }

  /** The rows past the cursor, in order. */
  function Rest<K, V>(rows: seq<Row<K, V>>, lt: Order<K>, cursor: Option<K>): seq<Row<K, V>> {
    if rows == [] then []
    else (if Past(lt, cursor, rows[0].key) then [rows[0]] else []) + Rest(rows[1..], lt, cursor)
  }

  datatype Page<K, V> = Page(items: seq<Row<K, V>>, next: Option<K>)

  /** One request: limit + 1 rows are read, limit are shown, and a further row makes a cursor of the last shown. */
  function Fetch<K, V>(rows: seq<Row<K, V>>, lt: Order<K>, cursor: Option<K>, limit: nat): Page<K, V>
    requires limit > 0
  {
    var hits := Rest(rows, lt, cursor);
    if |hits| > limit then Page(hits[..limit], Some(hits[limit - 1].key)) else Page(hits, None)
  }

  // ----------------------------------------------------------------- one page

  lemma {:induction false} RestMembers<K(!new), V>(rows: seq<Row<K, V>>, lt: Order<K>, cursor: Option<K>)
    ensures forall r :: r in Rest(rows, lt, cursor) ==> r in rows && Past(lt, cursor, r.key)
    ensures forall r :: r in rows && Past(lt, cursor, r.key) ==> r in Rest(rows, lt, cursor)
  {
    if rows != [] { RestMembers(rows[1..], lt, cursor); }
  }

  /** Every row of a sorted tail comes after its first. */
  lemma FirstIsFirst<K(!new), V>(rows: seq<Row<K, V>>, lt: Order<K>, r: Row<K, V>)
    requires Sorted(rows, lt) && rows != [] && r in rows[1..]
    ensures lt(rows[0].key, r.key)
  {
    var i :| 0 <= i < |rows[1..]| && rows[1..][i] == r;
    assert rows[i + 1] == r;
  }

  lemma {:induction false} RestIsSorted<K(!new), V>(rows: seq<Row<K, V>>, lt: Order<K>, cursor: Option<K>)
    requires Sorted(rows, lt)
    ensures Sorted(Rest(rows, lt, cursor), lt)
  {
    if rows != [] {
      RestIsSorted(rows[1..], lt, cursor);
      RestMembers(rows[1..], lt, cursor);
      var tail := Rest(rows[1..], lt, cursor);
      forall k | 0 <= k < |tail| ensures lt(rows[0].key, tail[k].key) {
        assert tail[k] in tail;
        FirstIsFirst(rows, lt, tail[k]);
      }
    }
  }

  /** A page is the interval between two cursors: rows past the one it was asked for, up to and
      including the one it hands out; without a next cursor, everything past. */
  lemma PageIsInterval<K(!new), V>(rows: seq<Row<K, V>>, lt: Order<K>, cursor: Option<K>, limit: nat)
    requires IsOrder(lt) && Sorted(rows, lt) && limit > 0
    ensures var p := Fetch(rows, lt, cursor, limit);
            && |p.items| <= limit && Sorted(p.items, lt)
            && (p.next.Some? ==>
                  && |p.items| == limit && p.next.value == p.items[limit - 1].key
                  && Past(lt, cursor, p.next.value))
            && forall r :: r in p.items <==> r in rows && Covers(lt, cursor, p.next, r.key)
  {
    RestIsSorted(rows, lt, cursor);
    RestMembers(rows, lt, cursor);
    var hits := Rest(rows, lt, cursor);
    if |hits| > limit {
      var last := hits[limit - 1];
      assert last in hits;
      forall r | r in hits ensures r in hits[..limit] <==> !lt(last.key, r.key) { SplitAtKey(hits, lt, limit, r); }
    }
  }

  /** The keys a page answers for: past its cursor, and not past the next one if there is one. */
  predicate Covers<K>(lt: Order<K>, cursor: Option<K>, next: Option<K>, key: K) {
    Past(lt, cursor, key) && (next.Some? ==> !lt(next.value, key))
  }

  lemma SplitAtKey<K(!new), V>(hits: seq<Row<K, V>>, lt: Order<K>, limit: nat, r: Row<K, V>)
    requires IsOrder(lt) && Sorted(hits, lt) && 0 < limit <= |hits| && r in hits
    ensures r in hits[..limit] <==> !lt(hits[limit - 1].key, r.key)
  {
    var i :| 0 <= i < |hits| && hits[i] == r;
    if i < limit { assert hits[..limit][i] == r; }
  }

  // ------------------------------------------------------- following next_cursor

  /** A client that starts without a cursor and follows next_cursor; fetch k sees tables(k). */
  datatype Scroll<K, V> = Scroll(items: seq<Row<K, V>>, cursor: Option<K>, done: bool)

  type History<!K, !V> = nat -> seq<Row<K, V>>

  function After<K, V>(tables: History<K, V>, lt: Order<K>, limit: nat, n: nat): Scroll<K, V>
    requires limit > 0
  {
    if n == 0 then Scroll([], None, false)
    else
      var s := After(tables, lt, limit, n - 1);
      if s.done then s
      else
        var p := Fetch(tables(n - 1), lt, s.cursor, limit);
        Scroll(s.items + p.items, if p.next.Some? then p.next else s.cursor, p.next.None?)
  }

  ghost predicate AlwaysSorted<K(!new), V(!new)>(tables: History<K, V>, lt: Order<K>) {
    forall k: nat :: Sorted(tables(k), lt)
  }

  /** The rows shown are in order, and none lies past the cursor held. */
  ghost predicate InOrder<K(!new), V(!new)>(s: Scroll<K, V>, lt: Order<K>) {
    && Sorted(s.items, lt)
    && (!s.done ==> UpTo(s.items, lt, s.cursor))
  }

  ghost predicate UpTo<K(!new), V(!new)>(items: seq<Row<K, V>>, lt: Order<K>, cursor: Option<K>) {
    if cursor.None? then items == [] else forall r :: r in items ==> !lt(cursor.value, r.key)
  }

  /** Whatever happens to the table between fetches, nothing is shown twice and the order never breaks. */
  lemma {:induction false} NeverRepeats<K(!new), V(!new)>(tables: History<K, V>, lt: Order<K>, limit: nat, n: nat)
    requires IsOrder(lt) && AlwaysSorted(tables, lt) && limit > 0
    ensures InOrder(After(tables, lt, limit, n), lt)
  {
    if n > 0 {
      NeverRepeats(tables, lt, limit, n - 1);
      var s := After(tables, lt, limit, n - 1);
      if !s.done {
        var p := Fetch(tables(n - 1), lt, s.cursor, limit);
        PageIsInterval(tables(n - 1), lt, s.cursor, limit);
        SortedConcat(s.items, p.items, lt, s.cursor);
        if p.next.Some? { UpToNext(s.items, p.items, lt, s.cursor, p.next.value); }
      }
    }
  }

  lemma UpToNext<K(!new), V(!new)>(items: seq<Row<K, V>>, more: seq<Row<K, V>>, lt: Order<K>, cursor: Option<K>,
                                   next: K)
    requires IsOrder(lt) && UpTo(items, lt, cursor) && Past(lt, cursor, next)
    requires forall r :: r in more ==> !lt(next, r.key)
    ensures UpTo(items + more, lt, Some(next))
  {
    forall r | r in items ensures !lt(next, r.key) {
      assert !lt(cursor.value, r.key);
    }
  }

  lemma SortedConcat<K(!new), V(!new)>(a: seq<Row<K, V>>, b: seq<Row<K, V>>, lt: Order<K>, cursor: Option<K>)
    requires IsOrder(lt) && Sorted(a, lt) && Sorted(b, lt)
    requires UpTo(a, lt, cursor)
    requires forall r :: r in b ==> Past(lt, cursor, r.key)
    ensures Sorted(a + b, lt)
  {
    forall i, j | 0 <= i < |a| && 0 <= j < |b| ensures lt(a[i].key, b[j].key) {
      assert a[i] in a && b[j] in b;
      assert Past(lt, cursor, b[j].key);
    }
  }

  /** A row not shown before the cursor passed its key is never shown: rows that become visible late,
      with a smaller key, are missed for good. */
  lemma {:induction false} PassedIsNeverShown<K(!new), V(!new)>(tables: History<K, V>, lt: Order<K>, limit: nat,
                                                                k: nat, n: nat, r: Row<K, V>)
    requires IsOrder(lt) && AlwaysSorted(tables, lt) && limit > 0 && k <= n
    requires var s := After(tables, lt, limit, k);
             s.cursor.Some? && !lt(s.cursor.value, r.key) && r !in s.items
    ensures r !in After(tables, lt, limit, n).items
    decreases n - k
  {
    if k < n {
      var s := After(tables, lt, limit, k);
      if !s.done {
        PageIsInterval(tables(k), lt, s.cursor, limit);
        var t := After(tables, lt, limit, k + 1);
        var p := Fetch(tables(k), lt, s.cursor, limit);
        assert r !in p.items;
        assert !lt(t.cursor.value, r.key);
      }
      PassedIsNeverShown(tables, lt, limit, k + 1, n, r);
    }
  }

  // ------------------------------------------------------------ append-only tables

  /** Between fetches rows are only added, and only after every row already there. */
  ghost predicate Appending<K, V>(tables: History<K, V>) {
    forall k: nat :: tables(k) <= tables(k + 1)
  }

  lemma {:induction false} RestOfPrefix<K(!new), V>(rows: seq<Row<K, V>>, lt: Order<K>, m: nat)
    requires IsOrder(lt) && Sorted(rows, lt) && 0 < m <= |rows|
    ensures Rest(rows, lt, Some(rows[m - 1].key)) == rows[m..]
  {
    var cursor := Some(rows[m - 1].key);
    if m == 1 {
      RestOfLater(rows[1..], lt, rows[0].key);
    } else {
      assert rows[1..][m - 2] == rows[m - 1];
      RestOfPrefix(rows[1..], lt, m - 1);
      assert lt(rows[0].key, rows[m - 1].key);
      assert rows[1..][m - 1..] == rows[m..];
    }
  }

  lemma {:induction false} RestOfLater<K(!new), V>(rows: seq<Row<K, V>>, lt: Order<K>, bound: K)
    requires IsOrder(lt) && forall k :: 0 <= k < |rows| ==> lt(bound, rows[k].key)
    ensures Rest(rows, lt, Some(bound)) == rows
  {
    if rows != [] {
      assert lt(bound, rows[0].key);
      RestOfLater(rows[1..], lt, bound);
    }
  }

  lemma {:induction false} RestOfStart<K, V>(rows: seq<Row<K, V>>, lt: Order<K>)
    ensures Rest(rows, lt, None) == rows
  {
    if rows != [] { RestOfStart(rows[1..], lt); }
  }

  function LastKey<K, V>(rows: seq<Row<K, V>>, m: nat): Option<K>
    requires m <= |rows|
  {
    if m == 0 then None else Some(rows[m - 1].key)
  }

  /** Where the client stands after n fetches: it has shown the first m = n * limit rows and holds the
      key of the last, or it has shown all of the table as its last fetch saw it. */
  ghost predicate Standing<K, V>(s: Scroll<K, V>, tables: History<K, V>, m: nat, n: nat) {
    if s.done then exists k: nat :: k < n && s.items == tables(k)
    else m <= |tables(n)| && s.items == tables(n)[..m] && s.cursor == LastKey(tables(n), m)
  }

  /** When rows are only appended, following next_cursor shows every row of the table exactly once, in
      order, up to the table as the last fetch saw it. */
  lemma {:induction false} ScrollIsComplete<K(!new), V(!new)>(tables: History<K, V>, lt: Order<K>, limit: nat, n: nat)
    requires IsOrder(lt) && AlwaysSorted(tables, lt) && Appending(tables) && limit > 0
    ensures Standing(After(tables, lt, limit, n), tables, n * limit, n)
  {
    if n > 0 {
      ScrollIsComplete(tables, lt, limit, n - 1);
      var k: nat := n - 1;
      assert Sorted(tables(k), lt) && tables(k) <= tables(k + 1);
      StandingStep(tables, lt, limit, k, k * limit);
      OneMore(k, limit);
    }
  }

  lemma OneMore(k: nat, limit: nat)
    ensures (k + 1) * limit == k * limit + limit
  {
  }

  lemma StandingStep<K(!new), V(!new)>(tables: History<K, V>, lt: Order<K>, limit: nat, n: nat, m: nat)
    requires IsOrder(lt) && Sorted(tables(n), lt) && tables(n) <= tables(n + 1) && limit > 0
    requires Standing(After(tables, lt, limit, n), tables, m, n)
    ensures Standing(After(tables, lt, limit, n + 1), tables, m + limit, n + 1)
  {
    var s := After(tables, lt, limit, n);
    if s.done {
      var k: nat :| k < n && s.items == tables(k);
    } else {
      PageOfStanding(tables(n), lt, limit, m, s.cursor);
    }
  }

  /** The page fetched by a client that has shown the first m rows. */
  lemma PageOfStanding<K(!new), V>(rows: seq<Row<K, V>>, lt: Order<K>, limit: nat, m: nat, cursor: Option<K>)
    requires IsOrder(lt) && Sorted(rows, lt) && limit > 0 && m <= |rows| && cursor == LastKey(rows, m)
    ensures var p := Fetch(rows, lt, cursor, limit);
            if |rows| <= m + limit then p.next.None? && rows[..m] + p.items == rows
            else p.next == LastKey(rows, m + limit) && rows[..m] + p.items == rows[..m + limit]
  {
    if m == 0 {
      RestOfStart(rows, lt);
      assert rows[0..] == rows;
    } else {
      RestOfPrefix(rows, lt, m);
    }
    assert Rest(rows, lt, cursor) == rows[m..];
  }

  /** If the table never outgrows n * limit rows, the client is done after n fetches: following
      next_cursor terminates. */
  lemma ScrollTerminates<K(!new), V(!new)>(tables: History<K, V>, lt: Order<K>, limit: nat, n: nat)
    requires IsOrder(lt) && AlwaysSorted(tables, lt) && Appending(tables) && limit > 0
    requires n > 0 && |tables(n - 1)| <= n * limit
    ensures var s := After(tables, lt, limit, n);
            s.done && exists k: nat :: k < n && s.items == tables(k)
  {
    ScrollIsComplete(tables, lt, limit, n);
    ScrollIsComplete(tables, lt, limit, n - 1);
    var s := After(tables, lt, limit, n - 1);
    if !s.done {
      OneMore(n - 1, limit);
      PageOfStanding(tables(n - 1), lt, limit, (n - 1) * limit, s.cursor);
    }
  }

  /** A client of a table that does not change, after n fetches with room for m rows. */
  ghost predicate OnFixed<K(!new), V(!new)>(s: Scroll<K, V>, rows: seq<Row<K, V>>, n: nat, m: nat) {
    if n > 0 && |rows| <= m then s.done && s.items == rows
    else !s.done && m <= |rows| && s.items == rows[..m] && s.cursor == LastKey(rows, m)
  }

  lemma FixedStep<K(!new), V(!new)>(tables: History<K, V>, rows: seq<Row<K, V>>, lt: Order<K>, limit: nat, n: nat,
                                    m: nat)
    requires IsOrder(lt) && Sorted(rows, lt) && limit > 0 && tables(n) == rows && (n > 0 || m == 0)
    requires OnFixed(After(tables, lt, limit, n), rows, n, m)
    ensures OnFixed(After(tables, lt, limit, n + 1), rows, n + 1, m + limit)
  {
    var s := After(tables, lt, limit, n);
    if !s.done { PageOfStanding(rows, lt, limit, m, s.cursor); }
  }

  /** On a table that does not change the whole listing is shown, and no fetch is wasted: the client is
      done after n fetches exactly when n pages are enough. */
  lemma {:induction false} FixedTableScroll<K(!new), V(!new)>(tables: History<K, V>, rows: seq<Row<K, V>>,
                                                              lt: Order<K>, limit: nat, n: nat)
    requires IsOrder(lt) && Sorted(rows, lt) && limit > 0 && forall k: nat :: tables(k) == rows
    ensures OnFixed(After(tables, lt, limit, n), rows, n, n * limit)
  {
    if n > 0 {
      var k: nat := n - 1;
      FixedTableScroll(tables, rows, lt, limit, k);
      FixedStep(tables, rows, lt, limit, k, k * limit);
      OneMore(k, limit);
    }
  }
}
