/** Concurrent inserts into the audit log: id drawn first, then the trigger under a lock. */
module AuditInsert {
  import opened Common
  import opened AuditChain

  /** A row that has drawn its id and now waits in the BEFORE INSERT trigger. */
  datatype Draft = Draft(id: int, columns: Columns)

  /** An open transaction: at most one insert in flight, and the rows it has already inserted. */
  datatype Tx = Tx(waiting: Option<Draft>, pending: seq<Row>)

  /** `log` is the committed table in commit order; `locks` maps a lock key to its holder. */
  datatype State = State(nextId: int, log: seq<Row>, txs: map<nat, Tx>, locks: map<int, nat>)

  datatype Event =
    | Begin(t: nat)
    | Draw(t: nat, columns: Columns)
    | Trigger(t: nat)
    | Commit(t: nat)
    | Rollback(t: nat)

  /** hashtext(): any map from scope text to lock key; two scopes may collide on one key. */
  type KeyFn = string -> int

  function Key(key: KeyFn, c: Columns): int { key(c.scope.Or("")) }

  /** The rows of one scope, in the given order. */
  function Scoped(rows: seq<Row>, scope: Option<string>): seq<Row> {
    if rows == [] then []
    else
      var n := |rows| - 1;
      Scoped(rows[..n], scope) + if scope.Some? && rows[n].columns.scope == scope then [rows[n]] else []
  }

  /** ORDER BY id DESC LIMIT 1, as a position. */
  function MaxAt(rows: seq<Row>): (m: nat)
    requires rows != []
    ensures m < |rows| && forall i :: 0 <= i < |rows| ==> rows[i].id <= rows[m].id
  {
    var n := |rows| - 1;
    if n == 0 then 0
    else
      var m := MaxAt(rows[..n]);
      assert forall i :: 0 <= i < n ==> rows[..n][i] == rows[i];
      if rows[m].id <= rows[n].id then n else m
  }

  /** The hash of the row with the largest id, or the empty text. */
  function Tip(rows: seq<Row>): string {
    if rows == [] then "" else rows[MaxAt(rows)].Content()
  }

  function Hashed(h: string -> string, id: int, c: Columns, previous: string): Row {
    Row(id, c, Some(h(Payload(c, previous))), Some(previous))
  }

  predicate Enabled(key: KeyFn, s: State, e: Event) {
    match e
    case Begin(t) => t !in s.txs
    case Draw(t, _) => t in s.txs && s.txs[t].waiting.None?
    case Trigger(t) =>
      && t in s.txs && s.txs[t].waiting.Some?
      && var k := Key(key, s.txs[t].waiting.value.columns);
         k in s.locks ==> s.locks[k] == t
    case Commit(t) => t in s.txs && s.txs[t].waiting.None?
    case Rollback(t) => t in s.txs
  }

  function Release(s: State, t: nat): State {
    s.(txs := s.txs - {t}, locks := s.locks - (set k | k in s.locks && s.locks[k] == t))
  }

  function Apply(h: string -> string, key: KeyFn, s: State, e: Event): State
    requires Enabled(key, s, e)
  {
    match e
    case Begin(t) => s.(txs := s.txs[t := Tx(None, [])])
    case Draw(t, c) =>
      s.(nextId := s.nextId + 1, txs := s.txs[t := s.txs[t].(waiting := Some(Draft(s.nextId, c)))])
    case Trigger(t) =>
      var d := s.txs[t].waiting.value;
      var previous := Tip(Scoped(s.log + s.txs[t].pending, d.columns.scope));
      var row := Hashed(h, d.id, d.columns, previous);
      s.(txs := s.txs[t := Tx(None, s.txs[t].pending + [row])], locks := s.locks[Key(key, d.columns) := t])
    case Commit(t) => Release(s.(log := s.log + s.txs[t].pending), t)
    case Rollback(t) => Release(s, t)
  }

  const INIT := State(1, [], map[], map[])

  /** The state after a schedule, or None if some event was blocked. */
  function Exec(h: string -> string, key: KeyFn, es: seq<Event>): Option<State> {
    if es == [] then Some(INIT)
    else
      match Exec(h, key, es[..|es| - 1])
      case None => None
      case Some(s) => if Enabled(key, s, es[|es| - 1]) then Some(Apply(h, key, s, es[|es| - 1])) else None
  }

  // ------------------------------------------------------------ the invariant

  ghost predicate ChainedAt(h: string -> string, rows: seq<Row>, k: nat)
    requires k < |rows|
  {
    rows[k] == Hashed(h, rows[k].id, rows[k].columns, Tip(Scoped(rows[..k], rows[k].columns.scope)))
  }

  /** Every row hangs off the largest-id row of its scope among the rows before it. */
  ghost predicate Chained(h: string -> string, rows: seq<Row>) {
    forall k :: 0 <= k < |rows| ==> ChainedAt(h, rows, k)
  }

  ghost predicate Locked(key: KeyFn, s: State, t: nat)
    requires t in s.txs
  {
    forall r :: r in s.txs[t].pending ==> Key(key, r.columns) in s.locks && s.locks[Key(key, r.columns)] == t
  }

  ghost predicate Inv(h: string -> string, key: KeyFn, s: State) {
    && Chained(h, s.log)
    && (forall t :: t in s.txs ==> Chained(h, s.log + s.txs[t].pending))
    && (forall t :: t in s.txs ==> Locked(key, s, t))
  }

  lemma {:induction false} ScopedConcat(a: seq<Row>, b: seq<Row>, scope: Option<string>)
    ensures Scoped(a + b, scope) == Scoped(a, scope) + Scoped(b, scope)
  {
    if b == [] {
      assert a + b == a;
    } else {
      var n := |b| - 1;
      assert (a + b)[..|a| + n] == a + b[..n];
      ScopedConcat(a, b[..n], scope);
    }
  }

  lemma {:induction false} ScopedEmpty(b: seq<Row>, scope: Option<string>)
    requires forall r :: r in b ==> scope.None? || r.columns.scope != scope
    ensures Scoped(b, scope) == []
  {
    if b != [] {
      ScopedEmpty(b[..|b| - 1], scope);
    }
  }

  /** Rows of other scopes in between do not disturb a chained suffix. */
  lemma ChainedPastOthers(h: string -> string, log: seq<Row>, mid: seq<Row>, mine: seq<Row>)
    requires Chained(h, log + mid) && Chained(h, log + mine)
    requires forall r, q :: r in mid && q in mine ==> r.columns.scope != q.columns.scope
    ensures Chained(h, log + mid + mine)
  {
    var all := log + mid + mine;
    forall k | 0 <= k < |all|
      ensures ChainedAt(h, all, k)
    {
      var n := |log| + |mid|;
      if k < n {
        assert all[..k] == (log + mid)[..k] && ChainedAt(h, log + mid, k);
      } else {
        var m := k - n;
        assert all[..k] == log + mid + mine[..m];
        assert (log + mine)[..|log| + m] == log + mine[..m];
        assert (log + mine)[|log| + m] == mine[m] == all[k] && ChainedAt(h, log + mine, |log| + m);
        var sc := all[k].columns.scope;
        ScopedConcat(log + mid, mine[..m], sc);
        ScopedConcat(log, mid, sc);
        ScopedConcat(log, mine[..m], sc);
        ScopedEmpty(mid, sc);
        assert Scoped(log, sc) + [] == Scoped(log, sc);
      }
    }
  }

  lemma ChainedAppend(h: string -> string, rows: seq<Row>, r: Row)
    requires Chained(h, rows)
    requires r == Hashed(h, r.id, r.columns, Tip(Scoped(rows, r.columns.scope)))
    ensures Chained(h, rows + [r])
  {
    var all := rows + [r];
    forall k | 0 <= k < |all|
      ensures ChainedAt(h, all, k)
    {
      if k < |rows| {
        assert all[..k] == rows[..k] && ChainedAt(h, rows, k);
      } else {
        assert all[..k] == rows;
      }
    }
  }

  lemma InvTrigger(h: string -> string, key: KeyFn, s: State, t: nat)
    requires Inv(h, key, s) && Enabled(key, s, Trigger(t))
    ensures Inv(h, key, Apply(h, key, s, Trigger(t)))
  {
    var s' := Apply(h, key, s, Trigger(t));
    var d := s.txs[t].waiting.value;
    var base := s.log + s.txs[t].pending;
    var row := Hashed(h, d.id, d.columns, Tip(Scoped(base, d.columns.scope)));
    ChainedAppend(h, base, row);
    assert s.log + (s.txs[t].pending + [row]) == base + [row];
    forall u | u in s'.txs ensures Locked(key, s', u) {
      assert Locked(key, s, u);
    }
  }

  lemma InvCommit(h: string -> string, key: KeyFn, s: State, t: nat)
    requires Inv(h, key, s) && Enabled(key, s, Commit(t))
    ensures Inv(h, key, Apply(h, key, s, Commit(t)))
  {
    var s' := Apply(h, key, s, Commit(t));
    forall u | u in s'.txs ensures Locked(key, s', u) && Chained(h, s'.log + s'.txs[u].pending) {
      assert Locked(key, s, u) && Locked(key, s, t);
      ChainedPastOthers(h, s.log, s.txs[t].pending, s.txs[u].pending);
    }
  }

  lemma InvRollback(h: string -> string, key: KeyFn, s: State, t: nat)
    requires Inv(h, key, s) && Enabled(key, s, Rollback(t))
    ensures Inv(h, key, Apply(h, key, s, Rollback(t)))
  {
    var s' := Apply(h, key, s, Rollback(t));
    forall u | u in s'.txs ensures Locked(key, s', u) {
      assert Locked(key, s, u);
    }
  }

  lemma InvStep(h: string -> string, key: KeyFn, s: State, e: Event)
    requires Inv(h, key, s) && Enabled(key, s, e)
    ensures Inv(h, key, Apply(h, key, s, e))
  {
    match e
    case Begin(t) =>
      assert s.log + [] == s.log;
      var s' := Apply(h, key, s, e);
      forall u | u in s'.txs ensures Locked(key, s', u) {
        if u != t { assert Locked(key, s, u); }
      }
    case Draw(t, _) =>
      var s' := Apply(h, key, s, e);
      forall u | u in s'.txs ensures Locked(key, s', u) { assert Locked(key, s, u); }
    case Trigger(t) => InvTrigger(h, key, s, t);
    case Commit(t) => InvCommit(h, key, s, t);
    case Rollback(t) => InvRollback(h, key, s, t);
  }

  /** After any schedule, each committed row hangs off the largest-id row of its scope
      among the rows committed before it. */
  lemma {:induction false} ExecChained(h: string -> string, key: KeyFn, es: seq<Event>)
    requires Exec(h, key, es).Some?
    ensures Inv(h, key, Exec(h, key, es).value)
  {
    if es != [] {
      ExecChained(h, key, es[..|es| - 1]);
      InvStep(h, key, Exec(h, key, es[..|es| - 1]).value, es[|es| - 1]);
    }
  }

  // ------------------------------------------------- what the reader's ORDER BY id sees

  function InsertById(rows: seq<Row>, r: Row): seq<Row> {
    if rows == [] || rows[|rows| - 1].id <= r.id then rows + [r]
    else InsertById(rows[..|rows| - 1], r) + [rows[|rows| - 1]]
  }

  /** ORDER BY id ASC (stable). */
  function OrderById(rows: seq<Row>): seq<Row> {
    if rows == [] then [] else InsertById(OrderById(rows[..|rows| - 1]), rows[|rows| - 1])
  }

  ghost predicate IdSorted(rows: seq<Row>) {
    forall i, j :: 0 <= i < j < |rows| ==> rows[i].id <= rows[j].id
  }

  /** What /api/audit/verify and verify_chain read: one scope, ids ascending. */
  function View(log: seq<Row>, scope: string): seq<Row> {
    OrderById(Scoped(log, Some(scope)))
  }

  lemma {:induction false} InsertByIdSorted(rows: seq<Row>, r: Row)
    requires IdSorted(rows)
    ensures IdSorted(InsertById(rows, r))
    ensures forall x :: x in InsertById(rows, r) <==> x in rows || x == r
  {
    if rows == [] || rows[|rows| - 1].id <= r.id {
    } else {
      var n := |rows| - 1;
      InsertByIdSorted(rows[..n], r);
      assert rows == rows[..n] + [rows[n]];
      assert forall x :: x in rows[..n] ==> x.id <= rows[n].id;
    }
  }

  lemma {:induction false} OrderByIdSorts(rows: seq<Row>)
    ensures IdSorted(OrderById(rows))
    ensures forall x :: x in OrderById(rows) <==> x in rows
  {
    if rows != [] {
      var n := |rows| - 1;
      OrderByIdSorts(rows[..n]);
      InsertByIdSorted(OrderById(rows[..n]), rows[n]);
      assert rows == rows[..n] + [rows[n]];
    }
  }

  lemma {:induction false} OrderByIdOfSorted(rows: seq<Row>)
    requires IdSorted(rows)
    ensures OrderById(rows) == rows
  {
    if rows != [] {
      var n := |rows| - 1;
      OrderByIdOfSorted(rows[..n]);
      assert rows == rows[..n] + [rows[n]];
    }
  }

  ghost predicate LinkedAt(h: string -> string, rows: seq<Row>, k: nat)
    requires k < |rows|
  {
    rows[k] == Hashed(h, rows[k].id, rows[k].columns, Tip(rows[..k]))
  }

  /** One scope's rows in commit order hang off each other with no other scope in between. */
  ghost predicate Linked(h: string -> string, rows: seq<Row>) {
    forall k :: 0 <= k < |rows| ==> LinkedAt(h, rows, k)
  }

  lemma LinkedAppend(h: string -> string, rows: seq<Row>, r: Row)
    requires Linked(h, rows) && r == Hashed(h, r.id, r.columns, Tip(rows))
    ensures Linked(h, rows + [r])
  {
    var all := rows + [r];
    forall k | 0 <= k < |all| ensures LinkedAt(h, all, k) {
      if k < |rows| { assert all[..k] == rows[..k] && LinkedAt(h, rows, k); } else { assert all[..k] == rows; }
    }
  }

  lemma ChainedPrefix(h: string -> string, rows: seq<Row>, n: nat)
    requires Chained(h, rows) && n <= |rows|
    ensures Chained(h, rows[..n])
  {
    forall k | 0 <= k < n ensures ChainedAt(h, rows[..n], k) {
      assert rows[..n][..k] == rows[..k] && ChainedAt(h, rows, k);
    }
  }

  lemma {:induction false} ScopedLinked(h: string -> string, rows: seq<Row>, scope: string)
    requires Chained(h, rows)
    ensures Linked(h, Scoped(rows, Some(scope)))
  {
    if rows != [] {
      var n := |rows| - 1;
      ChainedPrefix(h, rows, n);
      ScopedLinked(h, rows[..n], scope);
      if rows[n].columns.scope == Some(scope) {
        assert ChainedAt(h, rows, n);
        LinkedAppend(h, Scoped(rows[..n], Some(scope)), rows[n]);
      } else {
        assert Scoped(rows, Some(scope)) == Scoped(rows[..n], Some(scope));
      }
    }
  }

  lemma TipOfSorted(rows: seq<Row>)
    requires IdSorted(rows) && rows != []
    ensures MaxAt(rows) == |rows| - 1
  {
  }

  lemma LinkedVerifies(h: string -> string, rows: seq<Row>)
    requires Linked(h, rows) && IdSorted(rows)
    ensures Verified(h, rows)
  {
    forall i | 0 <= i < |rows| ensures RowOk(h, rows, i) {
      assert LinkedAt(h, rows, i);
      if i > 0 { TipOfSorted(rows[..i]); }
    }
  }

  /** In a verified view, a row naming another row's hash comes directly after that row. */
  lemma PredecessorBelow(h: string -> string, view: seq<Row>, later: Row, earlier: Row)
    requires HashOk(h) && Verified(h, view) && IdSorted(view)
    requires later in view && earlier in view
    requires later.Previous() == earlier.Content()
    ensures earlier.id <= later.id
  {
    var p: nat :| p < |view| && view[p] == later;
    var q: nat :| q < |view| && view[q] == earlier;
    assert RowOk(h, view, p) && RowOk(h, view, q);
    if p - 1 < q {
      if p > 0 { NoForks(h, view, p - 1, q); }
      assert false;
    }
    assert view[q].id <= view[p].id;
  }

  /** If the sorted view verifies, each row's id is at least every id linked before it. */
  lemma VerifiesInOrder(h: string -> string, view: seq<Row>, rows: seq<Row>, k: nat)
    requires HashOk(h) && Linked(h, rows) && Verified(h, view) && IdSorted(view)
    requires forall r :: r in rows ==> r in view
    requires 0 < k < |rows|
    ensures forall i :: 0 <= i < k ==> rows[i].id <= rows[k].id
  {
    var before := rows[..k];
    var m := MaxAt(before);
    assert before[m] == rows[m] && rows[m] in rows && rows[k] in rows;
    assert rows[k].Previous() == rows[m].Content() by { assert LinkedAt(h, rows, k); }
    PredecessorBelow(h, view, rows[k], rows[m]);
    forall i | 0 <= i < k ensures rows[i].id <= rows[k].id { assert before[i] == rows[i]; }
  }

  /** A committed scope verifies exactly when its rows took the lock in id order. */
  lemma VerifiesIffLockOrderIsIdOrder(h: string -> string, key: KeyFn, es: seq<Event>, scope: string)
    requires HashOk(h) && Exec(h, key, es).Some?
    ensures var log := Exec(h, key, es).value.log;
            Verified(h, View(log, scope)) <==> IdSorted(Scoped(log, Some(scope)))
  {
    var log := Exec(h, key, es).value.log;
    var rows := Scoped(log, Some(scope));
    ExecChained(h, key, es);
    ScopedLinked(h, log, scope);
    if IdSorted(rows) {
      OrderByIdOfSorted(rows);
      LinkedVerifies(h, rows);
    }
    OrderByIdSorts(rows);
    if Verified(h, View(log, scope)) {
      forall i, j | 0 <= i < j < |rows| ensures rows[i].id <= rows[j].id {
        VerifiesInOrder(h, View(log, scope), rows, j);
      }
    }
  }

  /** The hypothesis under which the chain works: no trigger runs after a row with a larger id
      of its scope has become visible to it. */
  ghost predicate InOrder(s: State, e: Event) {
    e.Trigger? && e.t in s.txs && s.txs[e.t].waiting.Some? ==>
      var d := s.txs[e.t].waiting.value;
      forall r :: r in Scoped(s.log + s.txs[e.t].pending, d.columns.scope) ==> r.id < d.id
  }

  ghost predicate AllInOrder(h: string -> string, key: KeyFn, es: seq<Event>)
    requires Exec(h, key, es).Some?
  {
    es == [] || (AllInOrder(h, key, es[..|es| - 1]) && InOrder(Exec(h, key, es[..|es| - 1]).value, es[|es| - 1]))
  }

  ghost predicate ScopesSorted(rows: seq<Row>) {
    forall scope :: IdSorted(Scoped(rows, scope))
  }

  lemma SortedPastOthers(log: seq<Row>, mid: seq<Row>, mine: seq<Row>)
    requires ScopesSorted(log + mid) && ScopesSorted(log + mine)
    requires forall r, q :: r in mid && q in mine ==> r.columns.scope != q.columns.scope
    ensures ScopesSorted(log + mid + mine)
  {
    forall sc ensures IdSorted(Scoped(log + mid + mine, sc)) {
      ScopedConcat(log + mid, mine, sc);
      ScopedConcat(log, mid, sc);
      ScopedConcat(log, mine, sc);
      assert IdSorted(Scoped(log + mid, sc)) && IdSorted(Scoped(log + mine, sc));
      if exists q :: q in mine && q.columns.scope == sc {
        ScopedEmpty(mid, sc);
        assert Scoped(log, sc) + [] == Scoped(log, sc);
      } else {
        ScopedEmpty(mine, sc);
        assert Scoped(log + mid, sc) + [] == Scoped(log + mid, sc);
      }
    }
  }

  lemma SortedTrigger(h: string -> string, key: KeyFn, s: State, t: nat)
    requires Enabled(key, s, Trigger(t)) && InOrder(s, Trigger(t))
    requires ScopesSorted(s.log + s.txs[t].pending)
    ensures ScopesSorted(s.log + Apply(h, key, s, Trigger(t)).txs[t].pending)
  {
    var base := s.log + s.txs[t].pending;
    var pending := Apply(h, key, s, Trigger(t)).txs[t].pending;
    var row := pending[|pending| - 1];
    assert s.log + pending == base + [row];
    SortedSnoc(base, row);
  }

  lemma SortedSnoc(base: seq<Row>, row: Row)
    requires ScopesSorted(base) && forall r :: r in Scoped(base, row.columns.scope) ==> r.id < row.id
    ensures ScopesSorted(base + [row])
  {
    forall sc ensures IdSorted(Scoped(base + [row], sc)) {
      assert IdSorted(Scoped(base, sc));
      assert (base + [row])[..|base|] == base;
    }
  }

  ghost predicate SortedInv(s: State) {
    ScopesSorted(s.log) && forall t :: t in s.txs ==> ScopesSorted(s.log + s.txs[t].pending)
  }

  lemma SortedStep(h: string -> string, key: KeyFn, s: State, e: Event)
    requires Inv(h, key, s) && Enabled(key, s, e) && InOrder(s, e) && SortedInv(s)
    ensures SortedInv(Apply(h, key, s, e))
  {
    match e
    case Begin(t) => assert s.log + [] == s.log;
    case Draw(t, _) =>
    case Trigger(t) => SortedTrigger(h, key, s, t);
    case Commit(t) =>
      forall u | u in s.txs && u != t ensures ScopesSorted(s.log + s.txs[t].pending + s.txs[u].pending) {
        assert Locked(key, s, u) && Locked(key, s, t);
        SortedPastOthers(s.log, s.txs[t].pending, s.txs[u].pending);
      }
    case Rollback(t) =>
  }

  lemma {:induction false} InOrderSorts(h: string -> string, key: KeyFn, es: seq<Event>)
    requires Exec(h, key, es).Some? && AllInOrder(h, key, es)
    ensures SortedInv(Exec(h, key, es).value)
  {
    if es != [] {
      InOrderSorts(h, key, es[..|es| - 1]);
      ExecChained(h, key, es[..|es| - 1]);
      SortedStep(h, key, Exec(h, key, es[..|es| - 1]).value, es[|es| - 1]);
    }
  }

  /** With ids drawn in lock order every interleaving leaves every scope verified and unforked. */
  lemma InOrderRunsVerify(h: string -> string, key: KeyFn, es: seq<Event>, scope: string)
    requires HashOk(h) && Exec(h, key, es).Some? && AllInOrder(h, key, es)
    ensures var view := View(Exec(h, key, es).value.log, scope);
            && Verified(h, view)
            && forall i, j :: 0 <= i < j < |view| ==> view[i].Previous() != view[j].Previous()
  {
    InOrderSorts(h, key, es);
    VerifiesIffLockOrderIsIdOrder(h, key, es, scope);
    var view := View(Exec(h, key, es).value.log, scope);
    forall i, j | 0 <= i < j < |view| ensures view[i].Previous() != view[j].Previous() {
      NoForks(h, view, i, j);
    }
  }

  const C1 := Columns(Some("s"), None, None, None, Some("a"), None, None)
  const C2 := Columns(Some("s"), None, None, None, Some("b"), None, None)
  const C3 := Columns(Some("s"), None, None, None, Some("c"), None, None)

  /** Insert 1 draws its id first but is overtaken at the lock by insert 2; insert 3 then
      hangs off insert 2 as well. */
  const DRAWN := [Begin(1), Draw(1, C1), Begin(2), Draw(2, C2)]
  const OVERTAKEN := DRAWN + [Trigger(2)] + [Commit(2)] + [Trigger(1)] + [Commit(1)]
                     + [Begin(3)] + [Draw(3, C3)] + [Trigger(3)] + [Commit(3)]

  lemma ExecSnoc(h: string -> string, key: KeyFn, es: seq<Event>, e: Event)
    requires Exec(h, key, es).Some? && Enabled(key, Exec(h, key, es).value, e)
    ensures Exec(h, key, es + [e]) == Some(Apply(h, key, Exec(h, key, es).value, e))
  {
    assert (es + [e])[..|es|] == es;
  }

  lemma Scoped1(r: Row)
    requires r.columns.scope == Some("s")
    ensures Scoped([r], Some("s")) == [r]
  {
    assert [r][..0] == [];
  }

  lemma ScopedAll(rows: seq<Row>, r: Row)
    requires Scoped(rows, Some("s")) == rows && r.columns.scope == Some("s")
    ensures Scoped(rows + [r], Some("s")) == rows + [r]
  {
    assert (rows + [r])[..|rows|] == rows;
  }

  lemma DrawnState(h: string -> string, key: KeyFn)
    ensures Exec(h, key, DRAWN)
            == Some(State(3, [], map[1 := Tx(Some(Draft(1, C1)), []), 2 := Tx(Some(Draft(2, C2)), [])], map[]))
  {
    assert Exec(h, key, []) == Some(INIT);
    ExecSnoc(h, key, [], Begin(1));
    ExecSnoc(h, key, [] + [Begin(1)], Draw(1, C1));
    ExecSnoc(h, key, [] + [Begin(1)] + [Draw(1, C1)], Begin(2));
    ExecSnoc(h, key, [] + [Begin(1)] + [Draw(1, C1)] + [Begin(2)], Draw(2, C2));
    assert DRAWN == [] + [Begin(1)] + [Draw(1, C1)] + [Begin(2)] + [Draw(2, C2)];
    assert Exec(h, key, DRAWN).value.txs == map[1 := Tx(Some(Draft(1, C1)), []), 2 := Tx(Some(Draft(2, C2)), [])];
  }

  lemma TriggerCommit(h: string -> string, key: KeyFn, es: seq<Event>, t: nat, d: Draft)
    requires Exec(h, key, es).Some? && Exec(h, key, es).value.locks == map[]
    requires t in Exec(h, key, es).value.txs && Exec(h, key, es).value.txs[t] == Tx(Some(d), [])
    ensures var s := Exec(h, key, es).value;
            var row := Hashed(h, d.id, d.columns, Tip(Scoped(s.log, d.columns.scope)));
            Exec(h, key, es + [Trigger(t)] + [Commit(t)]) == Some(State(s.nextId, s.log + [row], s.txs - {t}, map[]))
  {
    var s := Exec(h, key, es).value;
    ExecSnoc(h, key, es, Trigger(t));
    ExecSnoc(h, key, es + [Trigger(t)], Commit(t));
    assert s.log + [] == s.log;
    var s' := Exec(h, key, es + [Trigger(t)] + [Commit(t)]).value;
    assert s'.locks == map[];
    assert s'.txs == s.txs - {t};
    assert s'.log == s.log + [Hashed(h, d.id, d.columns, Tip(Scoped(s.log, d.columns.scope)))];
  }

  /** The second drawer commits first. */
  lemma LateDrawerCommits(h: string -> string, key: KeyFn, es: seq<Event>, r2: Row)
    requires Exec(h, key, es)
             == Some(State(3, [], map[1 := Tx(Some(Draft(1, C1)), []), 2 := Tx(Some(Draft(2, C2)), [])], map[]))
    requires r2 == Hashed(h, 2, C2, "")
    ensures Exec(h, key, es + [Trigger(2)] + [Commit(2)])
            == Some(State(3, [r2], map[1 := Tx(Some(Draft(1, C1)), [])], map[]))
  {
    var s := Exec(h, key, es).value;
    TriggerCommit(h, key, es, 2, Draft(2, C2));
    assert s.log + [r2] == [r2];
    assert s.txs - {2} == map[1 := Tx(Some(Draft(1, C1)), [])];
  }

  /** The first drawer commits after it: smaller id, later row. */
  lemma EarlyDrawerCommits(h: string -> string, key: KeyFn, es: seq<Event>, r2: Row, r1: Row)
    requires Exec(h, key, es) == Some(State(3, [r2], map[1 := Tx(Some(Draft(1, C1)), [])], map[]))
    requires r2 == Hashed(h, 2, C2, "") && r1 == Hashed(h, 1, C1, r2.Content())
    ensures Exec(h, key, es + [Trigger(1)] + [Commit(1)]) == Some(State(3, [r2, r1], map[], map[]))
  {
    var s := Exec(h, key, es).value;
    Scoped1(r2);
    TriggerCommit(h, key, es, 1, Draft(1, C1));
    assert s.log + [r1] == [r2, r1];
    assert s.txs - {1} == map[];
  }

  /** The third insert reads the row of the larger id as the chain's tip. */
  lemma ThirdCommits(h: string -> string, key: KeyFn, es: seq<Event>, r2: Row, r1: Row, r3: Row)
    requires Exec(h, key, es) == Some(State(3, [r2, r1], map[], map[]))
    requires r2 == Hashed(h, 2, C2, "") && r1 == Hashed(h, 1, C1, r2.Content()) && r3 == Hashed(h, 3, C3, r2.Content())
    ensures var run := Exec(h, key, es + [Begin(3)] + [Draw(3, C3)] + [Trigger(3)] + [Commit(3)]);
            run.Some? && run.value.log == [r2, r1, r3]
  {
    ExecSnoc(h, key, es, Begin(3));
    ExecSnoc(h, key, es + [Begin(3)], Draw(3, C3));
    Scoped1(r2);
    ScopedAll([r2], r1);
    assert [r2] + [r1] == [r2, r1];
    TriggerCommit(h, key, es + [Begin(3)] + [Draw(3, C3)], 3, Draft(3, C3));
    assert [r2, r1] + [r3] == [r2, r1, r3];
  }

  lemma OvertakenState(h: string -> string, key: KeyFn) returns (r2: Row, r1: Row, r3: Row)
    ensures r2 == Hashed(h, 2, C2, "") && r1 == Hashed(h, 1, C1, r2.Content()) && r3 == Hashed(h, 3, C3, r2.Content())
    ensures Exec(h, key, OVERTAKEN).Some? && Exec(h, key, OVERTAKEN).value.log == [r2, r1, r3]
  {
    r2 := Hashed(h, 2, C2, "");
    r1 := Hashed(h, 1, C1, r2.Content());
    r3 := Hashed(h, 3, C3, r2.Content());
    DrawnState(h, key);
    LateDrawerCommits(h, key, DRAWN, r2);
    EarlyDrawerCommits(h, key, DRAWN + [Trigger(2)] + [Commit(2)], r2, r1);
    ThirdCommits(h, key, DRAWN + [Trigger(2)] + [Commit(2)] + [Trigger(1)] + [Commit(1)], r2, r1, r3);
    assert OVERTAKEN == DRAWN + [Trigger(2)] + [Commit(2)] + [Trigger(1)] + [Commit(1)]
                        + [Begin(3)] + [Draw(3, C3)] + [Trigger(3)] + [Commit(3)];
  }

  /** Without the hypothesis the claim is false: three inserts fork the chain and fail verification. */
  lemma OvertakenForks(h: string -> string, key: KeyFn)
    requires HashOk(h)
    ensures Exec(h, key, OVERTAKEN).Some?
    ensures var view := View(Exec(h, key, OVERTAKEN).value.log, "s");
            !Verified(h, view) && exists i, j :: 0 <= i < j < |view| && view[i].Previous() == view[j].Previous()
  {
    var r2, r1, r3 := OvertakenState(h, key);
    Scoped1(r2);
    ScopedAll([r2], r1);
    ScopedAll([r2, r1], r3);
    var rows := [r2, r1, r3];
    assert [r2] + [r1] == [r2, r1] && [r2, r1] + [r3] == rows;
    VerifiesIffLockOrderIsIdOrder(h, key, OVERTAKEN, "s");
    assert rows[0].id > rows[1].id;
    OrderByIdSorts(rows);
    var view := OrderById(rows);
    assert r1 in view && r3 in view;
    var i: nat :| i < |view| && view[i] == r1;
    var j: nat :| j < |view| && view[j] == r3;
    assert i != j;
  }

  /** The table, its sequence and its advisory locks, changed in place by the sessions. */
  class AuditStore {
    const h: string -> string
    const key: KeyFn
    var state: State

    constructor (h: string -> string, key: KeyFn)
      ensures this.h == h && this.key == key && state == INIT
    {
      this.h, this.key, state := h, key, INIT;
    }

    /** The INSERT statement as far as the sequence: the id is drawn before the trigger fires. */
    method DrawId(t: nat, columns: Columns) returns (id: int)
      requires Enabled(key, state, Draw(t, columns))
      modifies this
      ensures state == Apply(h, key, old(state), Draw(t, columns))
      ensures id == old(state.nextId)
    {
      id := state.nextId;
      var tx := state.txs[t];
      state := state.(nextId := id + 1, txs := state.txs[t := tx.(waiting := Some(Draft(id, columns)))]);
    }

    /** compute_audit_hash: blocks while another transaction holds the scope's key, then
        reads the latest visible row of the scope and fills both hash columns. */
    method ComputeAuditHash(t: nat) returns (granted: bool)
      requires t in state.txs && state.txs[t].waiting.Some?
      modifies this
      ensures granted <==> Enabled(key, old(state), Trigger(t))
      ensures state == if granted then Apply(h, key, old(state), Trigger(t)) else old(state)
    {
      var draft := state.txs[t].waiting.value;
      var k := key(draft.columns.scope.Or(""));
      if k in state.locks && state.locks[k] != t {
        return false;
      }
      var visible := Scoped(state.log + state.txs[t].pending, draft.columns.scope);
      var prevHash := "";
      if visible != [] {
        prevHash := visible[MaxAt(visible)].Content();
      }
      var contentHash := h(Payload(draft.columns, prevHash));
      var row := Row(draft.id, draft.columns, Some(contentHash), Some(prevHash));
      state := state.(txs := state.txs[t := Tx(None, state.txs[t].pending + [row])], locks := state.locks[k := t]);
      granted := true;
    }
  }
}
