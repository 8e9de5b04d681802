/** What the audit trigger's lock and the end of a transaction do: who waits for whom, and which rows
    the log ends up holding. */
module AuditLocks {
  import opened Common
  import opened AuditChain
  import opened AuditInsert

  // --------------------------------------------------------------------- who blocks

  /** An open transaction has inserted a row whose scope has this lock key. */
  ghost predicate HoldsRow(key: KeyFn, s: State, t: nat, k: int) {
    t in s.txs && exists r :: r in s.txs[t].pending && key(r.columns.scope.Or("")) == k
  }

  /** Every lock has a live holder with a row under it, and every such row has its lock. */
  ghost predicate LocksLive(key: KeyFn, s: State) {
    && (forall k :: k in s.locks ==> HoldsRow(key, s, s.locks[k], k))
    && (forall t :: t in s.txs ==> Locked(key, s, t))
  }

  lemma TriggerKeepsLive(h: string -> string, key: KeyFn, s: State, t: nat)
    requires LocksLive(key, s) && Enabled(key, s, Trigger(t))
    ensures LocksLive(key, Apply(h, key, s, Trigger(t)))
  {
    var s' := Apply(h, key, s, Trigger(t));
    var pending := s'.txs[t].pending;
    assert pending[|pending| - 1] in pending;
    forall k | k in s'.locks ensures HoldsRow(key, s', s'.locks[k], k) {
      if k in s.locks && s.locks[k] == s'.locks[k] { assert HoldsRow(key, s, s.locks[k], k); }
    }
    forall u | u in s'.txs ensures Locked(key, s', u) { assert Locked(key, s, u); }
  }

  lemma ReleaseKeepsLive(h: string -> string, key: KeyFn, s: State, e: Event)
    requires LocksLive(key, s) && Enabled(key, s, e) && (e.Commit? || e.Rollback?)
    ensures LocksLive(key, Apply(h, key, s, e))
  {
    var s' := Apply(h, key, s, e);
    forall k | k in s'.locks ensures HoldsRow(key, s', s'.locks[k], k) { assert HoldsRow(key, s, s.locks[k], k); }
    forall u | u in s'.txs ensures Locked(key, s', u) { assert Locked(key, s, u); }
  }

  lemma OpenKeepsLive(h: string -> string, key: KeyFn, s: State, e: Event)
    requires LocksLive(key, s) && Enabled(key, s, e) && (e.Begin? || e.Draw?)
    ensures LocksLive(key, Apply(h, key, s, e))
  {
    var s' := Apply(h, key, s, e);
    forall k | k in s'.locks ensures HoldsRow(key, s', s'.locks[k], k) { assert HoldsRow(key, s, s.locks[k], k); }
    forall u | u in s'.txs ensures Locked(key, s', u) { if u in s.txs { assert Locked(key, s, u); } }
  }

  lemma LiveStep(h: string -> string, key: KeyFn, s: State, e: Event)
    requires LocksLive(key, s) && Enabled(key, s, e)
    ensures LocksLive(key, Apply(h, key, s, e))
  {
    match e
    case Begin(_) => OpenKeepsLive(h, key, s, e);
    case Draw(_, _) => OpenKeepsLive(h, key, s, e);
    case Trigger(t) => TriggerKeepsLive(h, key, s, t);
    case Commit(_) => ReleaseKeepsLive(h, key, s, e);
    case Rollback(_) => ReleaseKeepsLive(h, key, s, e);
  }

  lemma {:induction false} ExecLive(h: string -> string, key: KeyFn, es: seq<Event>)
    requires Exec(h, key, es).Some?
    ensures LocksLive(key, Exec(h, key, es).value)
  {
    if es != [] {
      ExecLive(h, key, es[..|es| - 1]);
      LiveStep(h, key, Exec(h, key, es[..|es| - 1]).value, es[|es| - 1]);
    }
  }

  /** After every run a waiting insert is blocked if and only if another open transaction holds an
      uncommitted row whose scope has the same lock key: commits and rollbacks both let go. */
  lemma BlockedIff(h: string -> string, key: KeyFn, es: seq<Event>, t: nat)
    requires Exec(h, key, es).Some?
    requires t in Exec(h, key, es).value.txs && Exec(h, key, es).value.txs[t].waiting.Some?
    ensures var s := Exec(h, key, es).value;
            var k := key(s.txs[t].waiting.value.columns.scope.Or(""));
            !Enabled(key, s, Trigger(t)) <==> exists u :: u != t && HoldsRow(key, s, u, k)
  {
    ExecLive(h, key, es);
    var s := Exec(h, key, es).value;
    var k := key(s.txs[t].waiting.value.columns.scope.Or(""));
    if k in s.locks { assert HoldsRow(key, s, s.locks[k], k); }
    forall u | u != t && HoldsRow(key, s, u, k) ensures k in s.locks && s.locks[k] == u { assert Locked(key, s, u); }
  }

  // ------------------------------------------------------------------ which rows commit

  /** The insert that drew id n with columns c is waiting or inserted in an open transaction. */
  ghost predicate Carries(tx: Tx, n: int, c: Columns) {
    tx.waiting == Some(Draft(n, c)) || HasRow(tx.pending, n, c)
  }

  ghost predicate HasRow(rows: seq<Row>, n: int, c: Columns) {
    exists r :: r in rows && r.id == n && r.columns == c
  }

  ghost predicate NoId(rows: seq<Row>, n: int) { forall r :: r in rows ==> r.id != n }

  ghost predicate TxWithout(tx: Tx, n: int) {
    (tx.waiting.Some? ==> tx.waiting.value.id != n) && NoId(tx.pending, n)
  }

  datatype Fate = Flying | Committed | Lost

  /** Where an insert that transaction t drew id n for stands. */
  ghost predicate Stands(s: State, t: nat, n: int, c: Columns, fate: Fate) {
    && n < s.nextId
    && (forall u :: u in s.txs && !(u == t && fate.Flying?) ==> TxWithout(s.txs[u], n))
    && match fate
       case Flying => t in s.txs && Carries(s.txs[t], n, c) && NoId(s.log, n)
       case Committed => HasRow(s.log, n, c)
       case Lost => NoId(s.log, n)
  }

  /** What an event of the run does to an insert of transaction t. */
  function Next(fate: Fate, t: nat, e: Event): Fate {
    if fate.Flying? && e == Commit(t) then Committed
    else if fate.Flying? && e == Rollback(t) then Lost
    else fate
  }

  /** All ids are older than the next one to draw. */
  ghost predicate IdsDrawn(s: State) {
    && (forall r :: r in s.log ==> r.id < s.nextId)
    && (forall u :: u in s.txs ==> TxDrawn(s.txs[u], s.nextId))
  }

  ghost predicate TxDrawn(tx: Tx, next: int) {
    (tx.waiting.Some? ==> tx.waiting.value.id < next) && forall r :: r in tx.pending ==> r.id < next
  }

  lemma DrawnStep(h: string -> string, key: KeyFn, s: State, e: Event)
    requires IdsDrawn(s) && Enabled(key, s, e)
    ensures IdsDrawn(Apply(h, key, s, e))
  {
    var s' := Apply(h, key, s, e);
    forall u | u in s'.txs ensures TxDrawn(s'.txs[u], s'.nextId) {
      if u in s.txs { assert TxDrawn(s.txs[u], s.nextId); }
    }
    if e.Commit? { assert TxDrawn(s.txs[e.t], s.nextId); }
  }

  lemma {:induction false} ExecDrawn(h: string -> string, key: KeyFn, es: seq<Event>)
    requires Exec(h, key, es).Some?
    ensures IdsDrawn(Exec(h, key, es).value)
  {
    if es != [] {
      ExecDrawn(h, key, es[..|es| - 1]);
      DrawnStep(h, key, Exec(h, key, es[..|es| - 1]).value, es[|es| - 1]);
    }
  }

  lemma HasRowSnoc(rows: seq<Row>, more: seq<Row>, n: int, c: Columns)
    ensures HasRow(rows + more, n, c) <==> HasRow(rows, n, c) || HasRow(more, n, c)
    ensures NoId(rows + more, n) <==> NoId(rows, n) && NoId(more, n)
  {
    assert forall r :: r in rows + more <==> r in rows || r in more;
  }

  lemma TriggerStands(h: string -> string, key: KeyFn, s: State, u: nat, t: nat, n: int, c: Columns, fate: Fate)
    requires Stands(s, t, n, c, fate) && Enabled(key, s, Trigger(u))
    ensures Stands(Apply(h, key, s, Trigger(u)), t, n, c, fate)
  {
    var s' := Apply(h, key, s, Trigger(u));
    var pending := s.txs[u].pending;
    var row := s'.txs[u].pending[|pending|];
    assert s'.txs[u].pending == pending + [row];
    HasRowSnoc(pending, [row], n, c);
    assert row in [row];
    forall v | v in s'.txs && !(v == t && fate.Flying?) ensures TxWithout(s'.txs[v], n) {
      assert TxWithout(s.txs[v], n);
    }
  }

  lemma EndStands(h: string -> string, key: KeyFn, s: State, e: Event, t: nat, n: int, c: Columns, fate: Fate)
    requires Stands(s, t, n, c, fate) && Enabled(key, s, e) && (e.Commit? || e.Rollback?)
    ensures Stands(Apply(h, key, s, e), t, n, c, Next(fate, t, e))
  {
    HasRowSnoc(s.log, s.txs[e.t].pending, n, c);
    if e.t != t || !fate.Flying? { assert TxWithout(s.txs[e.t], n); }
  }

  lemma StandsStep(h: string -> string, key: KeyFn, s: State, e: Event, t: nat, n: int, c: Columns, fate: Fate)
    requires Stands(s, t, n, c, fate) && Enabled(key, s, e)
    ensures Stands(Apply(h, key, s, e), t, n, c, Next(fate, t, e))
  {
    match e
    case Begin(u) =>
    case Draw(u, _) =>
      var s' := Apply(h, key, s, e);
      forall v | v in s'.txs && !(v == t && fate.Flying?) ensures TxWithout(s'.txs[v], n) {
        assert TxWithout(s.txs[v], n);
      }
    case Trigger(u) => TriggerStands(h, key, s, u, t, n, c, fate);
    case Commit(_) => EndStands(h, key, s, e, t, n, c, fate);
    case Rollback(_) => EndStands(h, key, s, e, t, n, c, fate);
  }

  /** The id that step a of the run draws. */
  function DrawnAt(h: string -> string, key: KeyFn, es: seq<Event>, a: nat): int
    requires a < |es| && Exec(h, key, es[..a]).Some?
  {
    Exec(h, key, es[..a]).value.nextId
  }

  /** Transaction t ends at step b with the given event, and not before since step a. */
  ghost predicate EndsAt(es: seq<Event>, a: nat, b: nat, e: Event) {
    a < b < |es| && es[b] == e && forall i :: a < i < b ==> es[i] != Commit(e.t) && es[i] != Rollback(e.t)
  }

  /** The end of t that decides the insert drawn at step a, if the run has come to it. */
  function FateIn(es: seq<Event>, a: nat, t: nat): Fate
    decreases |es|
  {
    if |es| <= a + 1 then Flying else Next(FateIn(es[..|es| - 1], a, t), t, es[|es| - 1])
  }

  lemma {:induction false} FateMeans(es: seq<Event>, a: nat, t: nat)
    ensures FateIn(es, a, t).Committed? <==> exists b: nat :: EndsAt(es, a, b, Commit(t))
    ensures FateIn(es, a, t).Flying? <==> forall i :: a < i < |es| ==> es[i] != Commit(t) && es[i] != Rollback(t)
    decreases |es|
  {
    if |es| > a + 1 {
      var n := |es| - 1;
      FateMeans(es[..n], a, t);
      forall b: nat | b < n ensures EndsAt(es[..n], a, b, Commit(t)) <==> EndsAt(es, a, b, Commit(t)) {
      }
      if FateIn(es, a, t).Committed? && FateIn(es[..n], a, t).Flying? { assert EndsAt(es, a, n, Commit(t)); }
      if b: nat :| EndsAt(es, a, b, Commit(t)) { assert b == n || EndsAt(es[..n], a, b, Commit(t)); }
    }
  }

  lemma {:induction false} PrefixRuns(h: string -> string, key: KeyFn, es: seq<Event>, n: nat)
    requires Exec(h, key, es).Some? && n <= |es|
    ensures Exec(h, key, es[..n]).Some?
    decreases |es|
  {
    if n == |es| {
      assert es[..n] == es;
    } else {
      PrefixRuns(h, key, es[..|es| - 1], n);
      assert es[..|es| - 1][..n] == es[..n];
    }
  }

  lemma {:induction false} FateStands(h: string -> string, key: KeyFn, es: seq<Event>, a: nat, t: nat, c: Columns)
    requires a < |es| && Exec(h, key, es).Some? && es[a] == Draw(t, c)
    ensures Exec(h, key, es[..a]).Some?
    ensures Stands(Exec(h, key, es).value, t, DrawnAt(h, key, es, a), c, FateIn(es, a, t))
    decreases |es|
  {
    PrefixRuns(h, key, es, a);
    var init, last := es[..|es| - 1], es[|es| - 1];
    if |es| == a + 1 {
      ExecDrawn(h, key, init);
      DrawStands(h, key, Exec(h, key, init).value, t, c);
    } else {
      assert init[..a] == es[..a];
      FateStands(h, key, init, a, t, c);
      StandsStep(h, key, Exec(h, key, init).value, last, t, DrawnAt(h, key, es, a), c, FateIn(init, a, t));
    }
  }

  lemma DrawStands(h: string -> string, key: KeyFn, s: State, t: nat, c: Columns)
    requires IdsDrawn(s) && Enabled(key, s, Draw(t, c))
    ensures Stands(Apply(h, key, s, Draw(t, c)), t, s.nextId, c, Flying)
  {
    var s' := Apply(h, key, s, Draw(t, c));
    forall u | u in s'.txs && u != t ensures TxWithout(s'.txs[u], s.nextId) { assert TxDrawn(s.txs[u], s.nextId); }
    assert TxDrawn(s.txs[t], s.nextId);
  }

  /** An insert is in the committed log, under the id it drew and with its own columns, if and only if the
      next end of its transaction is a commit; otherwise no row has its id, and an insert whose transaction
      has ended is with nobody any more. */
  lemma CommittedIff(h: string -> string, key: KeyFn, es: seq<Event>, a: nat, t: nat, c: Columns)
    requires Exec(h, key, es).Some? && a < |es| && es[a] == Draw(t, c)
    ensures Exec(h, key, es[..a]).Some?
    ensures var s, n := Exec(h, key, es).value, DrawnAt(h, key, es, a);
            && (HasRow(s.log, n, c) <==> exists b: nat :: EndsAt(es, a, b, Commit(t)))
            && (HasRow(s.log, n, c) || NoId(s.log, n))
            && ((exists u :: u in s.txs && !TxWithout(s.txs[u], n))
                <==> forall i :: a < i < |es| ==> es[i] != Commit(t) && es[i] != Rollback(t))
  {
    FateStands(h, key, es, a, t, c);
    FateMeans(es, a, t);
    var s, n := Exec(h, key, es).value, DrawnAt(h, key, es, a);
    if FateIn(es, a, t).Flying? { assert !TxWithout(s.txs[t], n); }
  }

  // ------------------------------------------------------------------- what a scope is

  /** The query's filter: rows of exactly this scope, each as often as in the table, and no row for NULL;
      with `ScopedConcat`, in the table's order. */
  lemma {:induction false} ScopedMeans(rows: seq<Row>, scope: Option<string>, r: Row)
    ensures multiset(Scoped(rows, scope))[r]
            == if scope.Some? && r.columns.scope == scope then multiset(rows)[r] else 0
  {
    if rows != [] {
      ScopedMeans(rows[..|rows| - 1], scope, r);
      assert rows == rows[..|rows| - 1] + [rows[|rows| - 1]];
    }
  }

  /** A committed row without a scope hangs off nothing. */
  lemma NullScopeHasNoChain(h: string -> string, key: KeyFn, es: seq<Event>, r: Row)
    requires Exec(h, key, es).Some? && r in Exec(h, key, es).value.log && r.columns.scope.None?
    ensures r.previousHash == Some("") && r.contentHash == Some(h(Payload(r.columns, "")))
  {
    ExecChained(h, key, es);
    var log := Exec(h, key, es).value.log;
    var k :| 0 <= k < |log| && log[k] == r;
    assert ChainedAt(h, log, k);
    ScopedEmpty(log[..k], None);
  }

  /** ORDER BY id loses and repeats nothing. */
  lemma {:induction false} OrderByIdPermutes(rows: seq<Row>)
    ensures multiset(OrderById(rows)) == multiset(rows)
  {
    if rows != [] {
      var n := |rows| - 1;
      OrderByIdPermutes(rows[..n]);
      InsertPermutes(OrderById(rows[..n]), rows[n]);
      assert rows == rows[..n] + [rows[n]];
    }
  }

  lemma {:induction false} InsertPermutes(rows: seq<Row>, r: Row)
    ensures multiset(InsertById(rows, r)) == multiset(rows) + multiset{r}
  {
    if rows != [] && rows[|rows| - 1].id > r.id {
      var n := |rows| - 1;
      InsertPermutes(rows[..n], r);
      assert rows == rows[..n] + [rows[n]];
    }
  }

  /** The reader's view of a scope holds exactly its committed rows. */
  lemma ViewMeans(log: seq<Row>, scope: string, r: Row)
    ensures multiset(View(log, scope))[r] == if r.columns.scope == Some(scope) then multiset(log)[r] else 0
  {
    OrderByIdPermutes(Scoped(log, Some(scope)));
    ScopedMeans(log, Some(scope), r);
  }
}
