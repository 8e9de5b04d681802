/** Any number of sessions open at once, on any investigations: what each of them sees and what is
    committed, over every interleaving of their operations. A call is one operation, because it reads and
    writes no total but that of its own investigation, whose row it locks at its first gate. */
module SessionRuns {
  import opened Common
  import opened Ledger
  import opened Router
  import opened RouterLaws
  import opened Sessions

  /** An open session: the investigation rows it has created and the ledger rows it has written, with their
      increments. Nobody else sees them before it commits. `doomed`: an exception is leaving it. */
  datatype Tx = Tx(created: map<int, Totals>, rows: seq<UsageRow>, catches: bool, doomed: bool)

  datatype Tables = Tables(db: Db, open: map<nat, Tx>)

  datatype Event = Begin(t: nat, catches: bool) | Do(t: nat, op: Op) | End(t: nat) | Lose(t: nat)

  const EMPTY := Tables(Db([], map[]), map[])

  function Opened(db: Db, tx: Tx): Db { Db(db.ledger, db.totals + tx.created) }

  /** The tables as an open session sees them: the committed ones and its own writes. */
  function View(db: Db, tx: Tx): Db { Post(Opened(db, tx), tx.rows) }

  predicate Has(rows: seq<UsageRow>, inv: int) {
    exists k :: 0 <= k < |rows| && rows[k].investigation == Some(inv)
  }

  predicate Mentions(tx: Tx, inv: int) { inv in tx.created || Has(tx.rows, inv) }

  /** Whether an operation has to wait for another session to end: a gated call for the lock on its
      investigation's row, if the other has raised its totals. An id that another session is using is
      neither created twice nor called on before its row is committed. */
  ghost predicate WaitsFor(op: Op, other: Tx) {
    match op
    case Create(inv) => Mentions(other, inv)
    case Call(c, p) =>
      && c.req.investigation.Some?
      && (|| c.req.investigation.value in other.created
          || (Gated(c.caps, c.req) && Has(other.rows, c.req.investigation.value)))
    case Other(_) => false
  }

  ghost predicate Enabled(s: Tables, e: Event) {
    match e
    case Begin(t, _) => t !in s.open
    case Do(t, op) =>
      t in s.open && !s.open[t].doomed && forall u :: u in s.open && u != t ==> !WaitsFor(op, s.open[u])
    case End(t) => t in s.open
    case Lose(t) => t in s.open
  }

  function Wrote(view: Db, tx: Tx, op: Op): Tx {
    match op
    case Create(inv) => if Step(view, op).ok then tx.(created := tx.created[inv := ZERO]) else tx
    case Call(c, p) => tx.(rows := tx.rows + From(c, p, view, 0).rows)
    case Other(_) => tx
  }

  function After(view: Db, tx: Tx, op: Op): Tx {
    Wrote(view, tx, op).(doomed := !GoesOn(Step(view, op).ok, op, tx.catches))
  }

  /** A session ends with a commit unless an exception leaves it; a lost one is rolled back. */
  ghost function Apply(s: Tables, e: Event): Tables {
    if !Enabled(s, e) then s
    else
      match e
      case Begin(t, catches) => s.(open := s.open[t := Tx(map[], [], catches, false)])
      case Do(t, op) => s.(open := s.open[t := After(View(s.db, s.open[t]), s.open[t], op)])
      case End(t) => Tables(if s.open[t].doomed then s.db else View(s.db, s.open[t]), s.open - {t})
      case Lose(t) => s.(open := s.open - {t})
  }

  ghost function Follow(s: Tables, es: seq<Event>): Tables
    decreases |es|
  {
    if es == [] then s else Follow(Apply(s, es[0]), es[1..])
  }

  // --------------------------------------------------------- one session at a time

  lemma {:induction false} PostCreate(db: Db, rows: seq<UsageRow>, inv: int)
    requires inv !in db.totals && !Has(rows, inv)
    ensures Post(db.(totals := db.totals[inv := ZERO]), rows)
            == Post(db, rows).(totals := Post(db, rows).totals[inv := ZERO])
  {
    if rows != [] {
      var n := |rows| - 1;
      assert !Has(rows[..n], inv) && rows[n].investigation != Some(inv);
      PostCreate(db, rows[..n], inv);
      var before := Post(db, rows[..n]);
      CreateOne(before, rows[n], inv);
    }
  }

  lemma CreateOne(db: Db, r: UsageRow, inv: int)
    requires r.investigation != Some(inv)
    ensures PostOne(db.(totals := db.totals[inv := ZERO]), r)
            == PostOne(db, r).(totals := PostOne(db, r).totals[inv := ZERO])
  {
    var x := PostOne(db.(totals := db.totals[inv := ZERO]), r);
    var y := PostOne(db, r).(totals := PostOne(db, r).totals[inv := ZERO]);
    assert x.totals == y.totals;
  }

  /** An operation does to the session's view what it does to tables nobody else uses. */
  lemma ViewAfter(db: Db, tx: Tx, op: Op)
    ensures View(db, After(View(db, tx), tx, op)) == Step(View(db, tx), op).db
  {
    var view := View(db, tx);
    PostAppends(Opened(db, tx), tx.rows);
    match op
    case Create(inv) =>
      if Step(view, op).ok {
        forall k | 0 <= k < |tx.rows| ensures tx.rows[k].investigation != Some(inv) {
          assert view.ledger[|db.ledger| + k] == tx.rows[k];
        }
        PostCreate(Opened(db, tx), tx.rows, inv);
        assert db.totals + tx.created[inv := ZERO] == (db.totals + tx.created)[inv := ZERO];
      }
    case Call(c, p) => PostConcat(Opened(db, tx), tx.rows, From(c, p, view, 0).rows);
    case Other(_) =>
  }

  function Dos(t: nat, ops: seq<Op>): seq<Event> {
    if ops == [] then [] else [Do(t, ops[0])] + Dos(t, ops[1..])
  }

  lemma {:induction false} FollowConcat(s: Tables, a: seq<Event>, b: seq<Event>)
    ensures Follow(s, a + b) == Follow(Follow(s, a), b)
    decreases |a|
  {
    if a == [] {
      assert a + b == b;
    } else {
      assert (a + b)[1..] == a[1..] + b;
      FollowConcat(Apply(s, a[0]), a[1..], b);
    }
  }

  lemma {:induction false} DoomedStays(s: Tables, t: nat, ops: seq<Op>)
    requires t in s.open && s.open[t].doomed
    ensures Follow(s, Dos(t, ops)) == s
    decreases |ops|
  {
    if ops != [] { DoomedStays(s, t, ops[1..]); }
  }

  lemma {:induction false} AloneWorks(db: Db, t: nat, tx: Tx, ops: seq<Op>) returns (tx': Tx)
    requires !tx.doomed
    ensures Follow(Tables(db, map[t := tx]), Dos(t, ops)) == Tables(db, map[t := tx'])
    ensures var w := Work(View(db, tx), Session(ops, tx.catches));
            tx'.doomed == !w.ok && (w.ok ==> View(db, tx') == w.db)
    decreases |ops|
  {
    if ops == [] {
      tx' := tx;
    } else {
      var s, next := Tables(db, map[t := tx]), After(View(db, tx), tx, ops[0]);
      ViewAfter(db, tx, ops[0]);
      assert Apply(s, Do(t, ops[0])) == Tables(db, map[t := next]);
      if next.doomed {
        DoomedStays(Tables(db, map[t := next]), t, ops[1..]);
        tx' := next;
      } else {
        tx' := AloneWorks(db, t, next, ops[1..]);
      }
    }
  }

  /** A session that runs with no other open commits what it does on its own. */
  lemma AloneIsCommit(db: Db, t: nat, session: Session)
    ensures Follow(Tables(db, map[]), [Begin(t, session.catches)] + Dos(t, session.ops) + [End(t)])
            == Tables(Commit(db, session), map[])
  {
    var tx := Tx(map[], [], session.catches, false);
    var dos := Dos(t, session.ops);
    assert [Begin(t, session.catches)] + dos + [End(t)] == [Begin(t, session.catches)] + (dos + [End(t)]);
    assert Opened(db, tx) == db;
    var tx' := AloneWorks(db, t, tx, session.ops);
    FollowConcat(Tables(db, map[t := tx]), dos, [End(t)]);
    var last := Tables(db, map[t := tx']);
    assert Follow(last, [End(t)]) == Follow(Apply(last, End(t)), []);
    assert Apply(last, End(t)).open == map[];
  }

  /** Nothing but the end of a session that no exception is leaving changes what is committed: not its own
      operations, nor the loss of it, nor the end of one that raised. */
  lemma OnlyCleanEndsCommit(s: Tables, e: Event)
    ensures Apply(s, e).db != s.db ==> e.End? && e.t in s.open && !s.open[e.t].doomed
  {
  }

  /** A session that runs with no other open and is lost has done nothing, however far it came. */
  lemma LostIsNothing(db: Db, t: nat, session: Session)
    ensures Follow(Tables(db, map[]), [Begin(t, session.catches)] + Dos(t, session.ops) + [Lose(t)])
            == Tables(db, map[])
  {
    var tx := Tx(map[], [], session.catches, false);
    var dos := Dos(t, session.ops);
    assert [Begin(t, session.catches)] + dos + [Lose(t)] == [Begin(t, session.catches)] + (dos + [Lose(t)]);
    var tx' := AloneWorks(db, t, tx, session.ops);
    FollowConcat(Tables(db, map[t := tx]), dos, [Lose(t)]);
    var last := Tables(db, map[t := tx']);
    assert Follow(last, [Lose(t)]) == Follow(Apply(last, Lose(t)), []);
    assert Apply(last, Lose(t)).open == map[];
  }

  // ------------------------------------------------------------------ conservation

  lemma {:induction false} FreshSpentNothing(rows: seq<UsageRow>, inv: int)
    requires !Has(rows, inv)
    ensures Spent(rows, inv) == ZERO
  {
    if rows != [] {
      assert !Has(rows[..|rows| - 1], inv) && rows[|rows| - 1].investigation != Some(inv);
      FreshSpentNothing(rows[..|rows| - 1], inv);
    }
  }

  ghost predicate FreshIn(db: Db, inv: int) { inv !in db.totals && !Has(db.ledger, inv) }

  /** What a session has created starts at zero and is unknown to the committed tables. */
  ghost predicate Sound(db: Db, tx: Tx) {
    forall inv :: inv in tx.created ==> tx.created[inv] == ZERO && FreshIn(db, inv)
  }

  /** What one open session has created no other open session mentions. */
  ghost predicate Apart(tx: Tx, other: Tx) {
    forall inv :: inv in tx.created ==> !Mentions(other, inv)
  }

  ghost predicate AllSound(s: Tables) { forall t :: t in s.open ==> Sound(s.db, s.open[t]) }

  ghost predicate AllApart(s: Tables) {
    forall t, u :: t in s.open && u in s.open && t != u ==> Apart(s.open[t], s.open[u])
  }

  ghost predicate Inv(s: Tables) { Conserved(s.db) && AllSound(s) && AllApart(s) }

  lemma ViewConserves(db: Db, tx: Tx)
    requires Conserved(db) && Sound(db, tx)
    ensures Conserved(View(db, tx))
  {
    forall inv | inv in tx.created ensures Spent(db.ledger, inv) == ZERO { FreshSpentNothing(db.ledger, inv); }
    PostConserves(Opened(db, tx), tx.rows);
  }

  lemma HasConcat(a: seq<UsageRow>, b: seq<UsageRow>, inv: int)
    ensures Has(a + b, inv) <==> Has(a, inv) || Has(b, inv)
  {
    if k :| 0 <= k < |a| && a[k].investigation == Some(inv) { assert (a + b)[k] == a[k]; }
    if k :| 0 <= k < |b| && b[k].investigation == Some(inv) { assert (a + b)[|a| + k] == b[k]; }
  }

  /** The rows of a call are about its own investigation. */
  lemma CallRowsAreOwn(c: Context, p: Provider, db: Db, inv: int)
    requires c.req.investigation != Some(inv)
    ensures !Has(From(c, p, db, 0).rows, inv)
  {
    RowsOrdered(c, p, db, 0);
  }

  /** What an operation adds is not mentioned by a session it did not have to wait for, unless it is a
      row of that session's own investigation. */
  lemma WroteApart(db: Db, tx: Tx, op: Op, other: Tx)
    requires Apart(tx, other) && Apart(other, tx) && !WaitsFor(op, other)
    ensures Apart(After(View(db, tx), tx, op), other) && Apart(other, After(View(db, tx), tx, op))
  {
    if op.Call? {
      var rows := From(op.c, op.p, View(db, tx), 0).rows;
      forall inv | inv in other.created ensures !Has(tx.rows + rows, inv) {
        assert !Mentions(tx, inv);
        HasConcat(tx.rows, rows, inv);
        CallRowsAreOwn(op.c, op.p, View(db, tx), inv);
      }
    }
  }

  lemma WroteSound(db: Db, tx: Tx, op: Op)
    requires Sound(db, tx)
    ensures Sound(db, After(View(db, tx), tx, op))
  {
    if op.Create? {
      PostAppends(Opened(db, tx), tx.rows);
      HasConcat(db.ledger, tx.rows, op.inv);
    }
  }

  /** A commit leaves the others' new investigations unknown. */
  lemma CommitSound(db: Db, tx: Tx, other: Tx)
    requires Sound(db, other) && Apart(other, tx)
    ensures Sound(View(db, tx), other)
  {
    PostAppends(Opened(db, tx), tx.rows);
    forall inv | inv in other.created ensures FreshIn(View(db, tx), inv) {
      assert !Mentions(tx, inv);
      HasConcat(db.ledger, tx.rows, inv);
    }
  }

  lemma DoInv(s: Tables, t: nat, op: Op)
    requires Inv(s) && Enabled(s, Do(t, op))
    ensures Inv(Apply(s, Do(t, op)))
  {
    var s' := Apply(s, Do(t, op));
    WroteSound(s.db, s.open[t], op);
    forall u | u in s.open && u != t ensures Apart(s'.open[t], s'.open[u]) && Apart(s'.open[u], s'.open[t]) {
      WroteApart(s.db, s.open[t], op, s.open[u]);
    }
  }

  lemma EndInv(s: Tables, t: nat)
    requires Inv(s) && t in s.open
    ensures Inv(Apply(s, End(t)))
  {
    ViewConserves(s.db, s.open[t]);
    forall u | u in s.open && u != t ensures Sound(View(s.db, s.open[t]), s.open[u]) {
      CommitSound(s.db, s.open[t], s.open[u]);
    }
  }

  lemma InvStep(s: Tables, e: Event)
    requires Inv(s)
    ensures Inv(Apply(s, e))
  {
    if Enabled(s, e) {
      match e
      case Begin(t, _) =>
      case Do(t, op) => DoInv(s, t, op);
      case End(t) => EndInv(s, t);
      case Lose(t) =>
    }
  }

  lemma {:induction false} InvFollows(s: Tables, es: seq<Event>)
    requires Inv(s)
    ensures Inv(Follow(s, es))
    decreases |es|
  {
    if es != [] {
      InvStep(s, es[0]);
      InvFollows(Apply(s, es[0]), es[1..]);
    }
  }

  ghost predicate SumsAgree(db: Db) {
    && Conserved(db)
    && forall inv :: inv in db.totals ==> TokensBelow(db, inv)
  }

  ghost predicate TokensBelow(db: Db, inv: int)
    requires inv in db.totals
  {
    && ZERO.AtMost(db.totals[inv])
    && SuccessTokens(db.ledger, inv).input <= db.totals[inv].inputTokens
    && SuccessTokens(db.ledger, inv).output <= db.totals[inv].outputTokens
  }

  lemma ConservedAgrees(db: Db)
    requires Conserved(db)
    ensures SumsAgree(db)
  {
    forall inv | inv in db.totals ensures TokensBelow(db, inv) {
      SpentNonNegative(db.ledger, inv);
      SuccessTokensBelowSpent(db.ledger, inv);
    }
  }

  /** However sessions interleave, end or are lost: in the committed tables, and in what any open session
      sees, each investigation's totals are the sum over its ledger rows, and the manifest's success-only
      token sums stay below them. */
  lemma CommittedTotalsAreLedgerSums(es: seq<Event>)
    ensures var s := Follow(EMPTY, es);
            SumsAgree(s.db) && forall t :: t in s.open ==> SumsAgree(View(s.db, s.open[t]))
  {
    InvFollows(EMPTY, es);
    var s := Follow(EMPTY, es);
    ConservedAgrees(s.db);
    forall t | t in s.open ensures SumsAgree(View(s.db, s.open[t])) {
      ViewConserves(s.db, s.open[t]);
      ConservedAgrees(View(s.db, s.open[t]));
    }
  }

  // ------------------------------------------------------------------ the caps

  /** A call under an active cap of at most `cap`, with responses clamped to `most`, at most `width` of
      them in one attempt. */
  ghost predicate Capped(c: Context, p: Provider, m: Meter, cap: int, most: nat, width: nat) {
    Active(CapOf(c.caps, m)) && CapOf(c.caps, m).value <= cap && Clamped(p, m, most) && Width(c) <= width
  }

  ghost predicate CappedEvent(e: Event, m: Meter, cap: int, most: nat, width: nat) {
    e.Do? && e.op.Call? ==> Capped(e.op.c, e.op.p, m, cap, most, width)
  }

  ghost predicate Bounded(db: Db, m: Meter, bound: int) {
    forall inv :: inv in db.totals ==> Level(db.totals[inv], m) <= bound
  }

  lemma CallBounded(db: Db, c: Context, p: Provider, m: Meter, cap: int, most: nat, width: nat)
    requires Capped(c, p, m, cap, most, width) && Bounded(db, m, cap - 1 + width * most)
    ensures Bounded(Post(db, From(c, p, db, 0).rows), m, cap - 1 + width * most)
  {
    var rows := From(c, p, db, 0).rows;
    var bound := cap - 1 + width * most;
    assert Width(c) * most <= width * most;
    PostAppends(db, rows);
    forall inv | inv in Post(db, rows).totals ensures Level(Post(db, rows).totals[inv], m) <= bound {
      CallKeepsBound(c, p, db, 0, inv, m, most, bound);
    }
  }

  lemma StepBounded(db: Db, op: Op, m: Meter, cap: int, most: nat, width: nat)
    requires cap > 0 && Bounded(db, m, cap - 1 + width * most)
    requires op.Call? ==> Capped(op.c, op.p, m, cap, most, width)
    ensures Bounded(Step(db, op).db, m, cap - 1 + width * most)
  {
    match op
    case Create(inv) => assert width * most >= 0;
    case Call(c, p) => CallBounded(db, c, p, m, cap, most, width);
    case Other(_) =>
  }

  /** No two open sessions have both written rows of one investigation. */
  ghost predicate Disjoint(tx: Tx, other: Tx) { forall inv :: Has(tx.rows, inv) ==> !Has(other.rows, inv) }

  ghost predicate ViewsBounded(s: Tables, m: Meter, bound: int) {
    forall t :: t in s.open ==> Bounded(View(s.db, s.open[t]), m, bound)
  }

  ghost predicate AllDisjoint(s: Tables) {
    forall t, u :: t in s.open && u in s.open && t != u ==> Disjoint(s.open[t], s.open[u])
  }

  ghost predicate Kept(s: Tables, m: Meter, bound: int) {
    Bounded(s.db, m, bound) && ViewsBounded(s, m, bound) && AllDisjoint(s)
  }

  /** One total of a view, after another session has committed. */
  lemma CommittedView(db: Db, tx: Tx, other: Tx, inv: int, m: Meter, bound: int)
    requires inv in View(View(db, tx), other).totals
    requires Apart(tx, other) && Apart(other, tx) && Disjoint(other, tx)
    requires Bounded(View(db, tx), m, bound) && Bounded(View(db, other), m, bound)
    ensures Level(View(View(db, tx), other).totals[inv], m) <= bound
  {
    PostAppends(Opened(db, tx), tx.rows);
    PostAppends(Opened(db, other), other.rows);
    PostAppends(Opened(View(db, tx), other), other.rows);
    PostTotals(Opened(View(db, tx), other), other.rows, inv);
    if inv in other.created {
      PostTotals(Opened(db, other), other.rows, inv);
    } else if Has(other.rows, inv) {
      assert inv !in tx.created;
      PostTotals(Opened(db, other), other.rows, inv);
      PostTotals(Opened(db, tx), tx.rows, inv);
      FreshSpentNothing(tx.rows, inv);
    } else {
      FreshSpentNothing(other.rows, inv);
    }
  }

  lemma WroteDisjoint(db: Db, tx: Tx, op: Op, other: Tx, m: Meter)
    requires Disjoint(tx, other) && !WaitsFor(op, other) && (op.Call? ==> Active(CapOf(op.c.caps, m)))
    ensures Disjoint(After(View(db, tx), tx, op), other) && Disjoint(other, After(View(db, tx), tx, op))
  {
    if op.Call? {
      var rows := From(op.c, op.p, View(db, tx), 0).rows;
      forall inv | Has(tx.rows + rows, inv) ensures !Has(other.rows, inv) {
        HasConcat(tx.rows, rows, inv);
        if op.c.req.investigation != Some(inv) { CallRowsAreOwn(op.c, op.p, View(db, tx), inv); }
      }
    }
  }

  lemma DoKeeps(s: Tables, t: nat, op: Op, m: Meter, cap: int, most: nat, width: nat)
    requires cap > 0 && Kept(s, m, cap - 1 + width * most) && Enabled(s, Do(t, op))
    requires CappedEvent(Do(t, op), m, cap, most, width)
    ensures Kept(Apply(s, Do(t, op)), m, cap - 1 + width * most)
  {
    var s' := Apply(s, Do(t, op));
    ViewAfter(s.db, s.open[t], op);
    StepBounded(View(s.db, s.open[t]), op, m, cap, most, width);
    forall u | u in s.open && u != t ensures Disjoint(s'.open[t], s.open[u]) && Disjoint(s.open[u], s'.open[t]) {
      WroteDisjoint(s.db, s.open[t], op, s.open[u], m);
    }
  }

  lemma EndKeeps(s: Tables, t: nat, m: Meter, bound: int)
    requires Inv(s) && Kept(s, m, bound) && t in s.open
    ensures Kept(Apply(s, End(t)), m, bound)
  {
    var tx := s.open[t];
    forall u | u in s.open && u != t ensures Bounded(View(View(s.db, tx), s.open[u]), m, bound) {
      var after := View(View(s.db, tx), s.open[u]);
      forall inv | inv in after.totals ensures Level(after.totals[inv], m) <= bound {
        CommittedView(s.db, tx, s.open[u], inv, m, bound);
      }
    }
  }

  lemma BeginKeeps(s: Tables, t: nat, catches: bool, m: Meter, bound: int)
    requires Kept(s, m, bound) && t !in s.open
    ensures Kept(Apply(s, Begin(t, catches)), m, bound)
  {
    var s' := Apply(s, Begin(t, catches));
    assert Opened(s.db, s'.open[t]) == s.db;
  }

  lemma KeptStep(s: Tables, e: Event, m: Meter, cap: int, most: nat, width: nat)
    requires cap > 0 && Inv(s) && Kept(s, m, cap - 1 + width * most) && CappedEvent(e, m, cap, most, width)
    ensures Kept(Apply(s, e), m, cap - 1 + width * most)
  {
    if Enabled(s, e) {
      match e
      case Begin(t, catches) => BeginKeeps(s, t, catches, m, cap - 1 + width * most);
      case Do(t, op) => DoKeeps(s, t, op, m, cap, most, width);
      case End(t) => EndKeeps(s, t, m, cap - 1 + width * most);
      case Lose(t) =>
    }
  }

  lemma {:induction false} KeptFollows(s: Tables, es: seq<Event>, m: Meter, cap: int, most: nat, width: nat)
    requires cap > 0 && Inv(s) && Kept(s, m, cap - 1 + width * most)
    requires forall e :: e in es ==> CappedEvent(e, m, cap, most, width)
    ensures Kept(Follow(s, es), m, cap - 1 + width * most)
    decreases |es|
  {
    if es != [] {
      InvStep(s, es[0]);
      KeptStep(s, es[0], m, cap, most, width);
      KeptFollows(Apply(s, es[0]), es[1..], m, cap, most, width);
    }
  }

  /** Tokens and micro-dollars alike, with caps that change between calls and sessions that interleave: no
      total, committed or seen by an open session, exceeds the largest cap by more than the responses of one
      attempt. That is cap - 1 + 2K in general (width 2), and cap - 1 + K if no call has a schema (width 1). */
  lemma TotalsNeverExceedCapByMore(es: seq<Event>, m: Meter, cap: int, most: nat, width: nat)
    requires cap > 0
    requires forall e :: e in es ==> CappedEvent(e, m, cap, most, width)
    ensures var s := Follow(EMPTY, es);
            && Bounded(s.db, m, cap - 1 + width * most)
            && forall t :: t in s.open ==> Bounded(View(s.db, s.open[t]), m, cap - 1 + width * most)
  {
    assert width * most >= 0;
    KeptFollows(EMPTY, es, m, cap, most, width);
  }

  /** The wait is what keeps the bound: had two sessions both passed the gate on the same committed totals,
      one short of the cap, their commits would reach cap - 1 plus four responses. */
  lemma GateLockIsNeeded(m: Meter, cap: int, most: nat) returns (p: Provider, tx: Tx)
    requires cap > 0
    ensures Capped(TightCall(m, cap), p, m, cap, most, 2)
    ensures tx == After(TightDb(m, cap), Tx(map[], [], false, false), Call(TightCall(m, cap), p))
    ensures WaitsFor(Call(TightCall(m, cap), p), tx)
    ensures var db := View(View(TightDb(m, cap), tx), tx);
            1 in db.totals && Level(db.totals[1], m) == cap - 1 + 4 * most
  {
    var x := FullResponse(m, most);
    p := (n: nat, r: nat) => Ok(x);
    var c, db := TightCall(m, cap), TightDb(m, cap);
    tx := After(db, Tx(map[], [], false, false), Call(c, p));
    TightRows(m, cap, p, x);
    assert Opened(db, tx) == db && Opened(View(db, tx), tx) == View(db, tx);
    TightPost(db, m, cap, most, x, tx.rows);
    TightPost(View(db, tx), m, cap, most, x, tx.rows);
    assert tx.rows[0].investigation == Some(1);
  }

  lemma TightPost(db: Db, m: Meter, cap: int, most: nat, x: Response, rows: seq<UsageRow>)
    requires 1 in db.totals && Load(x, m) == most
    requires rows == [FailureRow(TightCall(m, cap).req, 1, 0, "m", ValidationFail, Some(x))]
                     + [FailureRow(TightCall(m, cap).req, 1, 1, "m", ValidationFail, Some(x))]
    ensures 1 in Post(db, rows).totals && Level(Post(db, rows).totals[1], m) == Level(db.totals[1], m) + 2 * most
  {
    PostTwice(db, rows[0], rows[1], m, most);
  }
}
