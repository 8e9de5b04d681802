/** One database session around the router: what it commits, and what its rollback hides. */
module Sessions {
  import opened Common
  import opened Ledger
  import opened Router
  import opened RouterLaws

  /** A new investigation row (its id is a fresh UUID), one router call, or any other statement of the
      session, such as the audit insert behind a call, which may raise. */
  datatype Op = Create(inv: int) | Call(c: Context, p: Provider) | Other(ok: bool)

  /** `catches` says whether a call's exceptions are handled inside the session (Tier-1) or leave it
      (Tier-2). An exception of any other statement leaves it. */
  datatype Session = Session(ops: seq<Op>, catches: bool)

  datatype Progress = Progress(db: Db, ok: bool)

  function Step(db: Db, op: Op): Progress {
    match op
    case Create(inv) =>
      if inv in db.totals || exists k :: 0 <= k < |db.ledger| && db.ledger[k].investigation == Some(inv)
      then Progress(db, false)
      else Progress(db.(totals := db.totals[inv := ZERO]), true)
    case Call(c, p) =>
      var t := From(c, p, db, 0);
      Progress(Post(db, t.rows), t.result.Returned?)
    case Other(ok) => Progress(db, ok)
  }

  /** The session goes on after an operation: it returned, or its exception is handled. */
  predicate GoesOn(ok: bool, op: Op, catches: bool) { ok || (catches && op.Call?) }

  /** The session's own working state: operations run until an exception leaves it. */
  function Work(db: Db, s: Session): Progress
    decreases |s.ops|
  {
    if s.ops == [] then Progress(db, true)
    else
      var step := Step(db, s.ops[0]);
      if GoesOn(step.ok, s.ops[0], s.catches) then Work(step.db, s.(ops := s.ops[1..])) else Progress(step.db, false)
  }

  /** The committed state after the session: rolled back exactly if an exception leaves it. */
  function Commit(db: Db, s: Session): Db {
    var w := Work(db, s);
    if w.ok then w.db else db
  }

  // --------------------------------------------------------------- what a rollback hides

  /** The call sends no request at all: no model, a gate closed on entry, or no key for the first model. */
  predicate SendsNothing(c: Context, db: Db) {
    c.models == [] || GateClosed(c, db) || !c.hasKey(c.models[0])
  }

  /** The provider answers a request of model index i with an abort. */
  predicate AbortsAt(c: Context, p: Provider, i: nat)
    requires i < |c.models|
  {
    c.hasKey(c.models[i]) && (Aborts(p(i + 1, 0)) || (Retries(c.req, i + 1, p) && Aborts(p(i + 1, 1))))
  }

  /** No model that the fallback loop reaches answers with an abort. */
  ghost predicate NoAbort(c: Context, p: Provider, db: Db) {
    forall i: nat :: Reaches(c, p, db, i) ==> !AbortsAt(c, p, i)
  }

  /** Some model that the loop reaches validates. */
  ghost predicate Succeeds(c: Context, p: Provider, db: Db) {
    exists n: nat, retry: nat :: Reaches(c, p, db, n) && Validates(c, p, n, retry)
  }

  lemma SendsNothingMeans(c: Context, p: Provider, db: Db)
    ensures From(c, p, db, 0).requests == [] <==> SendsNothing(c, db)
  {
    if c.models != [] && !GateClosed(c, db) { RequestsStep(c, p, db, 0); }
  }

  lemma SucceedsMeans(c: Context, p: Provider, db: Db)
    ensures From(c, p, db, 0).result.Returned? <==> Succeeds(c, p, db)
  {
    var t := From(c, p, db, 0);
    if t.result.Returned? {
      var n, retry, x := t.result.attempt, t.result.retry, t.result.response;
      AttemptsStartAtOne(c, p, db, 0);
      CallReturnsFirstValidModel(c, p, db, n, retry, x);
    }
    if n: nat, retry: nat :| Reaches(c, p, db, n) && Validates(c, p, n, retry) {
      CallReturnsFirstValidModel(c, p, db, n + 1, retry, p(n + 1, retry).response);
    }
  }

  lemma {:induction false} AttemptsStartAtOne(c: Context, p: Provider, db: Db, i: nat)
    requires i <= |c.models|
    ensures var t := From(c, p, db, i); t.result.Returned? ==> t.result.attempt > i
    decreases |c.models| - i
  {
    if i < |c.models| && !GateClosed(c, db) {
      FromStep(c, p, db, i);
      if Falls(c, p, i) { AttemptsStartAtOne(c, p, Post(db, AttemptRows(c, p, i)), i + 1); }
    }
  }

  /** Model index i or a later one is reached and aborts. */
  ghost predicate AbortsFrom(c: Context, p: Provider, db: Db, i: nat) {
    exists n: nat :: Arrives(c, p, db, i, n) && AbortsAt(c, p, n)
  }

  lemma AbortsStep(c: Context, p: Provider, db: Db, i: nat)
    requires i < |c.models|
    ensures AbortsFrom(c, p, db, i)
            <==> Open(c, p, db, i) && (AbortsAt(c, p, i) || (Falls(c, p, i) && AbortsFrom(c, p, db, i + 1)))
  {
    if Open(c, p, db, i) {
      assert Arrives(c, p, db, i, i);
      if Falls(c, p, i) {
        if n: nat :| Arrives(c, p, db, i + 1, n) && AbortsAt(c, p, n) { assert Arrives(c, p, db, i, n); }
      }
    }
    if n: nat :| Arrives(c, p, db, i, n) && AbortsAt(c, p, n) {
      assert n != i ==> Arrives(c, p, db, i + 1, n);
    }
  }

  /** A turn's requests all have rows exactly if it does not abort one. */
  lemma TurnRowsIff(c: Context, p: Provider, i: nat)
    requires i < |c.models|
    ensures AttemptRequests(c, p, i) == Ids(AttemptRows(c, p, i)) <==> !AbortsAt(c, p, i)
    ensures AbortsAt(c, p, i) ==> !Falls(c, p, i) && |AttemptRequests(c, p, i)| > |Ids(AttemptRows(c, p, i))|
  {
    var first := RequestRow(c.req, i + 1, 0, c.models[i], p(i + 1, 0));
    var second := RequestRow(c.req, i + 1, 1, c.models[i], p(i + 1, 1));
    IdsOfFew(first);
    IdsOfFew(second);
    IdsConcat(first, second);
    assert first + [] == first;
  }

  lemma {:induction false} IdsLength(rows: seq<UsageRow>)
    ensures |Ids(rows)| == |rows|
  {
    if rows != [] { IdsLength(rows[1..]); }
  }

  /** All requests from model index i on have rows exactly if none of them aborts. */
  lemma {:induction false} AllRowsIff(c: Context, p: Provider, db: Db, i: nat)
    requires i <= |c.models|
    ensures RowsFor(c, p, db, i) <==> !AbortsFrom(c, p, db, i)
    decreases |c.models| - i
  {
    if i < |c.models| {
      AbortsStep(c, p, db, i);
      TurnRowsIff(c, p, i);
      if Open(c, p, db, i) && Falls(c, p, i) {
        AllRowsIff(c, p, db, i + 1);
        FallenRowsIff(c, p, db, i);
      } else {
        LastRowsIff(c, p, db, i);
      }
    }
  }

  /** Each request from model index i on has its row. */
  ghost predicate RowsFor(c: Context, p: Provider, db: Db, i: nat)
    requires i <= |c.models|
  {
    var t := From(c, p, At(c, p, db, i), i); t.requests == Ids(t.rows)
  }

  lemma LastRowsIff(c: Context, p: Provider, db: Db, i: nat)
    requires i < |c.models| && !(Open(c, p, db, i) && Falls(c, p, i))
    ensures RowsFor(c, p, db, i) <==>
      !Open(c, p, db, i) || AttemptRequests(c, p, i) == Ids(AttemptRows(c, p, i))
  {
    Turn(c, p, db, i);
  }

  lemma FallenRowsIff(c: Context, p: Provider, db: Db, i: nat)
    requires i < |c.models| && Open(c, p, db, i) && Falls(c, p, i)
    requires AttemptRequests(c, p, i) == Ids(AttemptRows(c, p, i))
    ensures RowsFor(c, p, db, i) <==> RowsFor(c, p, db, i + 1)
  {
    Turn(c, p, db, i);
    var rest := From(c, p, At(c, p, db, i + 1), i + 1);
    JoinedRows(AttemptRequests(c, p, i), AttemptRows(c, p, i), rest.requests, rest.rows);
  }

  lemma JoinedRows(requests: seq<(nat, nat)>, rows: seq<UsageRow>, more: seq<(nat, nat)>, moreRows: seq<UsageRow>)
    requires requests == Ids(rows)
    ensures requests + more == Ids(rows + moreRows) <==> more == Ids(moreRows)
  {
    IdsConcat(rows, moreRows);
    assert (requests + more)[|requests|..] == more && (requests + Ids(moreRows))[|requests|..] == Ids(moreRows);
  }

  lemma NoAbortMeans(c: Context, p: Provider, db: Db)
    ensures var t := From(c, p, db, 0); t.requests == Ids(t.rows) <==> NoAbort(c, p, db)
  {
    AllRowsIff(c, p, db, 0);
    forall n: nat ensures Arrives(c, p, db, 0, n) <==> Reaches(c, p, db, n) {
      if n < |c.models| { ArrivesAll(c, p, db, 0, n); }
    }
  }

  /** A session of one call and what follows it. */
  function CallSession(c: Context, p: Provider, ok: bool, catches: bool): Session {
    Session([Call(c, p), Other(ok)], catches)
  }

  lemma CallSessionCommits(db: Db, c: Context, p: Provider, ok: bool, catches: bool)
    ensures var t := From(c, p, db, 0);
            Commit(db, CallSession(c, p, ok, catches))
            == if ok && (catches || t.result.Returned?) then Post(db, t.rows) else db
  {
    var s := CallSession(c, p, ok, catches);
    assert s.ops[1..] == [Other(ok)] && [Other(ok)][1..] == [];
    var next := Step(db, s.ops[0]).db;
    assert Work(next, s.(ops := [Other(ok)])) == Progress(next, ok);
  }

  /** The committed ledger has grown by one row for each request of the call, in order. */
  ghost predicate AllCommitted(db: Db, db': Db, requests: seq<(nat, nat)>) {
    exists rows :: db'.ledger == db.ledger + rows && Ids(rows) == requests
  }

  lemma CommittedRows(db: Db, db': Db, more: seq<UsageRow>, requests: seq<(nat, nat)>)
    requires db'.ledger == db.ledger + more
    ensures AllCommitted(db, db', requests) <==> Ids(more) == requests
  {
    forall rows | db'.ledger == db.ledger + rows ensures rows == more {
      assert (db.ledger + rows)[|db.ledger|..] == rows && (db.ledger + more)[|db.ledger|..] == more;
    }
  }

  /** Every HTTP request of a call is in the committed ledger if and only if the call sends none, or no
      model it reaches aborts, nothing after the call raises, and either the call's exceptions are handled
      in the session (Tier-1) or some model reached validates (Tier-2). The condition reads the models,
      keys, caps, starting totals, the provider's answers and the session's own later statements only. */
  lemma RequestsAreCommittedIff(db: Db, c: Context, p: Provider, ok: bool, catches: bool)
    ensures AllCommitted(db, Commit(db, CallSession(c, p, ok, catches)), From(c, p, db, 0).requests)
            <==> SendsNothing(c, db) || (NoAbort(c, p, db) && ok && (catches || Succeeds(c, p, db)))
  {
    var t := From(c, p, db, 0);
    var db' := Commit(db, CallSession(c, p, ok, catches));
    SendsNothingMeans(c, p, db);
    SucceedsMeans(c, p, db);
    NoAbortMeans(c, p, db);
    CallSessionCommits(db, c, p, ok, catches);
    PostAppends(db, t.rows);
    if ok && (catches || t.result.Returned?) {
      CommittedRows(db, db', t.rows, t.requests);
      if t.requests == [] { NoRequestsNoRows(c, p, db); }
    } else {
      assert db'.ledger == db.ledger + [];
      CommittedRows(db, db', [], t.requests);
    }
  }

  lemma NoRequestsNoRows(c: Context, p: Provider, db: Db)
    requires From(c, p, db, 0).requests == []
    ensures From(c, p, db, 0).rows == []
  {
    EveryRequestHasARow(c, p, db, 0);
    IdsLength(From(c, p, db, 0).rows);
  }

  /** One model, a key for it and no cap: the call is its single attempt. */
  ghost predicate Single(c: Context) {
    c == Context(Request("investigation", None, false, Some(1)), Caps(None, None), c.hasKey, ["m"]) && c.hasKey("m")
  }

  lemma SingleCall(c: Context, p: Provider, db: Db)
    requires Single(c) && !Aborts(p(1, 0))
    ensures var t := From(c, p, db, 0);
            && t.requests == [(1, 0)] && t.rows == RequestRow(c.req, 1, 0, "m", p(1, 0)) && |t.rows| == 1
            && (t.result.Returned? <==> p(1, 0).Ok?)
  {
    FromStep(c, p, db, 0);
    var rows := AttemptRows(c, p, 0);
    var row := RequestRow(c.req, 1, 0, "m", p(1, 0));
    assert rows == row + [] == row;
    assert AttemptRequests(c, p, 0) == [(1, 0)] + [] == [(1, 0)];
    assert From(c, p, Post(db, rows), 1) == Trace([], [], Exhausted);
    assert row + [] == row;
  }

  /** A Tier-2 node whose only model is down: one request was sent and recorded, and the rollback takes
      its row away. The same happens to a response paid for, if a later statement of the node raises. */
  lemma RollbackHidesRows(c: Context, down: Provider, up: Provider, x: Response, db: Db)
    requires Single(c) && down(1, 0) == HttpError(503) && up(1, 0) == Ok(x)
    ensures From(c, down, db, 0).requests == [(1, 0)] && |From(c, down, db, 0).rows| == 1
    ensures Commit(db, CallSession(c, down, true, false)) == db
    ensures From(c, up, db, 0).result.Returned? && |From(c, up, db, 0).rows| == 1
    ensures Commit(db, CallSession(c, up, false, false)) == db
  {
    SingleCall(c, down, db);
    SingleCall(c, up, db);
    CallSessionCommits(db, c, down, true, false);
    CallSessionCommits(db, c, up, false, false);
  }

  /** Tier-1 handles what its call raises, and keeps the row of the model that is down; but its finalizer
      runs outside the handler, and if that raises the row of a response paid for is lost as well. */
  lemma HandlerCoversTheCallOnly(c: Context, down: Provider, up: Provider, x: Response, db: Db)
    requires Single(c) && down(1, 0) == HttpError(503) && up(1, 0) == Ok(x)
    ensures Commit(db, CallSession(c, down, true, true)).ledger == db.ledger + From(c, down, db, 0).rows
    ensures |From(c, down, db, 0).rows| == 1
    ensures Commit(db, CallSession(c, down, false, true)) == db
    ensures Commit(db, CallSession(c, up, false, true)) == db && |From(c, up, db, 0).rows| == 1
  {
    SingleCall(c, down, db);
    SingleCall(c, up, db);
    PostAppends(db, From(c, down, db, 0).rows);
    CallSessionCommits(db, c, down, true, true);
    CallSessionCommits(db, c, down, false, true);
    CallSessionCommits(db, c, up, false, true);
  }
}
