/** What one call guarantees, for every provider, model chain, key set, cap and starting table. */
module RouterLaws {
  import opened Common
  import opened Ledger
  import opened Router

  function AttemptRows(c: Context, p: Provider, i: nat): seq<UsageRow>
    requires i < |c.models|
  {
    RowsOfAttempt(c.req, c.hasKey, i + 1, c.models[i], p)
  }

  function AttemptRequests(c: Context, p: Provider, i: nat): seq<(nat, nat)>
    requires i < |c.models|
  {
    RequestsOf(c.req, c.hasKey, i + 1, c.models[i], p)
  }

  /** The tables as the gate of model index i sees them, if the loop gets that far. */
  function At(c: Context, p: Provider, db: Db, i: nat): Db
    requires i <= |c.models|
  {
    if i == 0 then db else Post(At(c, p, db, i - 1), AttemptRows(c, p, i - 1))
  }

  /** Model index i answers with a body the schema accepts, on its primary or its one retry. */
  predicate Validates(c: Context, p: Provider, i: nat, retry: nat)
    requires i < |c.models|
  {
    var first, second := p(i + 1, 0), p(i + 1, 1);
    && c.hasKey(c.models[i])
    && first.Ok?
    && if retry == 0 then Accepts(c.req, first.response)
       else retry == 1 && !Accepts(c.req, first.response) && second.Ok? && Accepts(c.req, second.response)
  }

  /** Model index i fails in a way that hands the turn to the next model. */
  predicate Falls(c: Context, p: Provider, i: nat)
    requires i < |c.models|
  {
    var first, second := p(i + 1, 0), p(i + 1, 1);
    && c.hasKey(c.models[i])
    && !Aborts(first)
    && (first.Ok? ==> !Accepts(c.req, first.response) && !Aborts(second)
                      && (second.Ok? ==> !Accepts(c.req, second.response)))
  }

  predicate Open(c: Context, p: Provider, db: Db, i: nat)
    requires i <= |c.models|
  {
    !GateClosed(c, At(c, p, db, i))
  }

  /** Every model before index n fell, and every gate up to and including n's was open. */
  ghost predicate Reaches(c: Context, p: Provider, db: Db, n: nat) {
    && n < |c.models|
    && (forall j :: 0 <= j < n ==> Falls(c, p, j))
    && (forall j :: 0 <= j <= n ==> Open(c, p, db, j))
  }

  predicate Arrives(c: Context, p: Provider, db: Db, i: nat, n: nat)
    decreases n - i
  {
    && i <= n < |c.models|
    && Open(c, p, db, i)
    && (i == n || (Falls(c, p, i) && Arrives(c, p, db, i + 1, n)))
  }

  lemma {:induction false} ArrivesAll(c: Context, p: Provider, db: Db, i: nat, n: nat)
    requires i <= n < |c.models|
    ensures Arrives(c, p, db, i, n)
            <==> (forall j :: i <= j < n ==> Falls(c, p, j)) && (forall j :: i <= j <= n ==> Open(c, p, db, j))
    decreases n - i
  {
    if i < n { ArrivesAll(c, p, db, i + 1, n); }
  }

  lemma FateMeans(c: Context, p: Provider, i: nat)
    requires i < |c.models|
    ensures FateOf(c.req, c.hasKey, i + 1, c.models[i], p).Failed? <==> Falls(c, p, i)
    ensures forall retry, x :: FateOf(c.req, c.hasKey, i + 1, c.models[i], p) == Won(retry, x)
                               <==> Validates(c, p, i, retry) && x == p(i + 1, retry).response
  {
  }

  /** One turn of the loop, in terms of the predicates above. */
  lemma Turn(c: Context, p: Provider, db: Db, i: nat)
    requires i < |c.models|
    ensures var t, rows := From(c, p, At(c, p, db, i), i), AttemptRows(c, p, i);
            && (!Open(c, p, db, i) ==> t == Trace([], [], BudgetExceeded))
            && (Open(c, p, db, i) && Falls(c, p, i) ==>
                  Continues(t, AttemptRequests(c, p, i), rows, From(c, p, At(c, p, db, i + 1), i + 1)))
            && (Open(c, p, db, i) && !Falls(c, p, i) ==>
                  t.requests == AttemptRequests(c, p, i) && t.rows == rows
                  && forall n, retry, x :: t.result == Returned(n, retry, x)
                       <==> n == i + 1 && Validates(c, p, i, retry) && x == p(n, retry).response)
  {
    FateMeans(c, p, i);
    if Open(c, p, db, i) { FromStep(c, p, At(c, p, db, i), i); }
  }

  /** The loop from model index i on returns this response. */
  ghost predicate Wins(c: Context, p: Provider, db: Db, i: nat, n: nat, retry: nat, x: Response)
    requires i <= |c.models|
  {
    From(c, p, At(c, p, db, i), i).result == Returned(n, retry, x)
  }

  /** Its model is reached from index i on and validates with it. */
  ghost predicate Best(c: Context, p: Provider, db: Db, i: nat, n: nat, retry: nat, x: Response)
    requires 0 < n
  {
    Arrives(c, p, db, i, n - 1) && Validates(c, p, n - 1, retry) && x == p(n, retry).response
  }

  lemma WinsStep(c: Context, p: Provider, db: Db, i: nat, n: nat, retry: nat, x: Response)
    requires i < |c.models|
    ensures Wins(c, p, db, i, n, retry, x) <==>
      && Open(c, p, db, i)
      && if Falls(c, p, i) then Wins(c, p, db, i + 1, n, retry, x)
         else n == i + 1 && Validates(c, p, i, retry) && x == p(n, retry).response
  {
    Turn(c, p, db, i);
  }

  /** A validating model is the current one, or is reached after the current one falls. */
  lemma BestStep(c: Context, p: Provider, db: Db, i: nat, n: nat, retry: nat, x: Response)
    requires i < |c.models| && 0 < n
    ensures Best(c, p, db, i, n, retry, x) <==>
      && Open(c, p, db, i)
      && if Falls(c, p, i) then Best(c, p, db, i + 1, n, retry, x)
         else n == i + 1 && Validates(c, p, i, retry) && x == p(n, retry).response
  {
  }

  lemma {:induction false} WinnerFrom(c: Context, p: Provider, db: Db, i: nat, n: nat, retry: nat, x: Response)
    requires i <= |c.models| && 0 < n
    ensures Wins(c, p, db, i, n, retry, x) <==> Best(c, p, db, i, n, retry, x)
    decreases |c.models| - i
  {
    if i < |c.models| {
      WinsStep(c, p, db, i, n, retry, x);
      BestStep(c, p, db, i, n, retry, x);
      if Open(c, p, db, i) && Falls(c, p, i) { WinnerFrom(c, p, db, i + 1, n, retry, x); }
    }
  }

  /** A call returns exactly the first model whose primary or retried response validates, provided
      every model before it failed retryably and the budget gate was open each time. */
  lemma CallReturnsFirstValidModel(c: Context, p: Provider, db: Db, n: nat, retry: nat, x: Response)
    requires 0 < n
    ensures From(c, p, db, 0).result == Returned(n, retry, x)
            <==> Reaches(c, p, db, n - 1) && Validates(c, p, n - 1, retry) && x == p(n, retry).response
  {
    WinnerFrom(c, p, db, 0, n, retry, x);
    if n - 1 < |c.models| { ArrivesAll(c, p, db, 0, n - 1); }
  }

  // ------------------------------------------------------- the shape of a call's rows

  function IdOf(r: UsageRow): (nat, nat) { (r.attemptNum, r.retrySeq) }

  predicate Before(a: (nat, nat), b: (nat, nat)) { a.0 < b.0 || (a.0 == b.0 && a.1 < b.1) }

  function Ids(rows: seq<UsageRow>): seq<(nat, nat)> {
    if rows == [] then [] else [IdOf(rows[0])] + Ids(rows[1..])
  }

  lemma {:induction false} IdsConcat(a: seq<UsageRow>, b: seq<UsageRow>)
    ensures Ids(a + b) == Ids(a) + Ids(b)
  {
    if a == [] {
      assert a + b == b;
    } else {
      assert (a + b)[1..] == a[1..] + b;
      IdsConcat(a[1..], b);
    }
  }

  /** All rows belong to the request and to attempts after i, in strictly increasing (attempt, retry) order. */
  ghost predicate Ordered(req: Request, rows: seq<UsageRow>, i: nat) {
    && (forall k :: 0 <= k < |rows| ==>
          rows[k].investigation == req.investigation && rows[k].role == req.role && rows[k].attemptNum > i)
    && (forall j, k :: 0 <= j < k < |rows| ==> Before(IdOf(rows[j]), IdOf(rows[k])))
  }

  ghost predicate NoSuccess(rows: seq<UsageRow>) {
    forall k :: 0 <= k < |rows| ==> !rows[k].status.Success?
  }

  /** Success at the end and nowhere else, for a returning call; nowhere at all otherwise. */
  ghost predicate SuccessIsLast(t: Trace) {
    if t.result.Returned? then
      && t.rows != []
      && NoSuccess(t.rows[..|t.rows| - 1])
      && var last := t.rows[|t.rows| - 1];
         && last.status.Success? && IdOf(last) == (t.result.attempt, t.result.retry)
         && last.inputTokens == Some(t.result.response.inputTokens)
         && last.outputTokens == Some(t.result.response.outputTokens)
         && last.cachedTokens == Some(t.result.response.cachedTokens)
    else NoSuccess(t.rows)
  }

  lemma AttemptOrdered(c: Context, p: Provider, i: nat)
    requires i < |c.models|
    ensures Ordered(c.req, AttemptRows(c, p, i), i)
    ensures forall r :: r in AttemptRows(c, p, i) ==> r.attemptNum == i + 1
  {
  }

  lemma {:induction false} RowsOrdered(c: Context, p: Provider, db: Db, i: nat)
    requires i <= |c.models|
    ensures Ordered(c.req, From(c, p, db, i).rows, i)
    decreases |c.models| - i
  {
    if i < |c.models| && !GateClosed(c, db) {
      FromStep(c, p, db, i);
      AttemptOrdered(c, p, i);
      if Falls(c, p, i) { RowsOrdered(c, p, Post(db, AttemptRows(c, p, i)), i + 1); }
    }
  }

  lemma {:induction false} SuccessRowIsLast(c: Context, p: Provider, db: Db, i: nat)
    requires i <= |c.models|
    ensures SuccessIsLast(From(c, p, db, i))
    decreases |c.models| - i
  {
    if i < |c.models| && !GateClosed(c, db) {
      FromStep(c, p, db, i);
      var rows := AttemptRows(c, p, i);
      if Falls(c, p, i) {
        SuccessRowIsLast(c, p, Post(db, rows), i + 1);
        FallenRows(c, p, i);
        SuccessStaysLast(AttemptRequests(c, p, i), rows, From(c, p, Post(db, rows), i + 1));
      } else {
        LastAttemptRows(c, p, db, i);
      }
    }
  }

  lemma FallenRows(c: Context, p: Provider, i: nat)
    requires i < |c.models| && Falls(c, p, i)
    ensures NoSuccess(AttemptRows(c, p, i))
  {
  }

  lemma LastAttemptRows(c: Context, p: Provider, db: Db, i: nat)
    requires i < |c.models| && !Falls(c, p, i) && !GateClosed(c, db)
    ensures SuccessIsLast(From(c, p, db, i))
  {
    FromStep(c, p, db, i);
  }

  lemma SuccessStaysLast(requests: seq<(nat, nat)>, rows: seq<UsageRow>, rest: Trace)
    requires NoSuccess(rows) && SuccessIsLast(rest)
    ensures SuccessIsLast(Trace(requests + rest.requests, rows + rest.rows, rest.result))
  {
    if rest.result.Returned? {
      assert (rows + rest.rows)[..|rows + rest.rows| - 1] == rows + rest.rows[..|rest.rows| - 1];
    }
  }

  /** Every column that only a response could fill is NULL. */
  predicate Unanswered(r: UsageRow) {
    r.modelUsed.None? && r.inputTokens.None? && r.outputTokens.None? && r.cachedTokens.None? && r.costMicros.None?
  }

  /** What one row must say, given what the provider answered to its request. */
  predicate TellsReply(r: UsageRow, c: Context, p: Provider) {
    && 0 < r.attemptNum <= |c.models| && r.modelRequested == c.models[r.attemptNum - 1]
    && match p(r.attemptNum, r.retrySeq)
       case Ok(x) =>
         && r.status == (if Accepts(c.req, x) then Success else ValidationFail)
         && r.inputTokens == Some(x.inputTokens) && r.outputTokens == Some(x.outputTokens)
         && r.cachedTokens == Some(x.cachedTokens)
         && r.costMicros == (if x.cost.Some? then Some(Micros(x.cost.value)) else None)
         && r.modelUsed == Some(if r.status.Success? && x.modelUsed == "" then r.modelRequested else x.modelUsed)
       case HttpError(code) =>
         && code !in {401, 403} && Unanswered(r)
         && (r.status == ServerError <==> code >= 500)
         && (r.status == RateLimited <==> code == 429)
         && (r.status == ValidationFail <==> code < 500 && code != 429)
       case Timeout => r.status == TimedOut && Unanswered(r)
       case Network => r.status == ServerError && Unanswered(r)
       case Malformed => r.status == ValidationFail && Unanswered(r)
       case Fault => false
  }

  lemma AttemptRowsTell(c: Context, p: Provider, i: nat)
    requires i < |c.models|
    ensures forall r :: r in AttemptRows(c, p, i) ==> TellsReply(r, c, p)
  {
  }

  /** Every row of a call records its own request's outcome: status, models, tokens and cost are those of
      the provider's answer to that attempt and retry; aborted requests leave none. */
  lemma {:induction false} RowsTellReplies(c: Context, p: Provider, db: Db, i: nat)
    requires i <= |c.models|
    ensures forall r :: r in From(c, p, db, i).rows ==> TellsReply(r, c, p)
    decreases |c.models| - i
  {
    if i < |c.models| && !GateClosed(c, db) {
      FromStep(c, p, db, i);
      AttemptRowsTell(c, p, i);
      if Falls(c, p, i) { RowsTellReplies(c, p, Post(db, AttemptRows(c, p, i)), i + 1); }
    }
  }

  /** An exhausted call has tried every model and left failure rows for each. */
  lemma {:induction false} ExhaustedTriedAll(c: Context, p: Provider, db: Db, i: nat, m: nat)
    requires i <= m < |c.models| && From(c, p, db, i).result.Exhausted?
    ensures exists r :: r in From(c, p, db, i).rows && r.attemptNum == m + 1 && !r.status.Success?
    decreases |c.models| - i
  {
    assert !GateClosed(c, db);
    FromStep(c, p, db, i);
    var rows := AttemptRows(c, p, i);
    var rest := From(c, p, Post(db, rows), i + 1);
    if i == m {
      assert rows[0] in From(c, p, db, i).rows;
    } else {
      ExhaustedTriedAll(c, p, Post(db, rows), i + 1, m);
      var r :| r in rest.rows && r.attemptNum == m + 1 && !r.status.Success?;
      assert r in From(c, p, db, i).rows;
    }
  }

  /** How many responses one attempt can bring. */
  function Width(c: Context): nat { if c.req.schema.Some? then 2 else 1 }

  lemma Product(n: nat, most: nat)
    ensures (n + 1) * most == n * most + most
  {
  }

  /** Each request has its row, in order; after an abort the last request has none. */
  ghost predicate RowsMatch(requests: seq<(nat, nat)>, rows: seq<UsageRow>, aborted: bool) {
    || requests == Ids(rows)
    || (aborted && requests != [] && requests[..|requests| - 1] == Ids(rows))
  }

  lemma IdsOfFew(rows: seq<UsageRow>)
    requires |rows| <= 1
    ensures Ids(rows) == if rows == [] then [] else [IdOf(rows[0])]
  {
    if rows != [] { assert rows[1..] == []; }
  }

  lemma AttemptRowsMatch(c: Context, p: Provider, i: nat)
    requires i < |c.models|
    ensures var fate := FateOf(c.req, c.hasKey, i + 1, c.models[i], p);
            RowsMatch(AttemptRequests(c, p, i), AttemptRows(c, p, i), fate.Aborted?)
    ensures |AttemptRequests(c, p, i)| <= Width(c)
  {
    var first := RequestRow(c.req, i + 1, 0, c.models[i], p(i + 1, 0));
    var second := RequestRow(c.req, i + 1, 1, c.models[i], p(i + 1, 1));
    IdsOfFew(first);
    IdsOfFew(second);
    IdsConcat(first, second);
    assert first + [] == first;
  }

  lemma RowsMatchConcat(requests: seq<(nat, nat)>, rows: seq<UsageRow>, more: seq<(nat, nat)>,
                        moreRows: seq<UsageRow>, aborted: bool)
    requires requests == Ids(rows) && RowsMatch(more, moreRows, aborted)
    ensures RowsMatch(requests + more, rows + moreRows, aborted)
  {
    IdsConcat(rows, moreRows);
    if more != [] { assert (requests + more)[..|requests + more| - 1] == requests + more[..|more| - 1]; }
  }

  /** Every request has its own row, except the one request that aborts a call. */
  lemma {:induction false} EveryRequestHasARow(c: Context, p: Provider, db: Db, i: nat)
    requires i <= |c.models|
    ensures var t := From(c, p, db, i); RowsMatch(t.requests, t.rows, t.result.Raised?)
    decreases |c.models| - i
  {
    if i < |c.models| && !GateClosed(c, db) {
      FromStep(c, p, db, i);
      AttemptRowsMatch(c, p, i);
      if Falls(c, p, i) {
        var rows := AttemptRows(c, p, i);
        EveryRequestHasARow(c, p, Post(db, rows), i + 1);
        var rest := From(c, p, Post(db, rows), i + 1);
        RowsMatchConcat(AttemptRequests(c, p, i), rows, rest.requests, rest.rows, rest.result.Raised?);
      }
    }
  }

  /** The requests of a call are the attempt's, then the rest's if the attempt fell. */
  lemma RequestsStep(c: Context, p: Provider, db: Db, i: nat)
    requires i < |c.models| && !GateClosed(c, db)
    ensures |AttemptRequests(c, p, i)| <= Width(c)
    ensures From(c, p, db, i).requests
            == AttemptRequests(c, p, i)
               + if Falls(c, p, i) then From(c, p, Post(db, AttemptRows(c, p, i)), i + 1).requests else []
  {
    FromStep(c, p, db, i);
    AttemptRowsMatch(c, p, i);
    FateMeans(c, p, i);
  }

  /** A call sends at most one request a model, two with a schema. */
  lemma {:induction false} RequestsAreBounded(c: Context, p: Provider, db: Db, i: nat)
    requires i <= |c.models|
    ensures |From(c, p, db, i).requests| <= (|c.models| - i) * Width(c)
    decreases |c.models| - i
  {
    if i < |c.models| {
      Product(|c.models| - i - 1, Width(c));
      if !GateClosed(c, db) {
        RequestsStep(c, p, db, i);
        if Falls(c, p, i) { RequestsAreBounded(c, p, Post(db, AttemptRows(c, p, i)), i + 1); }
      }
    }
  }

  /** Every request belongs to an attempt after i that was entered with its budget gate open. */
  ghost predicate BehindOpenGates(c: Context, p: Provider, db: Db, i: nat, requests: seq<(nat, nat)>) {
    forall r :: r in requests ==> i < r.0 <= |c.models| && Open(c, p, db, r.0 - 1)
  }

  /** No request is sent in an attempt entered with an active cap already met. */
  lemma {:induction false} NoRequestBehindAClosedGate(c: Context, p: Provider, db: Db, i: nat)
    requires i <= |c.models|
    ensures BehindOpenGates(c, p, db, i, From(c, p, At(c, p, db, i), i).requests)
    decreases |c.models| - i
  {
    if i < |c.models| && Open(c, p, db, i) && Falls(c, p, i) {
      NoRequestBehindAClosedGate(c, p, db, i + 1);
      FallGates(c, p, db, i);
    } else {
      LastTurnGates(c, p, db, i);
    }
  }

  lemma FallGates(c: Context, p: Provider, db: Db, i: nat)
    requires i < |c.models| && Open(c, p, db, i) && Falls(c, p, i)
    requires BehindOpenGates(c, p, db, i + 1, From(c, p, At(c, p, db, i + 1), i + 1).requests)
    ensures BehindOpenGates(c, p, db, i, From(c, p, At(c, p, db, i), i).requests)
  {
    var rest := From(c, p, At(c, p, db, i + 1), i + 1).requests;
    TurnRequests(c, p, db, i);
    AttemptBehindOpenGate(c, p, db, i);
    GatesConcat(c, p, db, i, AttemptRequests(c, p, i), rest);
  }

  lemma LastTurnGates(c: Context, p: Provider, db: Db, i: nat)
    requires i <= |c.models| && (i < |c.models| ==> !Open(c, p, db, i) || !Falls(c, p, i))
    ensures BehindOpenGates(c, p, db, i, From(c, p, At(c, p, db, i), i).requests)
  {
    if i < |c.models| && Open(c, p, db, i) {
      TurnRequests(c, p, db, i);
      AttemptBehindOpenGate(c, p, db, i);
    }
  }

  lemma TurnRequests(c: Context, p: Provider, db: Db, i: nat)
    requires i < |c.models| && Open(c, p, db, i)
    ensures From(c, p, At(c, p, db, i), i).requests
            == if Falls(c, p, i) then AttemptRequests(c, p, i) + From(c, p, At(c, p, db, i + 1), i + 1).requests
               else AttemptRequests(c, p, i)
  {
    RequestsStep(c, p, At(c, p, db, i), i);
    assert At(c, p, db, i + 1) == Post(At(c, p, db, i), AttemptRows(c, p, i));
    assert AttemptRequests(c, p, i) + [] == AttemptRequests(c, p, i);
  }

  lemma AttemptBehindOpenGate(c: Context, p: Provider, db: Db, i: nat)
    requires i < |c.models| && Open(c, p, db, i)
    ensures BehindOpenGates(c, p, db, i, AttemptRequests(c, p, i))
  {
    AttemptsAreNumbered(c, p, i);
  }

  lemma GatesConcat(c: Context, p: Provider, db: Db, i: nat, head: seq<(nat, nat)>, tail: seq<(nat, nat)>)
    requires BehindOpenGates(c, p, db, i, head) && BehindOpenGates(c, p, db, i + 1, tail)
    ensures BehindOpenGates(c, p, db, i, head + tail)
  {
  }

  lemma AttemptsAreNumbered(c: Context, p: Provider, i: nat)
    requires i < |c.models|
    ensures forall r :: r in AttemptRequests(c, p, i) ==> r.0 == i + 1
  {
  }

  // ------------------------------------------------------------------ the overshoot

  /** The two quantities a tenant can cap: tokens, and micro-dollars. */
  datatype Meter = Tokens | Cost

  function Level(t: Totals, m: Meter): int { if m.Tokens? then t.Tokens() else t.costMicros }

  function CapOf(caps: Caps, m: Meter): Option<int> { if m.Tokens? then caps.tokens else caps.usdMicros }

  /** What a response adds to the meter. */
  function Load(x: Response, m: Meter): int {
    Level(Totals(Counted(Some(x.inputTokens)), Counted(Some(x.outputTokens)), Counted(MicrosOf(x.cost))), m)
  }

  /** Every single response adds at most `most`. */
  ghost predicate Clamped(p: Provider, m: Meter, most: nat) {
    forall n, r :: p(n, r).Ok? ==> Load(p(n, r).response, m) <= most
  }

  lemma PostOneLevel(db: Db, r: UsageRow, inv: int, m: Meter, most: nat)
    requires inv in db.totals && Level(Spend(r), m) <= most
    ensures inv in PostOne(db, r).totals
    ensures Level(PostOne(db, r).totals[inv], m) <= Level(db.totals[inv], m) + most
  {
  }

  lemma {:induction false} PostLevel(db: Db, rows: seq<UsageRow>, inv: int, m: Meter, most: nat)
    requires inv in db.totals
    requires forall r :: r in rows ==> Level(Spend(r), m) <= most
    ensures inv in Post(db, rows).totals
    ensures Level(Post(db, rows).totals[inv], m) <= Level(db.totals[inv], m) + |rows| * most
  {
    if rows != [] {
      var n := |rows| - 1;
      PostLevel(db, rows[..n], inv, m, most);
      assert rows[n] in rows;
      Product(n, most);
      PostOneLevel(Post(db, rows[..n]), rows[n], inv, m, most);
    }
  }

  lemma {:induction false} PostOthers(db: Db, rows: seq<UsageRow>, inv: int)
    requires inv in db.totals && forall r :: r in rows ==> r.investigation != Some(inv)
    ensures inv in Post(db, rows).totals && Post(db, rows).totals[inv] == db.totals[inv]
  {
    if rows != [] {
      PostOthers(db, rows[..|rows| - 1], inv);
      assert rows[|rows| - 1] in rows;
    }
  }

  lemma AttemptSpends(c: Context, p: Provider, i: nat, m: Meter, most: nat)
    requires i < |c.models| && Clamped(p, m, most)
    ensures |AttemptRows(c, p, i)| <= Width(c)
    ensures forall r :: r in AttemptRows(c, p, i) ==> Level(Spend(r), m) <= most
  {
  }

  lemma AttemptLevel(c: Context, p: Provider, db: Db, i: nat, inv: int, m: Meter, most: nat)
    requires i < |c.models| && inv in db.totals && Clamped(p, m, most)
    ensures inv in Post(db, AttemptRows(c, p, i)).totals
    ensures Level(Post(db, AttemptRows(c, p, i)).totals[inv], m) <= Level(db.totals[inv], m) + Width(c) * most
  {
    AttemptSpends(c, p, i, m, most);
    PostLevel(db, AttemptRows(c, p, i), inv, m, most);
    AtMostTimes(|AttemptRows(c, p, i)|, Width(c), most);
  }

  lemma AtMostTimes(a: nat, b: nat, most: nat)
    requires a <= b
    ensures a * most <= b * most
  {
  }

  lemma AttemptLeavesOthers(c: Context, p: Provider, db: Db, i: nat, inv: int)
    requires i < |c.models| && inv in db.totals && c.req.investigation != Some(inv)
    ensures inv in Post(db, AttemptRows(c, p, i)).totals
    ensures Post(db, AttemptRows(c, p, i)).totals[inv] == db.totals[inv]
  {
    assert forall r :: r in AttemptRows(c, p, i) ==> r.investigation == c.req.investigation;
    PostOthers(db, AttemptRows(c, p, i), inv);
  }

  /** One more attempt stays within the bound: its gate was open, or it spends on another investigation. */
  lemma AttemptKeepsBound(c: Context, p: Provider, db: Db, i: nat, inv: int, m: Meter, most: nat, bound: int)
    requires i < |c.models| && inv in db.totals && Clamped(p, m, most) && !GateClosed(c, db)
    requires Active(CapOf(c.caps, m)) && bound >= CapOf(c.caps, m).value - 1 + Width(c) * most
    requires Level(db.totals[inv], m) <= bound
    ensures inv in Post(db, AttemptRows(c, p, i)).totals
    ensures Level(Post(db, AttemptRows(c, p, i)).totals[inv], m) <= bound
  {
    if c.req.investigation == Some(inv) {
      OpenIsBelowCap(c, db, inv, m);
      AttemptLevel(c, p, db, i, inv, m, most);
    } else {
      AttemptLeavesOthers(c, p, db, i, inv);
    }
  }

  lemma OpenIsBelowCap(c: Context, db: Db, inv: int, m: Meter)
    requires c.req.investigation == Some(inv) && inv in db.totals && !GateClosed(c, db) && Active(CapOf(c.caps, m))
    ensures Level(db.totals[inv], m) <= CapOf(c.caps, m).value - 1
  {
  }

  /** A call keeps an investigation's meter under any bound of at least cap - 1 plus the responses one
      attempt can add: two of them when the call has a schema. */
  lemma {:induction false} CallKeepsBound(c: Context, p: Provider, db: Db, i: nat, inv: int, m: Meter, most: nat,
                                          bound: int)
    requires i <= |c.models| && inv in db.totals && Clamped(p, m, most)
    requires Active(CapOf(c.caps, m)) && bound >= CapOf(c.caps, m).value - 1 + Width(c) * most
    requires Level(db.totals[inv], m) <= bound
    ensures inv in Post(db, From(c, p, db, i).rows).totals
    ensures Level(Post(db, From(c, p, db, i).rows).totals[inv], m) <= bound
    decreases |c.models| - i
  {
    if i < |c.models| && !GateClosed(c, db) {
      FromStep(c, p, db, i);
      AttemptKeepsBound(c, p, db, i, inv, m, most, bound);
      if Falls(c, p, i) {
        var rows := AttemptRows(c, p, i);
        CallKeepsBound(c, p, Post(db, rows), i + 1, inv, m, most, bound);
        PostConcat(db, rows, From(c, p, Post(db, rows), i + 1).rows);
      }
    }
  }

  /** One model, a schema nothing meets, one cap, and an investigation one short of it. */
  function TightCall(m: Meter, cap: int): Context {
    Context(Request("triage", Some(_ => false), false, Some(1)),
            if m.Tokens? then Caps(None, Some(cap)) else Caps(Some(cap), None), _ => true, ["m"])
  }

  function TightDb(m: Meter, cap: int): Db {
    Db([], map[1 := if m.Tokens? then Totals(cap - 1, 0, 0) else Totals(0, 0, cap - 1)])
  }

  lemma FullResponse(m: Meter, most: nat) returns (x: Response)
    ensures Load(x, m) == most
  {
    var cost := ExactCost(most);
    x := Response("", "", most, 0, 0, Some(cost));
  }

  /** The bound is met, on either meter: two rejected responses of one attempt overshoot by two
      responses, not one. */
  lemma TwoResponseOvershoot(m: Meter, cap: int, most: nat) returns (p: Provider)
    requires cap > 0
    ensures Active(CapOf(TightCall(m, cap).caps, m)) && Clamped(p, m, most)
    ensures Level(TightDb(m, cap).totals[1], m) == cap - 1
    ensures var after := Post(TightDb(m, cap), From(TightCall(m, cap), p, TightDb(m, cap), 0).rows);
            1 in after.totals && Level(after.totals[1], m) == cap - 1 + 2 * most
  {
    var x := FullResponse(m, most);
    p := (n: nat, r: nat) => Ok(x);
    TightRows(m, cap, p, x);
    var req := TightCall(m, cap).req;
    PostTwice(TightDb(m, cap), FailureRow(req, 1, 0, "m", ValidationFail, Some(x)),
              FailureRow(req, 1, 1, "m", ValidationFail, Some(x)), m, most);
  }

  lemma TightRows(m: Meter, cap: int, p: Provider, x: Response)
    requires cap > 0 && p(1, 0) == Ok(x) && p(1, 1) == Ok(x)
    ensures var c := TightCall(m, cap);
            From(c, p, TightDb(m, cap), 0).rows
            == [FailureRow(c.req, 1, 0, "m", ValidationFail, Some(x))]
               + [FailureRow(c.req, 1, 1, "m", ValidationFail, Some(x))]
  {
    var c, db := TightCall(m, cap), TightDb(m, cap);
    FromStep(c, p, db, 0);
    var rows := AttemptRows(c, p, 0);
    assert From(c, p, Post(db, rows), 1).rows == [];
    assert rows + [] == rows;
  }

  lemma PostTwice(db: Db, r0: UsageRow, r1: UsageRow, m: Meter, most: nat)
    requires r0.investigation == r1.investigation == Some(1) && 1 in db.totals
    requires Level(Spend(r0), m) == Level(Spend(r1), m) == most
    ensures 1 in Post(db, [r0] + [r1]).totals
    ensures Level(Post(db, [r0] + [r1]).totals[1], m) == Level(db.totals[1], m) + 2 * most
  {
    PostConcat(db, [r0], [r1]);
    PostOfOne(db, [r0]);
    PostOfOne(Post(db, [r0]), [r1]);
  }
}
