/** One LLM call: the fallback loop over models, the schema retry, the budget gate, the ledger. */
module Router {
  import opened Common
  import opened Ledger

  /** What the provider does with one request. Fault is any exception no handler names. */
  datatype Reply =
    | Ok(response: Response)
    | HttpError(code: int)
    | Timeout
    | Network
    | Malformed
    | Fault

  /** The provider's answer to request (attempt, retry) of one call. */
  type Provider = (nat, nat) -> Reply

  datatype RoleConfig = RoleConfig(primaryModel: string, fallbackChain: seq<string>, enabled: bool)

  /** The tenant's caps: None or 0 switches a cap off. */
  datatype Caps = Caps(usdMicros: Option<int>, tokens: Option<int>)

  datatype Request = Request(role: string, schema: Option<string -> bool>, tools: bool, investigation: Option<int>)

  /** How one attempt ends: a response won (on request `retry`), the next model's turn, or an exception. */
  datatype Fate = Won(retry: nat, response: Response) | Failed(status: Status) | Aborted

  datatype CallResult =
    | Returned(attempt: nat, retry: nat, response: Response)
    | Exhausted
    | BudgetExceeded
    | Raised
    | BadRequest

  const ACTIVE_ROLES := {"triage", "investigation", "review", "summarize", "entity_extraction"}

  predicate Active(cap: Option<int>) { cap.Some? && cap.value > 0 }

  predicate Gated(caps: Caps, req: Request) {
    req.investigation.Some? && (Active(caps.usdMicros) || Active(caps.tokens))
  }

  /** _check_budget: some active cap is met by the running totals of the investigation row. */
  predicate OverCap(caps: Caps, db: Db, inv: int) {
    && inv in db.totals
    && (|| (Active(caps.usdMicros) && db.totals[inv].costMicros >= caps.usdMicros.value)
        || (Active(caps.tokens) && db.totals[inv].Tokens() >= caps.tokens.value))
  }

  function ClassifyHttpStatus(code: int): Status {
    if code >= 500 then ServerError else if code == 429 then RateLimited else ValidationFail
  }

  /** Replies that abort the whole call with no row for the request. */
  predicate Aborts(reply: Reply) {
    reply.Fault? || (reply.HttpError? && reply.code in {401, 403})
  }

  function Classify(reply: Reply): Status
    requires !reply.Ok? && !Aborts(reply)
  {
    match reply
    case HttpError(code) => ClassifyHttpStatus(code)
    case Timeout => TimedOut
    case Network => ServerError
    case Malformed => ValidationFail
  }

  predicate Accepts(req: Request, r: Response) {
    req.schema.Some? ==> req.schema.value(r.content)
  }

  // -------------------------------------------------------- ledger rows of one attempt

  function FailureRow(req: Request, n: nat, retry: nat, model: string, status: Status, r: Option<Response>): UsageRow {
    match r
    case None => UsageRow(req.investigation, req.role, n, retry, model, None, status, None, None, None, None)
    case Some(x) => UsageRow(req.investigation, req.role, n, retry, model, Some(x.modelUsed), status,
                             Some(x.inputTokens), Some(x.outputTokens), Some(x.cachedTokens), MicrosOf(x.cost))
  }

  function SuccessRow(req: Request, n: nat, retry: nat, model: string, x: Response): UsageRow {
    UsageRow(req.investigation, req.role, n, retry, model, Some(if x.modelUsed == "" then model else x.modelUsed),
             Success, Some(x.inputTokens), Some(x.outputTokens), Some(x.cachedTokens), MicrosOf(x.cost))
  }

  /** One request's own row, or none if the request aborts. */
  function RequestRow(req: Request, n: nat, retry: nat, model: string, reply: Reply): seq<UsageRow> {
    match reply
    case Ok(x) =>
      [if Accepts(req, x) then SuccessRow(req, n, retry, model, x)
       else FailureRow(req, n, retry, model, ValidationFail, Some(x))]
    case _ =>
      if Aborts(reply) then [] else [FailureRow(req, n, retry, model, Classify(reply), None)]
  }

  /** The primary's body was read and rejected by the schema: the one case with a second request. */
  predicate Retries(req: Request, n: nat, p: Provider) {
    p(n, 0).Ok? && !Accepts(req, p(n, 0).response)
  }

  /** The HTTP requests of attempt n. */
  function RequestsOf(req: Request, hasKey: string -> bool, n: nat, model: string, p: Provider): seq<(nat, nat)> {
    if !hasKey(model) then [] else [(n, 0)] + if Retries(req, n, p) then [(n, 1)] else []
  }

  /** The ledger rows of attempt n: one per request that does not abort. */
  function RowsOfAttempt(req: Request, hasKey: string -> bool, n: nat, model: string, p: Provider): seq<UsageRow> {
    if !hasKey(model) then []
    else RequestRow(req, n, 0, model, p(n, 0))
         + if Retries(req, n, p) then RequestRow(req, n, 1, model, p(n, 1)) else []
  }

  function FateOf(req: Request, hasKey: string -> bool, n: nat, model: string, p: Provider): Fate {
    if !hasKey(model) || Aborts(p(n, 0)) then Aborted
    else if !Retries(req, n, p) then
      if p(n, 0).Ok? then Won(0, p(n, 0).response) else Failed(Classify(p(n, 0)))
    else if Aborts(p(n, 1)) then Aborted
    else if p(n, 1).Ok? && Accepts(req, p(n, 1).response) then Won(1, p(n, 1).response)
    else Failed(ValidationFail)
  }

  // ------------------------------------------------------------------- one call

  /** Everything a call depends on besides the tables. */
  datatype Context = Context(req: Request, caps: Caps, hasKey: string -> bool, models: seq<string>)

  /** What one call leaves behind: its requests, its rows, its result. */
  datatype Trace = Trace(requests: seq<(nat, nat)>, rows: seq<UsageRow>, result: CallResult) {
    function Before(rs: seq<(nat, nat)>, us: seq<UsageRow>): Trace {
      Trace(rs + requests, us + rows, result)
    }
  }

  predicate GateClosed(c: Context, db: Db) {
    Gated(c.caps, c.req) && OverCap(c.caps, db, c.req.investigation.value)
  }

  /** The loop from model index i on (attempt numbers start at 1). */
  function From(c: Context, p: Provider, db: Db, i: nat): Trace
    requires i <= |c.models|
    decreases |c.models| - i
  {
    if i == |c.models| then Trace([], [], Exhausted)
    else if GateClosed(c, db) then Trace([], [], BudgetExceeded)
    else
      var n := i + 1;
      var requests := RequestsOf(c.req, c.hasKey, n, c.models[i], p);
      var rows := RowsOfAttempt(c.req, c.hasKey, n, c.models[i], p);
      match FateOf(c.req, c.hasKey, n, c.models[i], p)
      case Won(retry, response) => Trace(requests, rows, Returned(n, retry, response))
      case Aborted => Trace(requests, rows, Raised)
      case Failed(_) => From(c, p, Post(db, rows), i + 1).Before(requests, rows)
  }

  // ------------------------------------------------------------ the router itself

  /** The HTTP side: remembers which requests of the current call were sent. */
  class Client {
    const provider: Provider
    var requests: seq<(nat, nat)>

    constructor (provider: Provider)
      ensures this.provider == provider && requests == []
    {
      this.provider, requests := provider, [];
    }

    method Send(attempt: nat, retry: nat) returns (reply: Reply)
      modifies this
      ensures requests == old(requests) + [(attempt, retry)]
      ensures reply == provider(attempt, retry)
    {
      requests := requests + [(attempt, retry)];
      reply := provider(attempt, retry);
    }
  }

  /** What _validate_with_retry hands back. */
  datatype Validated = PrimaryOk | RetryOk(response: Response) | BothFailed | RetryAborted

  class LLMRouter {
    const db: UsageDb
    const caps: Caps
    const hasKey: string -> bool

    constructor (db: UsageDb, caps: Caps, hasKey: string -> bool)
      ensures this.db == db && this.caps == caps && this.hasKey == hasKey
    {
      this.db, this.caps, this.hasKey := db, caps, hasKey;
    }

    method LogFailure(req: Request, n: nat, model: string, status: Status, response: Option<Response>, retry: nat)
      requires db.Valid()
      modifies db
      ensures db.Valid()
      ensures db.State() == PostOne(old(db.State()), FailureRow(req, n, retry, model, status, response))
    {
      db.LogUsageAttempt(FailureRow(req, n, retry, model, status, response));
      if req.investigation.Some? && response.Some? {
        var r := response.value;
        db.UpdateInvestigationTotals(req.investigation.value, Some(r.inputTokens), Some(r.outputTokens), r.cost);
      } else if req.investigation.Some? && req.investigation.value in db.totals {
        ghost var inv := req.investigation.value;
        assert db.totals[inv := db.totals[inv].Plus(ZERO)] == db.totals;
      }
    }

    method LogSuccess(req: Request, n: nat, retry: nat, model: string, r: Response)
      requires db.Valid()
      modifies db
      ensures db.Valid()
      ensures db.State() == PostOne(old(db.State()), SuccessRow(req, n, retry, model, r))
    {
      db.LogUsageAttempt(SuccessRow(req, n, retry, model, r));
      if req.investigation.Some? {
        db.UpdateInvestigationTotals(req.investigation.value, Some(r.inputTokens), Some(r.outputTokens), r.cost);
      }
    }

    /** Validates the primary body and, if it fails, logs it and spends one corrective request. */
    method ValidateWithRetry(client: Client, req: Request, n: nat, model: string, response: Response)
      returns (v: Validated)
      requires db.Valid() && req.schema.Some?
      modifies db, client
      ensures db.Valid()
      ensures v.PrimaryOk? <==> Accepts(req, response)
      ensures v.PrimaryOk? ==> db.State() == old(db.State()) && client.requests == old(client.requests)
      ensures !v.PrimaryOk? ==>
        && client.requests == old(client.requests) + [(n, 1)]
        && var reply := client.provider(n, 1);
           var posted := PostOne(old(db.State()), FailureRow(req, n, 0, model, ValidationFail, Some(response)));
           && db.State() == Post(posted, RequestRow(req, n, 1, model, reply))
           && (v.RetryAborted? <==> Aborts(reply))
           && (v.RetryOk? <==> reply.Ok? && Accepts(req, reply.response))
           && (v.RetryOk? ==> v.response == reply.response)
    {
      if req.schema.value(response.content) {
        return PrimaryOk;
      }
      LogFailure(req, n, model, ValidationFail, Some(response), 0);
      ghost var posted := db.State();
      PostOfOne(posted, RequestRow(req, n, 1, model, client.provider(n, 1)));
      var reply := client.Send(n, 1);
      match reply {
        case HttpError(code) =>
          if code == 401 || code == 403 {
            return RetryAborted;
          }
          LogFailure(req, n, model, ClassifyHttpStatus(code), None, 1);
          return BothFailed;
        case Timeout =>
          LogFailure(req, n, model, TimedOut, None, 1);
          return BothFailed;
        case Network =>
          LogFailure(req, n, model, ServerError, None, 1);
          return BothFailed;
        case Malformed =>
          LogFailure(req, n, model, ValidationFail, None, 1);
          return BothFailed;
        case Fault =>
          return RetryAborted;
        case Ok(retryResponse) =>
          if !req.schema.value(retryResponse.content) {
            LogFailure(req, n, model, ValidationFail, Some(retryResponse), 1);
            return BothFailed;
          }
          LogSuccess(req, n, 1, model, retryResponse);
          return RetryOk(retryResponse);
      }
    }

    method Attempt(client: Client, req: Request, n: nat, model: string) returns (fate: Fate)
      requires db.Valid()
      modifies db, client
      ensures db.Valid()
      ensures fate == FateOf(req, hasKey, n, model, client.provider)
      ensures client.requests == old(client.requests) + RequestsOf(req, hasKey, n, model, client.provider)
      ensures db.State() == Post(old(db.State()), RowsOfAttempt(req, hasKey, n, model, client.provider))
    {
      if !hasKey(model) {
        return Aborted;
      }
      ghost var before := db.State();
      var reply := client.Send(n, 0);
      PostOfOne(before, RequestRow(req, n, 0, model, reply));
      match reply {
        case Malformed =>
          LogFailure(req, n, model, ValidationFail, None, 0);
          fate := Failed(ValidationFail);
        case HttpError(code) =>
          if code == 401 || code == 403 {
            return Aborted;
          }
          var status := ClassifyHttpStatus(code);
          LogFailure(req, n, model, status, None, 0);
          fate := Failed(status);
        case Timeout =>
          LogFailure(req, n, model, TimedOut, None, 0);
          fate := Failed(TimedOut);
        case Network =>
          LogFailure(req, n, model, ServerError, None, 0);
          fate := Failed(ServerError);
        case Fault =>
          fate := Aborted;
        case Ok(response) =>
          var validated := PrimaryOk;
          if req.schema.Some? {
            PostConcat(before, RequestRow(req, n, 0, model, reply), RequestRow(req, n, 1, model, client.provider(n,
                  1)));
            validated := ValidateWithRetry(client, req, n, model, response);
          }
          match validated
          case PrimaryOk =>
            LogSuccess(req, n, 0, model, response);
            fate := Won(0, response);
          case RetryOk(retryResponse) => fate := Won(1, retryResponse);
          case BothFailed => fate := Failed(ValidationFail);
          case RetryAborted => fate := Aborted;
      }
    }

    /** call(): the gate is read before every attempt, not once. */
    method Call(client: Client, req: Request, cfg: Option<RoleConfig>) returns (result: CallResult)
      requires db.Valid() && client.requests == []
      modifies db, client
      ensures db.Valid()
      ensures result.BadRequest? <==>
        req.role !in ACTIVE_ROLES || (req.tools && req.schema.Some?) || cfg.None? || !cfg.value.enabled
      ensures result.BadRequest? ==> db.State() == old(db.State()) && client.requests == []
      ensures !result.BadRequest? ==>
        var c := Context(req, caps, hasKey, [cfg.value.primaryModel] + cfg.value.fallbackChain);
        var t := From(c, client.provider, old(db.State()), 0);
        result == t.result && client.requests == t.requests && db.State() == Post(old(db.State()), t.rows)
    {
      if req.role !in ACTIVE_ROLES { return BadRequest; }
      if req.tools && req.schema.Some? { return BadRequest; }
      if cfg.None? || !cfg.value.enabled { return BadRequest; }
      FromNeverBad(Context(req, caps, hasKey, [cfg.value.primaryModel] + cfg.value.fallbackChain),
                   client.provider, db.State(), 0);
      result := Fallback(client, req, [cfg.value.primaryModel] + cfg.value.fallbackChain);
    }

    method Fallback(client: Client, req: Request, models: seq<string>) returns (result: CallResult)
      requires db.Valid() && client.requests == []
      modifies db, client
      ensures db.Valid()
      ensures var t := From(Context(req, caps, hasKey, models), client.provider, old(db.State()), 0);
              result == t.result && client.requests == t.requests && db.State() == Post(old(db.State()), t.rows)
    {
      var budgetCheckId: Option<int> := None;
      if req.investigation.Some? && (Active(caps.usdMicros) || Active(caps.tokens)) {
        budgetCheckId := req.investigation;
      }
      ghost var c := Context(req, caps, hasKey, models);
      ghost var before := db.State();
      ghost var whole := From(c, client.provider, before, 0);
      ghost var rows: seq<UsageRow> := [];
      for i := 0 to |models|
        invariant db.Valid()
        invariant db.State() == Post(before, rows)
        invariant Continues(whole, client.requests, rows, From(c, client.provider, db.State(), i))
      {
        if budgetCheckId.Some? {
          var over := CheckBudget(budgetCheckId.value);
          if over {
            assert client.requests + [] == client.requests && rows + [] == rows;
            return BudgetExceeded;
          }
        }
        ghost var now := db.State();
        ghost var sent := client.requests;
        var fate := Attempt(client, req, i + 1, models[i]);
        ghost var added := RowsOfAttempt(req, hasKey, i + 1, models[i], client.provider);
        PostConcat(before, rows, added);
        FromStep(c, client.provider, now, i);
        match fate {
          case Won(retry, response) => return Returned(i + 1, retry, response);
          case Aborted => return Raised;
          case Failed(_) =>
        }
        ContinuesStep(whole, sent, rows, From(c, client.provider, now, i),
                      RequestsOf(req, hasKey, i + 1, models[i], client.provider), added,
                      From(c, client.provider, db.State(), i + 1));
        rows := rows + added;
      }
      assert client.requests + [] == client.requests && rows + [] == rows;
      result := Exhausted;
    }

    method CheckBudget(inv: int) returns (over: bool)
      ensures over <==> OverCap(caps, db.State(), inv)
    {
      if !Active(caps.usdMicros) && !Active(caps.tokens) { return false; }
      if inv !in db.totals { return false; }
      var t := db.totals[inv];
      var totalTokens := t.inputTokens + t.outputTokens;
      var usdExceeded := Active(caps.usdMicros) && t.costMicros >= caps.usdMicros.value;
      var tokenExceeded := Active(caps.tokens) && totalTokens >= caps.tokens.value;
      over := usdExceeded || tokenExceeded;
    }
  }

  /** `whole` is `rest` after the given requests and rows. */
  ghost predicate Continues(whole: Trace, requests: seq<(nat, nat)>, rows: seq<UsageRow>, rest: Trace) {
    whole == rest.Before(requests, rows)
  }

  lemma ContinuesStep(whole: Trace, rs: seq<(nat, nat)>, us: seq<UsageRow>, mid: Trace,
                      rs': seq<(nat, nat)>, us': seq<UsageRow>, rest: Trace)
    requires Continues(whole, rs, us, mid) && Continues(mid, rs', us', rest)
    ensures Continues(whole, rs + rs', us + us', rest)
  {
    assert rs + (rs' + rest.requests) == rs + rs' + rest.requests;
    assert us + (us' + rest.rows) == us + us' + rest.rows;
  }

  lemma FromStep(c: Context, p: Provider, db: Db, i: nat)
    requires i < |c.models| && !GateClosed(c, db)
    ensures var n := i + 1;
            var requests := RequestsOf(c.req, c.hasKey, n, c.models[i], p);
            var rows := RowsOfAttempt(c.req, c.hasKey, n, c.models[i], p);
            match FateOf(c.req, c.hasKey, n, c.models[i], p)
            case Won(retry, response) => From(c, p, db, i) == Trace(requests, rows, Returned(n, retry, response))
            case Aborted => From(c, p, db, i) == Trace(requests, rows, Raised)
            case Failed(_) => Continues(From(c, p, db, i), requests, rows, From(c, p, Post(db, rows), i + 1))
  {
  }

  lemma {:induction false} FromNeverBad(c: Context, p: Provider, db: Db, i: nat)
    requires i <= |c.models|
    ensures !From(c, p, db, i).result.BadRequest?
    decreases |c.models| - i
  {
    if i < |c.models| && !GateClosed(c, db) {
      FromStep(c, p, db, i);
      if FateOf(c.req, c.hasKey, i + 1, c.models[i], p).Failed? {
        FromNeverBad(c, p, Post(db, RowsOfAttempt(c.req, c.hasKey, i + 1, c.models[i], p)), i + 1);
      }
    }
  }

  lemma PostOfOne(db: Db, rows: seq<UsageRow>)
    requires |rows| <= 1
    ensures Post(db, rows) == if rows == [] then db else PostOne(db, rows[0])
  {
    if |rows| == 1 { assert rows[..0] == []; }
  }
}
