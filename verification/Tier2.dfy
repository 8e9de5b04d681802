/** A whole Tier-2 run: which model calls it makes, in which order, and what they cost. */
module Tier2 {
  import opened Common
  import opened Ledger
  import opened Router
  import opened RouterLaws
  import opened AgentLoop

  // ------------------------------------------------------------------ one model call

  function Chain(cfg: Option<RoleConfig>): nat {
    if cfg.None? then 0 else 1 + |cfg.value.fallbackChain|
  }

  /** One model call of a node. */
  datatype Asked = Asked(req: Request, cfg: Option<RoleConfig>, provider: Provider)

  /** What a call leaves behind, its argument checks included. */
  function TraceOf(caps: Caps, hasKey: string -> bool, db: Db, a: Asked): Trace {
    if a.req.role !in ACTIVE_ROLES || (a.req.tools && a.req.schema.Some?) || a.cfg.None? || !a.cfg.value.enabled
    then Trace([], [], BadRequest)
    else From(Context(a.req, caps, hasKey, [a.cfg.value.primaryModel] + a.cfg.value.fallbackChain), a.provider, db, 0)
  }

  /** The tables after a list of calls, how many requests they sent, and whether all of them returned. */
  datatype Replayed = Replayed(db: Db, requests: nat, ok: bool)

  /** One more call behind the others. */
  function Then(before: Replayed, t: Trace): Replayed {
    Replayed(Post(before.db, t.rows), before.requests + |t.requests|, before.ok && t.result.Returned?)
  }

  function Replay(caps: Caps, hasKey: string -> bool, db: Db, asked: seq<Asked>): Replayed {
    if asked == [] then Replayed(db, 0, true)
    else
      var before := Replay(caps, hasKey, db, asked[..|asked| - 1]);
      Then(before, TraceOf(caps, hasKey, before.db, asked[|asked| - 1]))
  }

  lemma ReplayLast(caps: Caps, hasKey: string -> bool, db: Db, asked: seq<Asked>, a: Asked) returns (t: Trace)
    ensures t == TraceOf(caps, hasKey, Replay(caps, hasKey, db, asked).db, a)
    ensures Replay(caps, hasKey, db, asked + [a]) == Then(Replay(caps, hasKey, db, asked), t)
  {
    assert (asked + [a])[..|asked|] == asked;
    t := TraceOf(caps, hasKey, Replay(caps, hasKey, db, asked).db, a);
  }

  /** Behind x come the effects y. */
  function Joined(x: Replayed, y: Replayed): Replayed { Replayed(y.db, x.requests + y.requests, x.ok && y.ok) }

  lemma JoinedThen(x: Replayed, y: Replayed, t: Trace)
    ensures Then(Joined(x, y), t) == Joined(x, Then(y, t))
  {
  }

  lemma {:induction false} ReplayConcat(caps: Caps, hasKey: string -> bool, db: Db, a: seq<Asked>, b: seq<Asked>)
    ensures var x := Replay(caps, hasKey, db, a);
            Replay(caps, hasKey, db, a + b) == Joined(x, Replay(caps, hasKey, x.db, b))
    decreases |b|
  {
    var x := Replay(caps, hasKey, db, a);
    if b == [] {
      assert a + b == a;
    } else {
      var init, last := b[..|b| - 1], b[|b| - 1];
      assert a + b == a + init + [last] && b == init + [last];
      ReplayConcat(caps, hasKey, db, a, init);
      var t := ReplayLast(caps, hasKey, db, a + init, last);
      var t' := ReplayLast(caps, hasKey, x.db, init, last);
      JoinedThen(x, Replay(caps, hasKey, x.db, init), t);
    }
  }

  /** A call that returns has sent a request. */
  lemma ReturnedHasAsked(caps: Caps, hasKey: string -> bool, db: Db, a: Asked)
    requires TraceOf(caps, hasKey, db, a).result.Returned?
    ensures |TraceOf(caps, hasKey, db, a).requests| > 0
  {
    var c := Context(a.req, caps, hasKey, [a.cfg.value.primaryModel] + a.cfg.value.fallbackChain);
    SuccessRowIsLast(c, a.provider, db, 0);
    EveryRequestHasARow(c, a.provider, db, 0);
  }

  /** Calls that all return send at least one request each. */
  lemma {:induction false} ReturnedCallsAsk(caps: Caps, hasKey: string -> bool, db: Db, asked: seq<Asked>)
    requires Replay(caps, hasKey, db, asked).ok
    ensures Replay(caps, hasKey, db, asked).requests >= |asked|
  {
    if asked != [] {
      var n := |asked| - 1;
      ReturnedCallsAsk(caps, hasKey, db, asked[..n]);
      ReturnedHasAsked(caps, hasKey, Replay(caps, hasKey, db, asked[..n]).db, asked[n]);
    }
  }

  /** The node calls were made one after the other, each but the last returning, with these effects. */
  ghost predicate Ran(caps: Caps, hasKey: string -> bool, db: Db, asked: seq<Asked>, after: Db, requests: nat,
                      ok: bool)
  {
    && Replay(caps, hasKey, db, asked) == Replayed(after, requests, ok)
    && (asked != [] ==> Replay(caps, hasKey, db, asked[..|asked| - 1]).ok)
  }

  /** More calls after calls that all returned. */
  lemma RanOn(caps: Caps, hasKey: string -> bool, db: Db, asked: seq<Asked>, mid: Db, requests: nat,
              more: seq<Asked>, after: Db, moreRequests: nat, ok: bool)
    requires Ran(caps, hasKey, db, asked, mid, requests, true)
    requires Ran(caps, hasKey, mid, more, after, moreRequests, ok)
    ensures Ran(caps, hasKey, db, asked + more, after, requests + moreRequests, ok)
  {
    ReplayConcat(caps, hasKey, db, asked, more);
    if more == [] {
      assert asked + more == asked;
    } else {
      assert (asked + more)[..|asked + more| - 1] == asked + more[..|more| - 1];
      ReplayConcat(caps, hasKey, db, asked, more[..|more| - 1]);
    }
  }

  lemma RanOne(caps: Caps, hasKey: string -> bool, db: Db, a: Asked, requests: seq<(nat, nat)>, after: Db,
               result: CallResult)
    requires var t := TraceOf(caps, hasKey, db, a);
             requests == t.requests && after == Post(db, t.rows) && result == t.result
    ensures Ran(caps, hasKey, db, [a], after, |requests|, result.Returned?)
  {
    var t := ReplayLast(caps, hasKey, db, [], a);
    assert [] + [a] == [a] && [a][..0] == [];
  }

  lemma TraceIsBounded(caps: Caps, hasKey: string -> bool, db: Db, a: Asked)
    ensures |TraceOf(caps, hasKey, db, a).requests| <= (if a.req.schema.Some? then 2 else 1) * Chain(a.cfg)
  {
    if a.cfg.Some? {
      var c := Context(a.req, caps, hasKey, [a.cfg.value.primaryModel] + a.cfg.value.fallbackChain);
      RequestsAreBounded(c, a.provider, db, 0);
    }
  }

  /** One node's model call, on a connection of its own; `sent` counts its HTTP requests. */
  method Ask(router: LLMRouter, req: Request, cfg: Option<RoleConfig>, provider: Provider)
    returns (sent: nat, returned: bool)
    requires router.db.Valid()
    modifies router.db
    ensures router.db.Valid()
    ensures sent <= (if req.schema.Some? then 2 else 1) * Chain(cfg)
    ensures Ran(router.caps, router.hasKey, old(router.db.State()), [Asked(req, cfg, provider)], router.db.State(),
                sent, returned)
  {
    var client := new Client(provider);
    ghost var before := router.db.State();
    var result := router.Call(client, req, cfg);
    RanOne(router.caps, router.hasKey, before, Asked(req, cfg, provider), client.requests, router.db.State(), result);
    TraceIsBounded(router.caps, router.hasKey, before, Asked(req, cfg, provider));
    sent, returned := |client.requests|, result.Returned?;
  }

  /** What the world answers during one run: the providers by node execution, the model's tool calls by turn. */
  datatype World = World(provider: nat -> Provider, model: Model, output: string -> bool, review: string -> bool)

  /** The agent's calls of the first n turns. */
  function AgentCalls(req: Request, cfg: Option<RoleConfig>, world: World, n: nat): (asked: seq<Asked>)
    ensures |asked| == n
  {
    if n == 0 then [] else AgentCalls(req, cfg, world, n - 1) + [Asked(req, cfg, world.provider(n))]
  }

  datatype Edge = Raises | ToTools | ToCorrelate

  /** agent_node, its conditional edge, and tools_node when the edge leads there. */
  method AgentTurn(router: LLMRouter, req: Request, cfg: Option<RoleConfig>, provider: Provider,
                   state: InvestigationState, calls: seq<string>)
    returns (sent: nat, edge: Edge, ids: seq<string>)
    requires router.db.Valid() && req.schema.None?
    modifies router.db, state
    ensures router.db.Valid() && sent <= Chain(cfg)
    ensures Ran(router.caps, router.hasKey, old(router.db.State()), [Asked(req, cfg, provider)], router.db.State(),
                sent, edge != Raises)
    ensures !edge.Raises? ==>
      && state.toolCallCount == old(state.toolCallCount) + |calls|
      && (edge.ToTools? <==> RoutesToTools(calls, state.toolCallCount))
    ensures edge.ToTools? ==>
      && ids == Dispatch(calls, old(state.completedToolCallIds))
      && state.completedToolCallIds == old(state.completedToolCallIds) + Named(ids)
  {
    ids := [];
    var ok;
    sent, ok := Ask(router, req, cfg, provider);
    if !ok { return sent, Raises, ids; }
    state.AgentNode(calls);
    if !RoutesToTools(state.lastToolCalls, state.toolCallCount) { return sent, ToCorrelate, ids; }
    ids := state.ToolsNode();
    edge := ToTools;
  }

  /** What `turns` calls over a chain can cost. */
  function Cost(chain: nat, turns: nat): nat {
    if turns == 0 then 0 else Cost(chain, turns - 1) + chain
  }

  lemma {:induction false} CostBound(chain: nat, turns: nat, most: nat)
    requires turns <= most
    ensures Cost(chain, turns) <= most * chain
  {
    if turns > 0 {
      CostBound(chain, turns - 1, most - 1);
      assert (most - 1) * chain + chain == most * chain;
    }
  }

  /** The cycle is still going: what it has done so far, extended by what is left, is the whole loop. */
  ghost predicate Going(model: Model, chain: nat, requests: nat, turns: nat, dispatched: seq<seq<string>>,
                        count: nat, done: set<string>)
  {
    var whole, rest := Loop(model, 0, 0, {}), Loop(model, turns, count, done);
    && |dispatched| == turns <= count < MAX_TOOL_CALLS && requests <= Cost(chain, turns)
    && whole.turns == turns + rest.turns && whole.dispatched == dispatched + rest.dispatched
  }

  /** The cycle has stopped, by an exception or by leaving for correlate. */
  ghost predicate Stopped(model: Model, chain: nat, requests: nat, turns: nat, dispatched: seq<seq<string>>,
                          finished: bool)
  {
    var whole := Loop(model, 0, 0, {});
    && |dispatched| + 1 == turns <= MAX_TOOL_CALLS && requests <= Cost(chain, turns)
    && dispatched <= whole.dispatched && (finished ==> whole == Cycle(turns, dispatched))
  }

  lemma GoingAtStart(model: Model, chain: nat)
    ensures Going(model, chain, 0, 0, [], 0, {})
  {
  }

  /** Where the cycle stands after a turn that took the given edge. */
  ghost predicate After(edge: Edge, model: Model, chain: nat, requests: nat, turns: nat, dispatched: seq<seq<string>>,
                        before: nat, count: nat, done: set<string>)
  {
    match edge
    case Raises => Stopped(model, chain, requests, turns, dispatched, false)
    case ToCorrelate => Stopped(model, chain, requests, turns, dispatched, true)
    case ToTools => before < count && Going(model, chain, requests, turns, dispatched, count, done)
  }

  /** The arithmetic of one turn, whichever edge it takes. */
  lemma TurnTaken(edge: Edge, model: Model, chain: nat, requests: nat, turns: nat, dispatched: seq<seq<string>>,
                  count: nat, done: set<string>, sent: nat, count': nat, done': set<string>, ids: seq<string>)
    requires Going(model, chain, requests, turns, dispatched, count, done) && sent <= chain
    requires !edge.Raises? ==>
      && count' == count + |model(turns)| && (edge.ToTools? <==> RoutesToTools(model(turns), count'))
    requires edge.ToTools? ==> ids == Dispatch(model(turns), done) && done' == done + Named(ids)
    ensures After(edge, model, chain, requests + sent, turns + 1,
                  if edge.ToTools? then dispatched + [ids] else dispatched, count, count', done')
  {
  }

  /** One turn of the cycle, in terms of the whole loop. */
  method CycleTurn(router: LLMRouter, req: Request, cfg: Option<RoleConfig>, world: World, state: InvestigationState,
                   ghost requests: nat, turns: nat, dispatched: seq<seq<string>>)
    returns (edge: Edge, sent: nat, dispatched': seq<seq<string>>)
    requires router.db.Valid() && req.schema.None?
    requires Going(world.model, Chain(cfg), requests, turns, dispatched, state.toolCallCount,
                   state.completedToolCallIds)
    modifies router.db, state
    ensures router.db.Valid()
    ensures Ran(router.caps, router.hasKey, old(router.db.State()), [Asked(req, cfg, world.provider(turns + 1))],
                router.db.State(), sent, edge != Raises)
    ensures After(edge, world.model, Chain(cfg), requests + sent, turns + 1, dispatched', old(state.toolCallCount),
                  state.toolCallCount, state.completedToolCallIds)
  {
    ghost var count, done := state.toolCallCount, state.completedToolCallIds;
    var ids;
    sent, edge, ids := AgentTurn(router, req, cfg, world.provider(turns + 1), state, world.model(turns));
    TurnTaken(edge, world.model, Chain(cfg), requests, turns, dispatched, count, done, sent, state.toolCallCount,
              state.completedToolCallIds, ids);
    dispatched' := if edge.ToTools? then dispatched + [ids] else dispatched;
  }

  /** Where the cycle stands, and the calls that led there. */
  ghost predicate Cycled(caps: Caps, hasKey: string -> bool, before: Db, calls: seq<Asked>, after: Db, edge: Edge,
                         model: Model, chain: nat, requests: nat, turns: nat, dispatched: seq<seq<string>>,
                         count: nat, done: set<string>)
  {
    && Ran(caps, hasKey, before, calls, after, requests, edge != Raises)
    && match edge
       case Raises => Stopped(model, chain, requests, turns, dispatched, false)
       case ToCorrelate => Stopped(model, chain, requests, turns, dispatched, true)
       case ToTools => Going(model, chain, requests, turns, dispatched, count, done)
  }

  /** A turn, behind those that led to it. */
  method NextTurn(router: LLMRouter, req: Request, cfg: Option<RoleConfig>, world: World, state: InvestigationState,
                  requests: nat, turns: nat, dispatched: seq<seq<string>>, ghost before: Db, ghost calls: seq<Asked>)
    returns (edge: Edge, requests': nat, dispatched': seq<seq<string>>)
    requires router.db.Valid() && req.schema.None?
    requires Cycled(router.caps, router.hasKey, before, calls, router.db.State(), ToTools, world.model, Chain(cfg),
                    requests, turns, dispatched, state.toolCallCount, state.completedToolCallIds)
    modifies router.db, state
    ensures router.db.Valid()
    ensures Cycled(router.caps, router.hasKey, before, calls + [Asked(req, cfg, world.provider(turns + 1))],
                   router.db.State(), edge, world.model, Chain(cfg), requests', turns + 1, dispatched',
                   state.toolCallCount, state.completedToolCallIds)
    ensures edge.ToTools? ==> old(state.toolCallCount) < state.toolCallCount < MAX_TOOL_CALLS
  {
    ghost var mid := router.db.State();
    var sent;
    edge, sent, dispatched' := CycleTurn(router, req, cfg, world, state, requests, turns, dispatched);
    requests' := requests + sent;
    RanOn(router.caps, router.hasKey, before, calls, mid, requests, [Asked(req, cfg, world.provider(turns + 1))],
          router.db.State(), sent, edge != Raises);
  }

  /** The agent/tools cycle; a model call that does not return raises out of it. */
  method AgentCycle(router: LLMRouter, req: Request, cfg: Option<RoleConfig>, world: World)
    returns (requests: nat, turns: nat, dispatched: seq<seq<string>>, finished: bool)
    requires router.db.Valid() && req.schema.None?
    modifies router.db
    ensures router.db.Valid()
    ensures Stopped(world.model, Chain(cfg), requests, turns, dispatched, finished)
    ensures Ran(router.caps, router.hasKey, old(router.db.State()), AgentCalls(req, cfg, world, turns),
                router.db.State(), requests, finished)
  {
    ghost var before := router.db.State();
    ghost var calls: seq<Asked> := [];
    var state := new InvestigationState();
    requests, turns, dispatched := 0, 0, [];
    GoingAtStart(world.model, Chain(cfg));
    var edge := ToTools;
    while edge == ToTools
      invariant router.db.Valid() && fresh(state)
      invariant calls == AgentCalls(req, cfg, world, turns)
      invariant Cycled(router.caps, router.hasKey, before, calls, router.db.State(), edge, world.model, Chain(cfg),
                       requests, turns, dispatched, state.toolCallCount, state.completedToolCallIds)
      decreases edge == ToTools, MAX_TOOL_CALLS - state.toolCallCount
    {
      edge, requests, dispatched := NextTurn(router, req, cfg, world, state, requests, turns, dispatched, before,
                                             calls);
      calls, turns := calls + [Asked(req, cfg, world.provider(turns + 1))], turns + 1;
    }
    finished := edge == ToCorrelate;
  }

  /** correlate, draft_verdict and review, from the given node execution on. */
  function LastCalls(plain: Request, cfg: Option<RoleConfig>, reviewCfg: Option<RoleConfig>, world: World,
                     step: nat): seq<Asked>
  {
    [Asked(plain, cfg, world.provider(step))]
    + [Asked(plain.(schema := Some(world.output)), cfg, world.provider(step + 1))]
    + [Asked(plain.(role := "review", schema := Some(world.review)), reviewCfg, world.provider(step + 2))]
  }

  /** correlate, draft_verdict, review. A model call that does not return raises out of its node and
      ends the run, except the review's. */
  method Conclude(router: LLMRouter, plain: Request, cfg: Option<RoleConfig>, reviewCfg: Option<RoleConfig>,
                  world: World, step: nat)
    returns (requests: nat, finished: bool, asked: seq<Asked>, ok: bool)
    requires router.db.Valid() && plain.schema.None?
    modifies router.db
    ensures requests <= 3 * Chain(cfg) + 2 * Chain(reviewCfg)
    ensures asked != [] && asked <= LastCalls(plain, cfg, reviewCfg, world, step)
    ensures finished <==> asked == LastCalls(plain, cfg, reviewCfg, world, step)
    ensures ok ==> finished
    ensures Ran(router.caps, router.hasKey, old(router.db.State()), asked, router.db.State(), requests, ok)
  {
    ghost var before := router.db.State();
    asked := [Asked(plain, cfg, world.provider(step))];
    requests, ok := Ask(router, plain, cfg, world.provider(step));
    if !ok { return requests, false, asked, ok; }
    var next := Asked(plain.(schema := Some(world.output)), cfg, world.provider(step + 1));
    var sent;
    ghost var mid := router.db.State();
    sent, ok := Ask(router, next.req, cfg, next.provider);
    RanOn(router.caps, router.hasKey, before, asked, mid, requests, [next], router.db.State(), sent, ok);
    requests, asked := requests + sent, asked + [next];
    if !ok { return requests, false, asked, ok; }
    next := Asked(plain.(role := "review", schema := Some(world.review)), reviewCfg, world.provider(step + 2));
    mid := router.db.State();
    sent, ok := Ask(router, next.req, reviewCfg, next.provider);
    RanOn(router.caps, router.hasKey, before, asked, mid, requests, [next], router.db.State(), sent, ok);
    return requests + sent, true, asked + [next], ok;
  }

  /** Every model call of a run whose cycle takes this many turns. */
  function Script(inv: int, cfg: Option<RoleConfig>, reviewCfg: Option<RoleConfig>, world: World,
                  turns: nat): seq<Asked>
  {
    var plain := Request("investigation", None, false, Some(inv));
    FirstCalls(plain, cfg, world, turns) + LastCalls(plain, cfg, reviewCfg, world, turns + 1)
  }

  /** plan, then the cycle. */
  method Investigate(router: LLMRouter, plain: Request, cfg: Option<RoleConfig>, world: World)
    returns (requests: nat, turns: nat, dispatched: seq<seq<string>>, asked: seq<Asked>, ok: bool)
    requires router.db.Valid() && plain.schema.None?
    modifies router.db
    ensures router.db.Valid()
    ensures requests <= (MAX_TOOL_CALLS + 1) * Chain(cfg)
    ensures var c := Loop(world.model, 0, 0, {});
            dispatched <= c.dispatched && (ok ==> c == Cycle(turns, dispatched))
    ensures var calls := FirstCalls(plain, cfg, world, turns);
            asked != [] && asked <= calls && (ok ==> asked == calls)
    ensures Ran(router.caps, router.hasKey, old(router.db.State()), asked, router.db.State(), requests, ok)
  {
    ghost var before := router.db.State();
    turns, dispatched := 0, [];
    asked := [Asked(plain, cfg, world.provider(0))];
    requests, ok := Ask(router, plain, cfg, world.provider(0));
    if !ok { return; }
    ghost var mid := router.db.State();
    var sent;
    sent, turns, dispatched, ok := AgentCycle(router, plain.(tools := true), cfg, world);
    CostBound(Chain(cfg), turns, MAX_TOOL_CALLS);
    var calls := AgentCalls(plain.(tools := true), cfg, world, turns);
    RanOn(router.caps, router.hasKey, before, asked, mid, requests, calls, router.db.State(), sent, ok);
    requests, asked := requests + sent, asked + calls;
  }

  /** plan, and the agent's turns. */
  function FirstCalls(plain: Request, cfg: Option<RoleConfig>, world: World, turns: nat): seq<Asked> {
    [Asked(plain, cfg, world.provider(0))] + AgentCalls(plain.(tools := true), cfg, world, turns)
  }

  lemma CostsAdd(chain: nat, review: nat)
    ensures (MAX_TOOL_CALLS + 1) * chain + (3 * chain + 2 * review) == (MAX_TOOL_CALLS + 4) * chain + 2 * review
  {
  }

  /** Part of the last calls behind all of the first makes part of the script, and all of it only if all. */
  lemma ScriptParts(first: seq<Asked>, last: seq<Asked>, asked: seq<Asked>, more: seq<Asked>)
    requires last != [] && asked <= first && more <= last && (more != [] ==> asked == first)
    ensures asked + more <= first + last && (asked + more == first + last <==> asked == first && more == last)
  {
    if asked + more == first + last { assert |asked| + |more| == |first| + |last|; }
  }

  lemma PartOfScript(first: seq<Asked>, last: seq<Asked>, asked: seq<Asked>)
    requires last != [] && asked <= first
    ensures asked <= first + last && asked != first + last
  {
    ScriptParts(first, last, asked, []);
    assert asked + [] == asked;
  }

  /** The last nodes, behind the calls that led to them. */
  method Finish(router: LLMRouter, plain: Request, cfg: Option<RoleConfig>, reviewCfg: Option<RoleConfig>,
                world: World, step: nat, requests: nat, asked: seq<Asked>, ghost before: Db)
    returns (requests': nat, finished: bool, asked': seq<Asked>, ok: bool)
    requires router.db.Valid() && plain.schema.None?
    requires Ran(router.caps, router.hasKey, before, asked, router.db.State(), requests, true)
    modifies router.db
    ensures requests' <= requests + 3 * Chain(cfg) + 2 * Chain(reviewCfg) && (ok ==> finished)
    ensures var script := asked + LastCalls(plain, cfg, reviewCfg, world, step);
            asked' != [] && asked' <= script && (finished <==> asked' == script)
    ensures Ran(router.caps, router.hasKey, before, asked', router.db.State(), requests', ok)
  {
    ghost var mid := router.db.State();
    var sent, more;
    sent, finished, more, ok := Conclude(router, plain, cfg, reviewCfg, world, step);
    RanOn(router.caps, router.hasKey, before, asked, mid, requests, more, router.db.State(), sent, ok);
    ScriptParts(asked, LastCalls(plain, cfg, reviewCfg, world, step), asked, more);
    requests', asked' := requests + sent, asked + more;
  }

  /** plan, (agent, tools)*, agent, correlate, draft_verdict, review. The run makes the calls of its script in
      order, each on the tables the one before left, up to the first that does not return; only the last
      one, the review, may fail and leave the run finished. */
  method Tier2Run(router: LLMRouter, inv: int, cfg: Option<RoleConfig>, reviewCfg: Option<RoleConfig>, world: World)
    returns (requests: nat, turns: nat, dispatched: seq<seq<string>>, finished: bool, asked: seq<Asked>, ok: bool)
    requires router.db.Valid()
    modifies router.db
    ensures requests <= (MAX_TOOL_CALLS + 4) * Chain(cfg) + 2 * Chain(reviewCfg)
    ensures var c := Loop(world.model, 0, 0, {});
            dispatched <= c.dispatched && (finished ==> c == Cycle(turns, dispatched))
    ensures var script := Script(inv, cfg, reviewCfg, world, turns);
            asked != [] && asked <= script && (finished <==> asked == script)
    ensures ok ==> finished
    ensures Ran(router.caps, router.hasKey, old(router.db.State()), asked, router.db.State(), requests, ok)
  {
    var plain := Request("investigation", None, false, Some(inv));
    ghost var before := router.db.State();
    finished := false;
    requests, turns, dispatched, asked, ok := Investigate(router, plain, cfg, world);
    CostsAdd(Chain(cfg), Chain(reviewCfg));
    if !ok {
      PartOfScript(FirstCalls(plain, cfg, world, turns), LastCalls(plain, cfg, reviewCfg, world, turns + 1), asked);
      return;
    }
    requests, finished, asked, ok := Finish(router, plain, cfg, reviewCfg, world, turns + 1, requests, asked, before);
  }

  /** The script place by place: the plan, one call with tools for each agent turn, correlate, the draft under
      its schema, and the review under its own role, chain and schema; each node execution has its own answers. */
  lemma ScriptByPlace(inv: int, cfg: Option<RoleConfig>, reviewCfg: Option<RoleConfig>, world: World, turns: nat,
                      k: nat)
    requires k < turns + 4
    ensures var script := Script(inv, cfg, reviewCfg, world, turns);
            && |script| == turns + 4
            && script[k] == if k < turns + 2 then
                              Asked(Request("investigation", None, 1 <= k <= turns, Some(inv)), cfg, world.provider(k))
                            else if k == turns + 2 then
                              Asked(Request("investigation", Some(world.output), false, Some(inv)), cfg,
                                    world.provider(k))
                            else
                              Asked(Request("review", Some(world.review), false, Some(inv)), reviewCfg,
                                    world.provider(k))
  {
    var plain := Request("investigation", None, false, Some(inv));
    var first, last := FirstCalls(plain, cfg, world, turns), LastCalls(plain, cfg, reviewCfg, world, turns + 1);
    if 1 <= k <= turns { AgentCallsByPlace(plain.(tools := true), cfg, world, turns); }
    assert |first| == turns + 1 && |last| == 3;
    if k <= turns {
      assert (first + last)[k] == first[k];
    } else {
      assert (first + last)[k] == last[k - turns - 1];
    }
  }

  lemma {:induction false} AgentCallsByPlace(req: Request, cfg: Option<RoleConfig>, world: World, n: nat)
    ensures forall k :: 0 <= k < n ==> AgentCalls(req, cfg, world, n)[k] == Asked(req, cfg, world.provider(k + 1))
  {
    if n > 0 { AgentCallsByPlace(req, cfg, world, n - 1); }
  }

  /** A finished run has sent at least one request for the plan, for each agent turn, for correlate and for
      the draft verdict. */
  lemma FinishedRunAsks(caps: Caps, hasKey: string -> bool, db: Db, inv: int, cfg: Option<RoleConfig>,
                        reviewCfg: Option<RoleConfig>, world: World, turns: nat, after: Db, requests: nat, ok: bool)
    requires Ran(caps, hasKey, db, Script(inv, cfg, reviewCfg, world, turns), after, requests, ok)
    ensures requests >= turns + 3
  {
    var asked := Script(inv, cfg, reviewCfg, world, turns);
    assert |asked| == turns + 4;
    ReturnedCallsAsk(caps, hasKey, db, asked[..|asked| - 1]);
  }
}
