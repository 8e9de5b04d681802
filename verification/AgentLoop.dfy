/** The agent/tools cycle of a Tier-2 run: when it ends and what it dispatches. */
module AgentLoop {
  import opened Common

  const MAX_TOOL_CALLS := 10

  /** The tool_call ids the model emits on each agent turn. */
  type Model = nat -> seq<string>

  /** tools_node skips a call only when its id is non-empty and already completed. */
  function Dispatch(calls: seq<string>, done: set<string>): seq<string> {
    if calls == [] then []
    else (if calls[0] != "" && calls[0] in done then [] else [calls[0]]) + Dispatch(calls[1..], done)
  }

  /** The ids worth remembering: a call without an id cannot be recognised later. */
  function Named(ids: seq<string>): set<string> {
    (set id | id in ids) - {""}
  }

  /** route_after_agent. */
  predicate RoutesToTools(calls: seq<string>, count: nat) {
    calls != [] && count < MAX_TOOL_CALLS
  }

  /** How many times the agent ran, and what each visit to the tools node dispatched. */
  datatype Cycle = Cycle(turns: nat, dispatched: seq<seq<string>>)

  function Loop(model: Model, turn: nat, count: nat, done: set<string>): Cycle
    decreases MAX_TOOL_CALLS - count
  {
    var calls := model(turn);
    if !RoutesToTools(calls, count + |calls|) then Cycle(1, [])
    else
      var ids := Dispatch(calls, done);
      var rest := Loop(model, turn + 1, count + |calls|, done + Named(ids));
      Cycle(1 + rest.turns, [ids] + rest.dispatched)
  }

  function Total(dispatched: seq<seq<string>>): nat {
    if dispatched == [] then 0 else |dispatched[0]| + Total(dispatched[1..])
  }

  // ------------------------------------------------------------------- the laws

  lemma {:induction false} DispatchIsFilter(calls: seq<string>, done: set<string>)
    ensures |Dispatch(calls, done)| <= |calls|
    ensures forall id :: id in Dispatch(calls, done) <==> id in calls && (id == "" || id !in done)
  {
    if calls != [] {
      DispatchIsFilter(calls[1..], done);
      assert forall id :: id in calls <==> id == calls[0] || id in calls[1..];
    }
  }

  /** Each call that is not skipped is dispatched as often as it was emitted ... */
  lemma {:induction false} DispatchKeepsCounts(calls: seq<string>, done: set<string>, id: string)
    ensures multiset(Dispatch(calls, done))[id] == if id == "" || id !in done then multiset(calls)[id] else 0
  {
    if calls != [] {
      DispatchKeepsCounts(calls[1..], done, id);
      assert calls == [calls[0]] + calls[1..];
    }
  }

  /** ... and in the order in which the model emitted them. */
  lemma {:induction false} DispatchConcat(calls: seq<string>, more: seq<string>, done: set<string>)
    ensures Dispatch(calls + more, done) == Dispatch(calls, done) + Dispatch(more, done)
  {
    if calls == [] {
      assert calls + more == more;
    } else {
      assert (calls + more)[1..] == calls[1..] + more;
      DispatchConcat(calls[1..], more, done);
    }
  }

  lemma DispatchSnoc(calls: seq<string>, i: nat, done: set<string>)
    requires i < |calls|
    ensures Dispatch(calls[..i + 1], done)
            == Dispatch(calls[..i], done) + if calls[i] != "" && calls[i] in done then [] else [calls[i]]
  {
    assert calls[..i + 1] == calls[..i] + [calls[i]];
    DispatchConcat(calls[..i], [calls[i]], done);
    assert [calls[i]][1..] == [];
  }

  /** The calls emitted by n turns from the given one on. */
  function Emitted(model: Model, turn: nat, n: nat): nat
    decreases n
  {
    if n == 0 then 0 else |model(turn)| + Emitted(model, turn + 1, n - 1)
  }

  /** The k-th turn from here asks for tools and stays within the cap. */
  predicate GoesOn(model: Model, turn: nat, count: nat, k: nat) {
    model(turn + k) != [] && count + Emitted(model, turn, k + 1) < MAX_TOOL_CALLS
  }

  /** The cycle goes on exactly as long as each turn asks for tools and all calls so far stay below the cap. */
  lemma {:induction false} LoopEndsExactly(model: Model, turn: nat, count: nat, done: set<string>)
    ensures var c := Loop(model, turn, count, done);
            && c.turns >= 1 && |c.dispatched| == c.turns - 1
            && (forall k: nat :: k < c.turns - 1 ==> GoesOn(model, turn, count, k))
            && !GoesOn(model, turn, count, c.turns - 1)
    decreases MAX_TOOL_CALLS - count
  {
    var calls := model(turn);
    assert Emitted(model, turn, 1) == |calls| + Emitted(model, turn + 1, 0);
    if RoutesToTools(calls, count + |calls|) {
      LoopEndsExactly(model, turn + 1, count + |calls|, done + Named(Dispatch(calls, done)));
      forall k: nat | k > 0
        ensures GoesOn(model, turn, count, k) <==> GoesOn(model, turn + 1, count + |calls|, k - 1)
      {
        assert Emitted(model, turn, k + 1) == |calls| + Emitted(model, turn + 1, k);
        assert turn + k == turn + 1 + (k - 1);
      }
    }
  }

  /** Emitted by one of the first n turns from here. */
  predicate EmittedBefore(model: Model, turn: nat, n: nat, id: string) {
    exists j: nat :: turn <= j < turn + n && id in model(j)
  }

  /** A visit to the tools node dispatches exactly those of its turn's calls that carry no id, and those whose
      id was neither completed before nor emitted by an earlier turn. */
  lemma {:induction false} FirstEmissionIsDispatched(model: Model, turn: nat, count: nat, done: set<string>, k: nat,
                                                     id: string)
    requires k < |Loop(model, turn, count, done).dispatched|
    ensures id in Loop(model, turn, count, done).dispatched[k]
            <==> id in model(turn + k) && (id == "" || (id !in done && !EmittedBefore(model, turn, k, id)))
    decreases k
  {
    var calls := model(turn);
    DispatchIsFilter(calls, done);
    if k > 0 {
      FirstEmissionIsDispatched(model, turn + 1, count + |calls|, done + Named(Dispatch(calls, done)), k - 1, id);
      assert turn + k == turn + 1 + (k - 1);
      EmittedEarlier(model, turn, k, id);
    }
  }

  lemma EmittedEarlier(model: Model, turn: nat, k: nat, id: string)
    requires k > 0
    ensures EmittedBefore(model, turn, k, id) <==> id in model(turn) || EmittedBefore(model, turn + 1, k - 1, id)
  {
  }

  /** At most MAX_TOOL_CALLS agent turns and MAX_TOOL_CALLS - 1 dispatched calls, whatever the model emits. */
  lemma {:induction false} LoopIsBounded(model: Model, turn: nat, count: nat, done: set<string>)
    requires count < MAX_TOOL_CALLS
    ensures var c := Loop(model, turn, count, done);
            && c.turns <= MAX_TOOL_CALLS - count
            && |c.dispatched| == c.turns - 1
            && Total(c.dispatched) <= MAX_TOOL_CALLS - 1 - count
    decreases MAX_TOOL_CALLS - count
  {
    var calls := model(turn);
    if RoutesToTools(calls, count + |calls|) {
      var ids := Dispatch(calls, done);
      DispatchIsFilter(calls, done);
      LoopIsBounded(model, turn + 1, count + |calls|, done + Named(ids));
      var rest := Loop(model, turn + 1, count + |calls|, done + Named(ids));
      assert ([ids] + rest.dispatched)[1..] == rest.dispatched;
    }
  }

  /** Both bounds are met by a model that asks for one fresh tool call each turn. */
  lemma {:induction false} BoundIsMet(model: Model, turn: nat, count: nat, done: set<string>)
    requires count < MAX_TOOL_CALLS
    requires forall k :: |model(k)| == 1
    requires forall k :: k >= turn ==> model(k)[0] !in done
    requires forall j, k :: turn <= j < k ==> model(j)[0] != model(k)[0]
    ensures var c := Loop(model, turn, count, done);
            c.turns == MAX_TOOL_CALLS - count && Total(c.dispatched) == MAX_TOOL_CALLS - 1 - count
    decreases MAX_TOOL_CALLS - count
  {
    var calls := model(turn);
    if RoutesToTools(calls, count + 1) {
      var ids := Dispatch(calls, done);
      assert model(turn)[0] !in done;
      assert Dispatch(calls[1..], done) == [];
      BoundIsMet(model, turn + 1, count + 1, done + Named(ids));
      var rest := Loop(model, turn + 1, count + 1, done + Named(ids));
      assert ([ids] + rest.dispatched)[1..] == rest.dispatched;
    }
  }

  lemma {:induction false} DoneIsNeverDispatched(model: Model, turn: nat, count: nat, done: set<string>, i: nat,
                                                 id: string)
    requires id != "" && id in done
    requires i < |Loop(model, turn, count, done).dispatched|
    ensures id !in Loop(model, turn, count, done).dispatched[i]
    decreases MAX_TOOL_CALLS - count
  {
    var calls := model(turn);
    DispatchIsFilter(calls, done);
    if i > 0 {
      DoneIsNeverDispatched(model, turn + 1, count + |calls|, done + Named(Dispatch(calls, done)), i - 1, id);
    }
  }

  /** No tool_call id is dispatched by two different visits to the tools node. */
  lemma {:induction false} NoIdIsDispatchedTwice(model: Model, turn: nat, count: nat, done: set<string>, i: nat,
                                                 j: nat, id: string)
    requires id != "" && i < j < |Loop(model, turn, count, done).dispatched|
    requires id in Loop(model, turn, count, done).dispatched[i]
    ensures id !in Loop(model, turn, count, done).dispatched[j]
    decreases MAX_TOOL_CALLS - count
  {
    var calls := model(turn);
    var next := done + Named(Dispatch(calls, done));
    if i == 0 {
      DoneIsNeverDispatched(model, turn + 1, count + |calls|, next, j - 1, id);
    } else {
      NoIdIsDispatchedTwice(model, turn + 1, count + |calls|, next, i - 1, j - 1, id);
    }
  }

  /** Replaying a finished tools node dispatches again exactly the calls that carry no id. */
  lemma ReplayDispatchesOnlyNameless(calls: seq<string>, done: set<string>, id: string)
    ensures id in Dispatch(calls, done + Named(Dispatch(calls, done))) <==> id == "" && "" in calls
  {
    DispatchIsFilter(calls, done);
    DispatchIsFilter(calls, done + Named(Dispatch(calls, done)));
  }

  // ----------------------------------------------------------------- the nodes

  /** The part of the graph state the cycle reads and writes. */
  class InvestigationState {
    var lastToolCalls: seq<string>
    var toolCallCount: nat
    var completedToolCallIds: set<string>

    constructor ()
      ensures lastToolCalls == [] && toolCallCount == 0 && completedToolCallIds == {}
    {
      lastToolCalls, toolCallCount, completedToolCallIds := [], 0, {};
    }

    method AgentNode(calls: seq<string>)
      modifies this
      ensures lastToolCalls == calls
      ensures toolCallCount == old(toolCallCount) + |calls|
      ensures completedToolCallIds == old(completedToolCallIds)
    {
      lastToolCalls := calls;
      toolCallCount := toolCallCount + |calls|;
    }

    /** The ids already done are read once, before the loop; new ones are added after it. */
    method ToolsNode() returns (dispatched: seq<string>)
      modifies this
      ensures dispatched == Dispatch(lastToolCalls, old(completedToolCallIds))
      ensures completedToolCallIds == old(completedToolCallIds) + Named(dispatched)
      ensures lastToolCalls == old(lastToolCalls) && toolCallCount == old(toolCallCount)
    {
      var done := completedToolCallIds;
      var newlyCompleted: set<string> := {};
      dispatched := [];
      for i := 0 to |lastToolCalls|
        invariant lastToolCalls == old(lastToolCalls) && toolCallCount == old(toolCallCount)
        invariant dispatched == Dispatch(lastToolCalls[..i], done)
        invariant newlyCompleted == Named(dispatched)
        invariant completedToolCallIds == done
      {
        var id := lastToolCalls[i];
        DispatchSnoc(lastToolCalls, i, done);
        if id != "" && id in done { continue; }
        dispatched := dispatched + [id];
        if id != "" { newlyCompleted := newlyCompleted + {id}; }
      }
      assert lastToolCalls[..|lastToolCalls|] == lastToolCalls;
      completedToolCallIds := completedToolCallIds + newlyCompleted;
    }
  }
}
