/** What each lifecycle event logs, and for which investigation. */
module LifecycleEvents {
  import opened Common
  import opened Lifecycle

  /** The investigation an event works on, if any. */
  function Target(s: State, e: Event): Option<nat>
    requires Enabled(s, e)
  {
    match e
    case Ingest(_) => None
    case Triage(_, i, _, _) => Some(i)
    case ClaimTier2(i, _) => Some(i)
    case GraphFails(w) => Some(s.workers[w].inv)
    case Gate(w, _) => Some(s.workers[w].inv)
    case Submit(i, _) => Some(i)
    case Resume(job, _, _) => Some(job.inv)
    case Writeback(w, _, _, _) => Some(s.workers[w].inv)
    case ClaimFinalize(w, _) => Some(s.workers[w].inv)
    case Finalize(w) => Some(s.workers[w].inv)
    case Crash(w) => Some(s.workers[w].inv)
    case CrashAtApproval(w) => Some(s.workers[w].inv)
  }

  /** The actions an event logs, all for its target. */
  function NewActions(s: State, e: Event): seq<Action>
    requires Enabled(s, e)
  {
    match e
    case Triage(_, _, AutoClose, _) => [TriageStarted, TriageAutoClose]
    case Triage(_, _, TriageFails, _) => [TriageStarted, TriageFailed]
    case Triage(_, _, Escalates, _) => [TriageStarted, TriageEscalated]
    case ClaimTier2(_, _) => [InvestigationStarted]
    case Gate(w, needsHuman) => if needsHuman then Flip(s, s.workers[w].inv) else [ApprovalReceived]
    case Submit(_, approved) => [HumanDecision(approved)]
    case Resume(job, _, needsHuman) => (if needsHuman then Flip(s, job.inv) else []) + [ApprovalReceived]
    case Finalize(w) =>
      [if s.workers[w].pc.outcome.Verdict? then InvestigationComplete else InvestigationFailed]
    case _ => []
  }

  function Flip(s: State, i: nat): seq<Action>
    requires i in s.invs && s.invs[i].incident in s.incidents
  {
    if StatusOf(s, i) == AwaitingApproval then [] else [ApprovalAwaited]
  }

  function RowsFor(i: nat, actions: seq<Action>): seq<AuditRow> {
    if actions == [] then [] else [AuditRow(i, actions[0])] + RowsFor(i, actions[1..])
  }

  lemma RowsForTwo(i: nat, a: Action, b: Action)
    ensures RowsFor(i, [a]) == [AuditRow(i, a)] && RowsFor(i, [a, b]) == [AuditRow(i, a), AuditRow(i, b)]
  {
    assert [a, b][1..] == [b] && [b][1..] == [] && [a][1..] == [];
    assert RowsFor(i, [b]) == [AuditRow(i, b)];
  }

  lemma TriageLogs(s: State, c: nat, i: nat, outcome: TriageOutcome, now: nat)
    requires Enabled(s, Triage(c, i, outcome, now))
    ensures DoTriage(s, c, i, outcome, now).audit
            == s.audit + RowsFor(i, NewActions(s, Triage(c, i, outcome, now)))
  {
    match outcome
    case AutoClose => RowsForTwo(i, TriageStarted, TriageAutoClose);
    case TriageFails => RowsForTwo(i, TriageStarted, TriageFailed);
    case Escalates => RowsForTwo(i, TriageStarted, TriageEscalated);
  }

  lemma GateLogs(s: State, w: nat, needsHuman: bool)
    requires Enabled(s, Gate(w, needsHuman))
    ensures DoGate(s, w, needsHuman).audit == s.audit + RowsFor(s.workers[w].inv, NewActions(s, Gate(w, needsHuman)))
  {
    RowsForTwo(s.workers[w].inv, if needsHuman then ApprovalAwaited else ApprovalReceived, ApprovalReceived);
  }

  lemma ResumeLogs(s: State, job: Job, w: nat, needsHuman: bool)
    requires Enabled(s, Resume(job, w, needsHuman))
    ensures DoResume(s, job, w, needsHuman).audit
            == s.audit + RowsFor(job.inv, NewActions(s, Resume(job, w, needsHuman)))
  {
    RowsForTwo(job.inv, ApprovalAwaited, ApprovalReceived);
    RowsForTwo(job.inv, ApprovalReceived, ApprovalReceived);
    assert [] + [ApprovalReceived] == [ApprovalReceived];
    assert [ApprovalAwaited] + [ApprovalReceived] == [ApprovalAwaited, ApprovalReceived];
  }

  lemma FinalizeLogs(s: State, w: nat)
    requires Enabled(s, Finalize(w))
    ensures DoFinalize(s, w).audit == s.audit + RowsFor(s.workers[w].inv, NewActions(s, Finalize(w)))
  {
    RowsForTwo(s.workers[w].inv, InvestigationComplete, InvestigationComplete);
    RowsForTwo(s.workers[w].inv, InvestigationFailed, InvestigationFailed);
  }

  /** An event appends exactly its actions to the log. */
  lemma EventLogs(s: State, e: Event)
    requires Enabled(s, e)
    ensures Apply(s, e).audit == s.audit + RowsOf(Target(s, e), NewActions(s, e))
  {
    match e
    case Triage(c, i, outcome, now) => TriageLogs(s, c, i, outcome, now);
    case ClaimTier2(i, _) => RowsForTwo(i, InvestigationStarted, InvestigationStarted);
    case Gate(w, needsHuman) => GateLogs(s, w, needsHuman);
    case Submit(i, approved) => RowsForTwo(i, HumanDecision(approved), HumanDecision(approved));
    case Resume(job, w, needsHuman) => ResumeLogs(s, job, w, needsHuman);
    case Finalize(w) => FinalizeLogs(s, w);
    case _ =>
  }

  /** How many of the actions are of a kind. */
  function Tally(actions: seq<Action>, k: Kind): nat {
    if actions == [] then 0 else (if Is(actions[0], k) then 1 else 0) + Tally(actions[1..], k)
  }

  lemma TallyOne(a: Action, k: Kind)
    ensures Tally([a], k) == if Is(a, k) then 1 else 0
  {
    assert [a][1..] == [];
  }

  lemma {:induction false} CountRows(audit: seq<AuditRow>, i: nat, actions: seq<Action>, j: nat, k: Kind)
    ensures Count(audit + RowsFor(i, actions), j, k) == Count(audit, j, k) + if j == i then Tally(actions, k) else 0
    decreases |actions|
  {
    if actions == [] {
      assert audit + [] == audit;
    } else {
      var first := audit + [AuditRow(i, actions[0])];
      assert first[..|audit|] == audit;
      CountRows(first, i, actions[1..], j, k);
      assert audit + RowsFor(i, actions) == first + RowsFor(i, actions[1..]);
    }
  }

  /** The rows an event adds to a count. */
  function Added(s: State, e: Event, j: nat, k: Kind): nat
    requires Enabled(s, e)
  {
    if Target(s, e) == Some(j) then Tally(NewActions(s, e), k) else 0
  }

  /** Every count after an event, and the log only grows. */
  lemma CountAfter(s: State, e: Event, j: nat, k: Kind)
    requires Enabled(s, e)
    ensures s.audit <= Apply(s, e).audit
    ensures Count(Apply(s, e).audit, j, k) == Count(s.audit, j, k) + Added(s, e, j, k)
  {
    EventLogs(s, e);
    CountAppended(s.audit, Target(s, e), NewActions(s, e), j, k);
  }

  function RowsOf(target: Option<nat>, actions: seq<Action>): seq<AuditRow> {
    if target.Some? then RowsFor(target.value, actions) else []
  }

  lemma CountAppended(audit: seq<AuditRow>, target: Option<nat>, actions: seq<Action>, j: nat, k: Kind)
    ensures audit <= audit + RowsOf(target, actions)
    ensures Count(audit + RowsOf(target, actions), j, k)
            == Count(audit, j, k) + if target == Some(j) then Tally(actions, k) else 0
  {
    if target.Some? {
      CountRows(audit, target.value, actions, j, k);
    } else {
      assert audit + [] == audit;
    }
  }
}
