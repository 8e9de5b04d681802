/** When a rejected investigation reaches a writeback tool: exactly when, over every run. */
module Writebacks {
  import opened Common
  import opened Lifecycle
  import opened LifecycleEvents
  import opened LifecycleLaws

  ghost predicate Decided(s: State, i: nat, approved: bool) { AuditRow(i, HumanDecision(approved)) in s.audit }

  /** i was put to a human, and the human said no. */
  ghost predicate TurnedDown(s: State, i: nat) {
    i in s.invs && Count(s.audit, i, Awaited) > 0 && Decided(s, i, false)
  }

  /** A resume that carries the analyst's no and finds that the policy no longer asks for a human. */
  predicate Overrides(s: State, e: Event, i: nat) {
    e.Resume? && e.job == Job(i, false) && !e.needsHuman && Enabled(s, e)
  }

  /** A writeback step of an investigation's run that gets as far as calling its tools. */
  predicate Delivers(s: State, e: Event, i: nat) {
    e.Writeback? && e.sends && Enabled(s, e) && s.workers[e.w].inv == i
  }

  predicate Resumes(s: State, e: Event, i: nat) {
    e.Resume? && e.job.inv == i && Enabled(s, e)
  }

  /** The last resume of i so far was an override. */
  predicate OverriddenIn(es: seq<Event>, i: nat) {
    es != [] && var init, last := es[..|es| - 1], es[|es| - 1];
                OverriddenAfter(Run(init), last, i, OverriddenIn(init, i))
  }

  predicate OverriddenAfter(s: State, e: Event, i: nat, over: bool) {
    if Resumes(s, e, i) then Overrides(s, e, i) else over
  }

  /** A delivery whose last resume was an override. */
  predicate DeliveredIn(es: seq<Event>, i: nat) {
    es != [] && var init, last := es[..|es| - 1], es[|es| - 1];
                DeliveredIn(init, i) || (OverriddenIn(init, i) && Delivers(Run(init), last, i))
  }

  // ------------------------------------------------------------------- the invariant

  /** What may let an automatic mode stand: no pause so far, an approval, or an override. */
  ghost predicate AutoOk(s: State, i: nat, over: bool) {
    Count(s.audit, i, Awaited) == 0 || Decided(s, i, true) || over
  }

  /** No worker of i is on its first way to the approval node. */
  ghost predicate Past(s: State, i: nat) {
    && i in s.invs && !s.invs[i].thread.Idle?
    && forall w :: w in s.workers && s.workers[w].inv == i ==> !s.workers[w].pc.InGraph?
  }

  /** Every worker of i is behind its writeback, and its thread waits for nobody. */
  ghost predicate Behind(s: State, i: nat) {
    && i in s.invs && s.invs[i].thread.Running?
    && forall w :: w in s.workers && s.workers[w].inv == i ==> s.workers[w].pc.AtClaim? || s.workers[w].pc.Claimed?
  }

  ghost predicate CallOk(s: State, t: ToolCall, delivered: bool) {
    && Behind(s, t.inv)
    && (t.mode == Auto ==> AutoOk(s, t.inv, delivered))
    && (t.mode == Approved ==> Decided(s, t.inv, true))
    && t.mode != Rejected
  }

  ghost predicate PcOk(s: State, k: Worker, over: bool) {
    && (k.pc.InGraph? ==> Count(s.audit, k.inv, Awaited) == 0)
    && (k.pc == AtWriteback(Auto) ==> AutoOk(s, k.inv, over))
    && (k.pc == AtWriteback(Approved) ==> Decided(s, k.inv, true))
    && (over && k.pc.AtWriteback? ==> k.pc.mode == Auto)
  }

  ghost predicate CallsOk(s: State, i: nat, delivered: bool) {
    forall t :: t in s.calls && t.inv == i ==> CallOk(s, t, delivered)
  }

  ghost predicate PcsOk(s: State, i: nat, over: bool) {
    forall w :: w in s.workers && s.workers[w].inv == i ==> PcOk(s, s.workers[w], over)
  }

  ghost predicate JobsOk(s: State, i: nat) {
    forall b :: Job(i, b) in s.jobs ==> Decided(s, i, b)
  }

  /** The state of one investigation, given whether it was overridden and delivered after that. */
  ghost predicate Consented(s: State, i: nat, over: bool, delivered: bool) {
    && JobsOk(s, i) && CallsOk(s, i, delivered) && PcsOk(s, i, over)
    && (i in s.invs && s.invs[i].thread.Idle? ==> Count(s.audit, i, Awaited) == 0)
    && (over ==> Past(s, i))
    && (delivered ==> ToolCall(i, Auto) in s.calls)
    && (i in s.invs && s.invs[i].writebackSucceeded ==> s.invs[i].completedAt.Some?)
  }

  // ------------------------------------------------------------------- steps

  /** The parts of a state that the invariant of i reads, unchanged or only grown. */
  ghost predicate Keeps(s: State, s': State, i: nat) {
    && KeepsLog(s, s', i) && KeepsSets(s, s', i)
    && (i in s.invs <==> i in s'.invs) && (i in s.invs ==> KeepsRow(s.invs[i], s'.invs[i]))
  }

  ghost predicate KeepsLog(s: State, s': State, i: nat) {
    && Count(s'.audit, i, Awaited) == Count(s.audit, i, Awaited)
    && (forall b :: Decided(s, i, b) ==> Decided(s', i, b))
  }

  ghost predicate KeepsSets(s: State, s': State, i: nat) {
    && s.calls <= s'.calls && (forall t :: t in s'.calls && t.inv == i ==> t in s.calls)
    && (forall b :: Job(i, b) in s'.jobs ==> Job(i, b) in s.jobs)
  }

  predicate KeepsRow(r: Investigation, r': Investigation) {
    && r'.thread == r.thread
    && (r'.writebackSucceeded ==> r.writebackSucceeded || r'.completedAt.Some?)
    && (r.completedAt.Some? ==> r'.completedAt.Some?)
  }

  /** Workers of i are old ones that stay or go on to the finalize claim. */
  ghost predicate Advances(s: State, s': State, i: nat) {
    forall w :: w in s'.workers && s'.workers[w].inv == i ==>
      && w in s.workers && s.workers[w].inv == i
      && (s'.workers[w].pc == s.workers[w].pc || s'.workers[w].pc.AtClaim? || s'.workers[w].pc.Claimed?)
  }

  lemma KeepsCalls(s: State, s': State, i: nat, delivered: bool)
    requires Keeps(s, s', i) && Advances(s, s', i) && CallsOk(s, i, delivered)
    ensures CallsOk(s', i, delivered)
  {
    forall t | t in s'.calls && t.inv == i ensures CallOk(s', t, delivered) { assert CallOk(s, t, delivered); }
  }

  lemma KeepsPcs(s: State, s': State, i: nat, over: bool)
    requires Keeps(s, s', i) && Advances(s, s', i) && PcsOk(s, i, over)
    ensures PcsOk(s', i, over)
  {
    forall w | w in s'.workers && s'.workers[w].inv == i ensures PcOk(s', s'.workers[w], over) {
      assert PcOk(s, s.workers[w], over);
    }
  }

  lemma ConsentFrame(s: State, s': State, i: nat, over: bool, delivered: bool)
    requires Keeps(s, s', i) && Advances(s, s', i) && Consented(s, i, over, delivered)
    ensures Consented(s', i, over, delivered)
  {
    KeepsCalls(s, s', i, delivered);
    KeepsPcs(s, s', i, over);
  }

  lemma DecidedGrows(s: State, s': State, i: nat)
    requires s.audit <= s'.audit
    ensures forall b :: Decided(s, i, b) ==> Decided(s', i, b)
  {
    assert s'.audit == s.audit + s'.audit[|s.audit|..];
  }

  // ------------------------------------------------------------------- each event

  /** Events on other investigations, and those that only move a worker of i on, keep the invariant. */
  predicate Quiet(s: State, e: Event, i: nat)
    requires Enabled(s, e)
  {
    Target(s, e) != Some(i) || e.GraphFails? || e.ClaimFinalize? || e.Finalize? || e.Crash?
  }

  lemma QuietLog(s: State, e: Event, i: nat)
    requires Enabled(s, e) && Quiet(s, e, i)
    ensures KeepsLog(s, Apply(s, e), i)
  {
    CountAfter(s, e, i, Awaited);
    DecidedGrows(s, Apply(s, e), i);
    TallyOne(InvestigationComplete, Awaited);
    TallyOne(InvestigationFailed, Awaited);
  }

  lemma QuietRow(s: State, e: Event, i: nat)
    requires Inv(s) && Enabled(s, e) && Quiet(s, e, i)
    ensures i in s.invs <==> i in Apply(s, e).invs
    ensures i in s.invs ==> KeepsRow(s.invs[i], Apply(s, e).invs[i])
  {
    if e.Finalize? {
      assert WorkerInv(s, e.w);
    } else if Target(s, e) == Some(i) {
      QuietTargetRow(s, e, i);
    } else {
      OnlyTargetRow(s, e, i);
    }
  }

  /** An event changes or adds the row of its target only. */
  lemma OnlyTargetRow(s: State, e: Event, i: nat)
    requires Enabled(s, e) && Target(s, e) != Some(i)
    ensures i in s.invs <==> i in Apply(s, e).invs
    ensures i in s.invs ==> Apply(s, e).invs[i] == s.invs[i]
  {
  }

  lemma QuietTargetRow(s: State, e: Event, i: nat)
    requires Enabled(s, e) && (e.GraphFails? || e.ClaimFinalize? || e.Crash?)
    ensures i in s.invs <==> i in Apply(s, e).invs
    ensures i in s.invs ==> KeepsRow(s.invs[i], Apply(s, e).invs[i])
  {
  }

  lemma QuietSets(s: State, e: Event, i: nat)
    requires Enabled(s, e) && Quiet(s, e, i)
    ensures KeepsSets(s, Apply(s, e), i)
  {
  }

  lemma QuietAdvances(s: State, e: Event, i: nat)
    requires Inv(s) && Enabled(s, e) && Quiet(s, e, i)
    ensures Advances(s, Apply(s, e), i)
  {
    if Target(s, e) == Some(i) { QuietMoves(s, e, i); } else { OnlyTargetMoves(s, e); }
  }

  /** An event changes or adds workers of its target only. */
  lemma OnlyTargetMoves(s: State, e: Event)
    requires Enabled(s, e)
    ensures var s' := Apply(s, e);
            forall w :: w in s'.workers ==>
              || (w in s.workers && s'.workers[w] == s.workers[w])
              || Target(s, e) == Some(s'.workers[w].inv)
  {
  }

  lemma QuietMoves(s: State, e: Event, i: nat)
    requires Enabled(s, e) && (e.GraphFails? || e.ClaimFinalize? || e.Finalize? || e.Crash?)
    ensures Advances(s, Apply(s, e), i)
  {
  }

  lemma QuietIsNothing(s: State, e: Event, i: nat)
    requires Enabled(s, e) && Quiet(s, e, i)
    ensures !Resumes(s, e, i) && !Delivers(s, e, i)
  {
  }

  /** The invariant after an event. */
  ghost predicate StepOk(s: State, e: Event, i: nat, over: bool, delivered: bool) {
    Consented(Apply(s, e), i, OverriddenAfter(s, e, i, over), delivered || (over && Delivers(s, e, i)))
  }

  lemma QuietStep(s: State, e: Event, i: nat, over: bool, delivered: bool)
    requires Inv(s) && Enabled(s, e) && Quiet(s, e, i) && Consented(s, i, over, delivered)
    ensures StepOk(s, e, i, over, delivered)
  {
    QuietLog(s, e, i);
    QuietRow(s, e, i);
    QuietSets(s, e, i);
    QuietAdvances(s, e, i);
    QuietIsNothing(s, e, i);
    ConsentFrame(s, Apply(s, e), i, over, delivered);
  }

  lemma NoCallsYet(s: State, i: nat, delivered: bool)
    requires CallsOk(s, i, delivered) && (i in s.invs ==> !s.invs[i].thread.Running?)
    ensures forall t :: t in s.calls ==> t.inv != i
  {
    forall t | t in s.calls ensures t.inv != i { assert t.inv == i ==> CallOk(s, t, delivered); }
  }

  lemma NoWorkersYet(s: State, i: nat)
    requires Workers(s) && (i in s.invs ==> s.invs[i].thread.Idle?)
    ensures forall w :: w in s.workers ==> s.workers[w].inv != i
  {
    if w :| w in s.workers && s.workers[w].inv == i { assert WorkerInv(s, w); }
  }

  lemma TriageStep(s: State, e: Event, i: nat, over: bool, delivered: bool)
    requires Inv(s) && Enabled(s, e) && e.Triage? && e.inv == i && Consented(s, i, over, delivered)
    ensures StepOk(s, e, i, over, delivered)
  {
    var s' := Apply(s, e);
    CountAfter(s, e, i, Awaited);
    TriageCounts(s, e.incident, i, e.outcome, e.now);
    DecidedGrows(s, s', i);
    NoCallsYet(s, i, delivered);
    NoWorkersYet(s, i);
  }

  lemma ClaimStep(s: State, e: Event, i: nat, over: bool, delivered: bool)
    requires Inv(s) && Enabled(s, e) && e.ClaimTier2? && e.inv == i && Consented(s, i, over, delivered)
    ensures StepOk(s, e, i, over, delivered)
  {
    var s' := Apply(s, e);
    CountAfter(s, e, i, Awaited);
    TallyOne(InvestigationStarted, Awaited);
    DecidedGrows(s, s', i);
    assert RowInv(s, i);
    NoCallsYet(s, i, delivered);
    NoWorkersYet(s, i);
  }

  /** Before the approval node nothing of i has been called, overridden or delivered. */
  lemma BeforeGate(s: State, w: nat, over: bool, delivered: bool)
    requires w in s.workers && s.workers[w].pc.InGraph? && Consented(s, s.workers[w].inv, over, delivered)
    ensures !over && !delivered && Count(s.audit, s.workers[w].inv, Awaited) == 0
    ensures forall t :: t in s.calls ==> t.inv != s.workers[w].inv
  {
    assert PcOk(s, s.workers[w], over);
    if t :| t in s.calls && t.inv == s.workers[w].inv { assert CallOk(s, t, delivered); }
  }

  lemma PauseStep(s: State, e: Event, i: nat, over: bool, delivered: bool)
    requires Inv(s) && Orderly(s) && Enabled(s, e) && e.Gate? && e.needsHuman && s.workers[e.w].inv == i
    requires Consented(s, i, over, delivered)
    ensures StepOk(s, e, i, over, delivered)
  {
    BeforeGate(s, e.w, over, delivered);
    EventLogs(s, e);
    DecidedGrows(s, Apply(s, e), i);
    assert Alone(s, e.w);
  }

  lemma AutoStep(s: State, e: Event, i: nat, over: bool, delivered: bool)
    requires Inv(s) && Orderly(s) && Enabled(s, e) && e.Gate? && !e.needsHuman && s.workers[e.w].inv == i
    requires Consented(s, i, over, delivered)
    ensures StepOk(s, e, i, over, delivered)
  {
    BeforeGate(s, e.w, over, delivered);
    CountAfter(s, e, i, Awaited);
    TallyOne(ApprovalReceived, Awaited);
    DecidedGrows(s, Apply(s, e), i);
    assert Alone(s, e.w);
  }

  lemma SubmitStep(s: State, e: Event, i: nat, over: bool, delivered: bool)
    requires Inv(s) && Enabled(s, e) && e.Submit? && e.inv == i && Consented(s, i, over, delivered)
    ensures StepOk(s, e, i, over, delivered)
  {
    var s' := Apply(s, e);
    CountAfter(s, e, i, Awaited);
    TallyOne(HumanDecision(e.approved), Awaited);
    DecidedGrows(s, s', i);
    assert s'.audit[|s.audit|] == AuditRow(i, HumanDecision(e.approved));
    forall t | t in s'.calls && t.inv == i ensures CallOk(s', t, delivered) { assert CallOk(s, t, delivered); }
    forall w | w in s'.workers && s'.workers[w].inv == i ensures PcOk(s', s'.workers[w], over) {
      assert PcOk(s, s.workers[w], over);
    }
  }

  /** Resuming a paused thread: nothing of i stands besides the worker that resumes it. */
  lemma ResumedAlone(s: State, e: Event, i: nat, over: bool, delivered: bool)
    requires Inv(s) && Orderly(s) && Enabled(s, e) && e.Resume? && e.job.inv == i && s.invs[i].thread.Paused?
    requires Consented(s, i, over, delivered)
    ensures !delivered && StatusOf(s, i) == AwaitingApproval && s.invs[i].completedAt.None?
    ensures forall t :: t in s.calls ==> t.inv != i
    ensures forall w :: w in s.workers ==> s.workers[w].inv != i
  {
    assert Parked(s, i);
    NoCallsYet(s, i, delivered);
  }

  lemma ResumeLog(s: State, e: Event, i: nat)
    requires Enabled(s, e) && e.Resume? && e.job.inv == i && StatusOf(s, i) == AwaitingApproval
    ensures KeepsLog(s, Apply(s, e), i)
  {
    CountAfter(s, e, i, Awaited);
    TallyOne(ApprovalReceived, Awaited);
    assert [] + [ApprovalReceived] == [ApprovalReceived];
    DecidedGrows(s, Apply(s, e), i);
  }

  lemma ResumedState(s: State, e: Event, i: nat)
    requires Enabled(s, e) && e.Resume? && e.job.inv == i
    ensures var s' := Apply(s, e);
            && s'.calls == s.calls && s'.jobs == s.jobs && i in s'.invs && s'.invs == s.invs[i := s'.invs[i]]
            && s'.invs[i] == s.invs[i].(thread := Running)
            && s'.workers == s.workers[e.w := Worker(i, AtWriteback(
                 if !e.needsHuman then Auto else if e.job.approved then Approved else Rejected), true)]
  {
  }

  lemma ResumeStep(s: State, e: Event, i: nat, over: bool, delivered: bool)
    requires Inv(s) && Orderly(s) && Enabled(s, e) && e.Resume? && e.job.inv == i && s.invs[i].thread.Paused?
    requires Consented(s, i, over, delivered)
    ensures StepOk(s, e, i, over, delivered)
  {
    ResumedAlone(s, e, i, over, delivered);
    ResumeLog(s, e, i);
    ResumedState(s, e, i);
    assert Decided(s, i, e.job.approved);
  }

  lemma CrashAtApprovalStep(s: State, e: Event, i: nat, over: bool, delivered: bool)
    requires Orderly(s) && Enabled(s, e) && e.CrashAtApproval? && s.workers[e.w].inv == i
    requires Consented(s, i, over, delivered)
    ensures StepOk(s, e, i, over, delivered)
  {
    var s' := Apply(s, e);
    assert Alone(s, e.w);
    forall t | t in s.calls ensures t.inv != i { assert t.inv == i ==> CallOk(s, t, delivered); }
  }

  lemma WritebackStep(s: State, e: Event, i: nat, over: bool, delivered: bool)
    requires Inv(s) && Orderly(s) && Enabled(s, e) && e.Writeback? && s.workers[e.w].inv == i
    requires Consented(s, i, over, delivered)
    ensures StepOk(s, e, i, over, delivered)
  {
    assert Alone(s, e.w) && PcOk(s, s.workers[e.w], over);
    WritebackCalls(s, e, i, over, delivered);
    WritebackSends(s, e, i, over);
  }

  lemma WritebackCalls(s: State, e: Event, i: nat, over: bool, delivered: bool)
    requires Enabled(s, e) && e.Writeback? && s.workers[e.w].inv == i && Alone(s, e.w)
    requires PcOk(s, s.workers[e.w], over) && CallsOk(s, i, delivered)
    ensures CallsOk(Apply(s, e), i, delivered || (over && e.sends))
  {
    var s' := Apply(s, e);
    forall t | t in s'.calls && t.inv == i ensures CallOk(s', t, delivered || (over && e.sends)) {
      if t in s.calls { assert CallOk(s, t, delivered); }
    }
  }

  /** An overridden run that delivers does call its tools, in automatic mode. */
  lemma WritebackSends(s: State, e: Event, i: nat, over: bool)
    requires Enabled(s, e) && e.Writeback? && s.workers[e.w].inv == i && Alone(s, e.w)
    requires PcOk(s, s.workers[e.w], over) && (s.invs[i].writebackSucceeded ==> s.invs[i].completedAt.Some?)
    ensures over && e.sends ==> ToolCall(i, Auto) in Apply(s, e).calls
    ensures s.calls <= Apply(s, e).calls
  {
  }

  lemma ConsentStep(s: State, e: Event, i: nat, over: bool, delivered: bool)
    requires Inv(s) && Orderly(s) && Disciplined(s, e) && Consented(s, i, over, delivered)
    ensures StepOk(s, e, i, over, delivered)
  {
    if Enabled(s, e) {
      if Quiet(s, e, i) {
        QuietStep(s, e, i, over, delivered);
      } else {
        match e
        case Triage(_, _, _, _) => TriageStep(s, e, i, over, delivered);
        case ClaimTier2(_, _) => ClaimStep(s, e, i, over, delivered);
        case Gate(_, true) => PauseStep(s, e, i, over, delivered);
        case Gate(_, false) => AutoStep(s, e, i, over, delivered);
        case Submit(_, _) => SubmitStep(s, e, i, over, delivered);
        case Resume(_, _, _) => ResumeStep(s, e, i, over, delivered);
        case Writeback(_, _, _, _) => WritebackStep(s, e, i, over, delivered);
        case CrashAtApproval(_) => CrashAtApprovalStep(s, e, i, over, delivered);
      }
    }
  }

  lemma {:induction false} RunsAreConsented(es: seq<Event>, i: nat)
    requires AllDisciplined(es)
    ensures Consented(Run(es), i, OverriddenIn(es, i), DeliveredIn(es, i))
  {
    if es != [] {
      var init := es[..|es| - 1];
      RunsAreConsented(init, i);
      RunInv(init);
      DisciplinedRunsAreOrderly(init);
      ConsentStep(Run(init), es[|es| - 1], i, OverriddenIn(init, i), DeliveredIn(init, i));
    }
  }

  // ------------------------------------------------------------------- the theorems

  lemma {:induction false} TwoDecisionsCount(audit: seq<AuditRow>, i: nat)
    requires AuditRow(i, HumanDecision(true)) in audit && AuditRow(i, HumanDecision(false)) in audit
    ensures Count(audit, i, Decision) >= 2
  {
    var n := |audit| - 1;
    assert audit == audit[..n] + [audit[n]];
    if AuditRow(i, HumanDecision(true)) in audit[..n] && AuditRow(i, HumanDecision(false)) in audit[..n] {
      TwoDecisionsCount(audit[..n], i);
    } else {
      OneDecisionCounts(audit[..n], i);
    }
  }

  lemma {:induction false} OneDecisionCounts(audit: seq<AuditRow>, i: nat)
    requires exists b :: AuditRow(i, HumanDecision(b)) in audit
    ensures Count(audit, i, Decision) >= 1
  {
    var n := |audit| - 1;
    assert audit == audit[..n] + [audit[n]];
    if !(audit[n].inv == i && audit[n].action.HumanDecision?) {
      OneDecisionCounts(audit[..n], i);
    }
  }

  /** A rejection is the only decision there is. */
  lemma NotAlsoApproved(es: seq<Event>, i: nat)
    requires TurnedDown(Run(es), i)
    ensures !Decided(Run(es), i, true)
  {
    RunInv(es);
    assert RowInv(Run(es), i);
    if Decided(Run(es), i, true) { TwoDecisionsCount(Run(es).audit, i); }
  }

  /** Step a of the run is an override of i. */
  predicate OverridesAt(es: seq<Event>, i: nat, a: nat) {
    a < |es| && Overrides(Run(es[..a]), es[a], i)
  }

  predicate DeliversAt(es: seq<Event>, i: nat, b: nat) {
    b < |es| && Delivers(Run(es[..b]), es[b], i)
  }

  predicate ResumesAt(es: seq<Event>, i: nat, c: nat) {
    c < |es| && Resumes(Run(es[..c]), es[c], i)
  }

  /** Step a overrides i, and no resume of i follows it before step b. */
  ghost predicate OverrideStands(es: seq<Event>, i: nat, a: nat, b: nat) {
    a < b && OverridesAt(es, i, a) && forall c: nat :: a < c < b ==> !ResumesAt(es, i, c)
  }

  lemma SameSteps(es: seq<Event>, i: nat, n: nat, a: nat)
    requires a < n <= |es|
    ensures OverridesAt(es[..n], i, a) == OverridesAt(es, i, a) && DeliversAt(es[..n], i, a) == DeliversAt(es, i, a)
    ensures ResumesAt(es[..n], i, a) == ResumesAt(es, i, a)
  {
    assert es[..n][..a] == es[..a] && es[..n][a] == es[a];
  }

  lemma SameStands(es: seq<Event>, i: nat, n: nat, a: nat, b: nat)
    requires b <= n <= |es|
    ensures OverrideStands(es[..n], i, a, b) == OverrideStands(es, i, a, b)
  {
    if a < b {
      SameSteps(es, i, n, a);
      forall c: nat | a < c < b ensures ResumesAt(es[..n], i, c) == ResumesAt(es, i, c) { SameSteps(es, i, n, c); }
    }
  }

  /** An override still stands one step later unless that step resumes i. */
  lemma StandsStep(es: seq<Event>, i: nat, n: nat, a: nat)
    requires n < |es| && a < n
    ensures OverrideStands(es, i, a, n + 1) <==> OverrideStands(es, i, a, n) && !ResumesAt(es, i, n)
  {
  }

  lemma {:induction false} OverriddenMeans(es: seq<Event>, i: nat)
    ensures OverriddenIn(es, i) <==> exists a: nat :: OverrideStands(es, i, a, |es|)
  {
    if es != [] {
      var n := |es| - 1;
      OverriddenMeans(es[..n], i);
      if OverriddenIn(es, i) {
        if ResumesAt(es, i, n) {
          assert OverrideStands(es, i, n, |es|);
        } else {
          var a: nat :| OverrideStands(es[..n], i, a, n);
          SameStands(es, i, n, a, n);
          StandsStep(es, i, n, a);
        }
      }
      if a: nat :| OverrideStands(es, i, a, |es|) {
        if a < n {
          StandsStep(es, i, n, a);
          SameStands(es, i, n, a, n);
        }
      }
    }
  }

  /** Step b delivers, and its last resume was an override. */
  ghost predicate DeliveredAt(es: seq<Event>, i: nat, b: nat) {
    DeliversAt(es, i, b) && exists a: nat :: OverrideStands(es, i, a, b)
  }

  lemma SameDelivered(es: seq<Event>, i: nat, n: nat, b: nat)
    requires b < n <= |es|
    ensures DeliveredAt(es[..n], i, b) == DeliveredAt(es, i, b)
  {
    SameSteps(es, i, n, b);
    forall a: nat ensures OverrideStands(es[..n], i, a, b) == OverrideStands(es, i, a, b) {
      SameStands(es, i, n, a, b);
    }
  }

  lemma LastDelivered(es: seq<Event>, i: nat)
    requires es != []
    ensures var n := |es| - 1;
            DeliveredAt(es, i, n) <==> OverriddenIn(es[..n], i) && Delivers(Run(es[..n]), es[n], i)
  {
    var n := |es| - 1;
    OverriddenMeans(es[..n], i);
    forall a: nat ensures OverrideStands(es[..n], i, a, n) == OverrideStands(es, i, a, n) {
      SameStands(es, i, n, a, n);
    }
  }

  lemma {:induction false} DeliveredMeans(es: seq<Event>, i: nat)
    ensures DeliveredIn(es, i) <==> exists b: nat :: DeliveredAt(es, i, b)
  {
    if es != [] {
      var n := |es| - 1;
      DeliveredMeans(es[..n], i);
      forall b: nat | b < n ensures DeliveredAt(es[..n], i, b) == DeliveredAt(es, i, b) { SameDelivered(es, i, n, b); }
      LastDelivered(es, i);
    }
  }

  lemma CalledIffDelivered(s: State, i: nat, over: bool, delivered: bool)
    requires Consented(s, i, over, delivered) && TurnedDown(s, i) && !Decided(s, i, true)
    ensures (exists mode :: ToolCall(i, mode) in s.calls) <==> delivered
    ensures forall mode :: ToolCall(i, mode) in s.calls ==> mode == Auto
  {
    forall mode | ToolCall(i, mode) in s.calls ensures mode == Auto && delivered {
      assert CallOk(s, ToolCall(i, mode), delivered);
    }
  }

  /** With resumes on paused threads, an investigation that was put to a human and turned down reaches a
      writeback tool if and only if some run of it delivered whose resume carried that rejection and found
      that its policy no longer asks for a human: a resumed worker may crash and be resumed again, and the
      last resume before the delivery decides. Other investigations, approvals and idle events do not matter. */
  lemma RejectedIsWrittenBackIff(es: seq<Event>, i: nat)
    requires AllDisciplined(es) && TurnedDown(Run(es), i)
    ensures (exists mode :: ToolCall(i, mode) in Run(es).calls) <==> exists b: nat :: DeliveredAt(es, i, b)
    ensures forall mode :: ToolCall(i, mode) in Run(es).calls ==> mode == Auto
  {
    RunsAreConsented(es, i);
    NotAlsoApproved(es, i);
    DeliveredMeans(es, i);
    CalledIffDelivered(Run(es), i, OverriddenIn(es, i), DeliveredIn(es, i));
  }

  /** While every resume of i still finds a human needed, a rejected i is never written back. */
  lemma RejectedIsNeverWrittenBack(es: seq<Event>, i: nat, mode: Mode)
    requires AllDisciplined(es) && TurnedDown(Run(es), i)
    requires forall k :: 0 <= k < |es| && es[k].Resume? && es[k].job.inv == i ==> es[k].needsHuman
    ensures ToolCall(i, mode) !in Run(es).calls
  {
    RejectedIsWrittenBackIff(es, i);
    forall b: nat ensures !DeliveredAt(es, i, b) { }
  }

  // ------------------------------------------------------------- without the resume discipline

  /** Every evaluation of the policy for i, at the gate or at a resume, asks for a human. */
  ghost predicate AlwaysAsked(s: State, e: Event, i: nat) {
    && (e.Gate? && Enabled(s, e) && s.workers[e.w].inv == i ==> e.needsHuman)
    && (e.Resume? && e.job.inv == i ==> e.needsHuman)
  }

  ghost predicate AlwaysAskedIn(es: seq<Event>, i: nat) {
    forall k: nat :: k < |es| ==> AlwaysAskedAt(es, i, k)
  }

  ghost predicate AlwaysAskedAt(es: seq<Event>, i: nat, k: nat)
    requires k < |es|
  {
    AlwaysAsked(Run(es[..k]), es[k], i)
  }

  /** Whoever stands at writeback for i, and whatever was called for it, has the analyst's yes or no. */
  ghost predicate Asked(s: State, i: nat) {
    && JobsOk(s, i)
    && (forall t :: t in s.calls && t.inv == i ==> Decided(s, i, true))
    && (forall w :: w in s.workers && s.workers[w].inv == i ==> AskedPc(s, s.workers[w].pc, i))
  }

  ghost predicate AskedPc(s: State, pc: Pc, i: nat) {
    pc.AtWriteback? ==> pc.mode == Rejected || (pc.mode == Approved && Decided(s, i, true))
  }

  /** Calls, jobs and writeback places of i after an event come from those before it. */
  ghost predicate AskedFrom(s: State, s': State, i: nat) {
    && (forall b :: Job(i, b) in s'.jobs ==> Decided(s', i, b))
    && (forall t :: t in s'.calls && t.inv == i ==> t in s.calls || Decided(s', i, true))
    && (forall w :: w in s'.workers && s'.workers[w].inv == i ==>
          || AskedPc(s', s'.workers[w].pc, i)
          || (w in s.workers && s.workers[w].inv == i && s'.workers[w].pc == s.workers[w].pc))
  }

  lemma AskedSets(s: State, e: Event, i: nat)
    requires Enabled(s, e) && AlwaysAsked(s, e, i) && Asked(s, i) && s.audit <= Apply(s, e).audit
    ensures AskedFrom(s, Apply(s, e), i)
  {
    DecidedGrows(s, Apply(s, e), i);
    if e.Submit? { assert Apply(s, e).audit[|s.audit|] == AuditRow(e.inv, HumanDecision(e.approved)); }
  }

  lemma AskedStep(s: State, e: Event, i: nat)
    requires AlwaysAsked(s, e, i) && Asked(s, i)
    ensures Asked(Apply(s, e), i)
  {
    if Enabled(s, e) {
      CountAfter(s, e, i, Awaited);
      DecidedGrows(s, Apply(s, e), i);
      AskedSets(s, e, i);
    }
  }

  lemma {:induction false} AskedRuns(es: seq<Event>, i: nat)
    requires AlwaysAskedIn(es, i)
    ensures Asked(Run(es), i)
  {
    if es != [] {
      var n := |es| - 1;
      forall k: nat | k < n ensures AlwaysAskedAt(es[..n], i, k) {
        assert AlwaysAskedAt(es, i, k) && es[..n][..k] == es[..k];
      }
      AskedRuns(es[..n], i);
      assert AlwaysAskedAt(es, i, n);
      AskedStep(Run(es[..n]), es[n], i);
    }
  }

  /** Even with stray resumes: while every evaluation of its policy asks for a human, an investigation
      that was turned down never reaches a writeback tool. */
  lemma AlwaysAskedIsNeverWrittenBack(es: seq<Event>, i: nat, mode: Mode)
    requires AlwaysAskedIn(es, i) && i in Run(es).invs && Decided(Run(es), i, false)
    ensures ToolCall(i, mode) !in Run(es).calls
  {
    AskedRuns(es, i);
    RunInv(es);
    assert RowInv(Run(es), i);
    if ToolCall(i, mode) in Run(es).calls { TwoDecisionsCount(Run(es).audit, i); }
  }
}
