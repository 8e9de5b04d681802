/** What the lifecycle guarantees over every run, and what it does not. */
module LifecycleLaws {
  import opened Common
  import opened Lifecycle

  lemma RunSnoc(es: seq<Event>, e: Event)
    ensures Run(es + [e]) == Apply(Run(es), e)
  {
    assert (es + [e])[..|es|] == es;
  }

  /** Any number of workers, redeliveries, resumes and crashes: one investigation per incident, and at
      most one Tier-2 start, one analyst decision and one terminal audit row per investigation; a
      terminal status has its terminal row and its completion time. */
  lemma AtMostOnce(es: seq<Event>, i: nat)
    requires i in Run(es).invs
    ensures var s := Run(es);
            && (forall j :: j in s.invs && s.invs[j].incident == s.invs[i].incident ==> j == i)
            && (forall k :: k != Awaited ==> Count(s.audit, i, k) <= 1)
            && s.invs[i].incident in s.incidents
            && (IsTerminal(StatusOf(s, i)) ==> s.invs[i].completedAt.Some? && Count(s.audit, i, Terminal) == 1)
  {
    RunInv(es);
    assert RowInv(Run(es), i);
    forall k: Kind | k != Awaited ensures Count(Run(es).audit, i, k) <= 1 {
      match k case Start => case Decision => case Terminal => case Awaited =>
    }
  }

  lemma CompletedStep(s: State, e: Event, i: nat)
    requires i in s.invs
    ensures i in Apply(s, e).invs
    ensures s.invs[i].completedAt.Some? ==> Apply(s, e).invs[i].completedAt == s.invs[i].completedAt
  {
  }

  /** completed_at is written at most once: whatever follows, a set value never changes. */
  lemma {:induction false} CompletedNeverChanges(es: seq<Event>, more: seq<Event>, i: nat)
    requires i in Run(es).invs && Run(es).invs[i].completedAt.Some?
    ensures i in Run(es + more).invs && Run(es + more).invs[i].completedAt == Run(es).invs[i].completedAt
  {
    if more == [] {
      assert es + more == es;
    } else {
      var n := |more| - 1;
      CompletedNeverChanges(es, more[..n], i);
      assert es + more == (es + more[..n]) + [more[n]];
      RunSnoc(es + more[..n], more[n]);
      CompletedStep(Run(es + more[..n]), more[n], i);
    }
  }

  // ------------------------------------------------------------------ status order

  function Rank(st: Status): nat {
    match st
    case New => 0 case Triaging => 1 case Investigating => 2 case AwaitingApproval => 3
    case Done => 4 case Inconclusive => 4
  }

  ghost predicate Forward(s: State, s': State) {
    forall c :: c in s.incidents ==>
      c in s'.incidents && (s'.incidents[c] == s.incidents[c] || Rank(s.incidents[c]) < Rank(s'.incidents[c]))
  }

  /** The approval node's unguarded UPDATE reaches an incident that is already finished. */
  predicate FlipsFinished(s: State, e: Event) {
    && Enabled(s, e)
    && match e
       case Gate(w, true) => IsTerminal(StatusOf(s, s.workers[w].inv))
       case Resume(job, _, true) => IsTerminal(StatusOf(s, job.inv))
       case _ => false
  }

  /** What a step does to incident statuses, and nothing else. */
  function NewStatuses(s: State, e: Event): map<nat, Status>
    requires Enabled(s, e) && forall w :: w in s.workers ==> s.workers[w].inv in s.invs
  {
    match e
    case Ingest(c) => s.incidents[c := New]
    case Triage(c, _, outcome, _) =>
      s.incidents[c := match outcome case AutoClose => Done case TriageFails => Inconclusive case Escalates => Triaging]
    case ClaimTier2(i, _) => s.incidents[s.invs[i].incident := Investigating]
    case Gate(w, true) => s.incidents[s.invs[s.workers[w].inv].incident := AwaitingApproval]
    case Resume(job, _, true) => s.incidents[s.invs[job.inv].incident := AwaitingApproval]
    case Finalize(w) =>
      s.incidents[s.invs[s.workers[w].inv].incident :=
                    if s.workers[w].pc.outcome.Verdict? then Done else Inconclusive]
    case _ => s.incidents
  }

  lemma FlipStatuses(s: State, i: nat)
    requires i in s.invs && s.invs[i].incident in s.incidents
    ensures FlipToAwaiting(s, i).incidents == s.incidents[s.invs[i].incident := AwaitingApproval]
  {
  }

  lemma StatusesAfter(s: State, e: Event)
    requires Inv(s) && Enabled(s, e)
    ensures forall w :: w in s.workers ==> s.workers[w].inv in s.invs
    ensures Apply(s, e).incidents == NewStatuses(s, e)
  {
    forall w | w in s.workers ensures s.workers[w].inv in s.invs { assert WorkerInv(s, w); }
    if Flips(e) { FlippedStatuses(s, e); } else { OtherStatuses(s, e); }
  }

  predicate Flips(e: Event) { (e.Gate? || e.Resume?) && e.needsHuman }

  lemma FlippedStatuses(s: State, e: Event)
    requires Enabled(s, e) && Flips(e) && forall w :: w in s.workers ==> s.workers[w].inv in s.invs
    ensures Apply(s, e).incidents == NewStatuses(s, e)
  {
    FlipStatuses(s, if e.Gate? then s.workers[e.w].inv else e.job.inv);
  }

  lemma OtherStatuses(s: State, e: Event)
    requires Enabled(s, e) && !Flips(e) && forall w :: w in s.workers ==> s.workers[w].inv in s.invs
    ensures Apply(s, e).incidents == NewStatuses(s, e)
  {
  }

  lemma ForwardUpdate(s: State, s': State, c: nat, st: Status)
    requires c in s.incidents && s'.incidents == s.incidents[c := st]
    ensures Forward(s, s') <==> s.incidents[c] == st || Rank(s.incidents[c]) < Rank(st)
  {
    assert Forward(s, s') ==> s'.incidents[c] == st;
  }

  lemma FinalizeForward(s: State, w: nat)
    requires Inv(s) && Enabled(s, Finalize(w))
    ensures Forward(s, Apply(s, Finalize(w)))
  {
    var s' := Apply(s, Finalize(w));
    StatusesAfter(s, Finalize(w));
    assert WorkerInv(s, w) && RowInv(s, s.workers[w].inv);
    var c := s.invs[s.workers[w].inv].incident;
    ForwardUpdate(s, s', c, s'.incidents[c]);
  }

  lemma FlipForward(s: State, e: Event, i: nat)
    requires Inv(s) && Enabled(s, e) && i in s.invs
    requires (e.Gate? && e.needsHuman && i == s.workers[e.w].inv) || (e.Resume? && e.needsHuman && i == e.job.inv)
    ensures s.invs[i].incident in s.incidents
    ensures Forward(s, Apply(s, e)) <==> !IsTerminal(StatusOf(s, i))
  {
    StatusesAfter(s, e);
    assert RowInv(s, i);
    ForwardUpdate(s, Apply(s, e), s.invs[i].incident, AwaitingApproval);
  }

  lemma ClaimsForward(s: State, e: Event)
    requires Inv(s) && Enabled(s, e) && (e.ClaimTier2? || e.Triage?)
    ensures Forward(s, Apply(s, e))
  {
    StatusesAfter(s, e);
    var s' := Apply(s, e);
    var c := if e.Triage? then e.incident else s.invs[e.inv].incident;
    ForwardUpdate(s, s', c, s'.incidents[c]);
  }

  /** A status moves forward on every step of every run except exactly where the approval node
      flips a finished incident. */
  lemma StepMovesForwardIff(es: seq<Event>, e: Event)
    ensures Forward(Run(es), Apply(Run(es), e)) <==> !FlipsFinished(Run(es), e)
  {
    RunInv(es);
    var s := Run(es);
    if Enabled(s, e) {
      if Flips(e) {
        FlipForward(s, e, if e.Gate? then s.workers[e.w].inv else e.job.inv);
      } else {
        OtherForward(s, e);
      }
    }
  }

  lemma OtherForward(s: State, e: Event)
    requires Inv(s) && Enabled(s, e) && !Flips(e)
    ensures Forward(s, Apply(s, e))
  {
    match e
    case Triage(_, _, _, _) => ClaimsForward(s, e);
    case ClaimTier2(_, _) => ClaimsForward(s, e);
    case Finalize(w) => FinalizeForward(s, w);
    case _ => StatusesAfter(s, e);
  }

  /** The hypothesis of the resume contract: a resume fires only on a paused thread. */
  predicate Disciplined(s: State, e: Event) {
    e.Resume? && Enabled(s, e) ==> s.invs[e.job.inv].thread.Paused?
  }

  ghost predicate AllDisciplined(es: seq<Event>) {
    es == [] || (AllDisciplined(es[..|es| - 1]) && Disciplined(Run(es[..|es| - 1]), es[|es| - 1]))
  }

  ghost predicate Alone(s: State, w: nat)
    requires w in s.workers
  {
    var k := s.workers[w];
    && k.inv in s.invs && s.invs[k.inv].thread.Running?
    && (forall v :: v in s.workers && s.workers[v].inv == k.inv ==> v == w)
    && (!k.pc.Claimed? ==> s.invs[k.inv].completedAt.None?)
    && (k.pc.InGraph? ==>
          && !k.resumed
          && s.invs[k.inv].incident in s.incidents && StatusOf(s, k.inv) == Investigating)
    && (k.resumed && k.pc.AtWriteback? ==>
          s.invs[k.inv].incident in s.incidents && StatusOf(s, k.inv) == AwaitingApproval)
  }

  ghost predicate Parked(s: State, i: nat)
    requires i in s.invs
  {
    s.invs[i].thread.Paused? ==>
      && s.invs[i].incident in s.incidents && StatusOf(s, i) == AwaitingApproval
      && s.invs[i].completedAt.None?
      && forall w :: w in s.workers ==> s.workers[w].inv != i
  }

  /** At most one live run per investigation, none while it is paused. */
  ghost predicate Orderly(s: State) {
    && (forall w :: w in s.workers ==> Alone(s, w))
    && (forall i :: i in s.invs ==> Parked(s, i))
  }

  lemma OrderlyTriage(s: State, c: nat, i: nat, outcome: TriageOutcome, now: nat)
    requires Inv(s) && Orderly(s) && Enabled(s, Triage(c, i, outcome, now))
    ensures Orderly(DoTriage(s, c, i, outcome, now))
  {
    var s' := DoTriage(s, c, i, outcome, now);
    forall v | v in s'.workers ensures Alone(s', v) { assert Alone(s, v) && WorkerInv(s, v); }
    forall j | j in s'.invs ensures Parked(s', j) { if j != i { assert Parked(s, j) && RowInv(s, j); } }
  }

  lemma OrderlyClaimTier2(s: State, i: nat, w: nat)
    requires Inv(s) && Orderly(s) && Enabled(s, ClaimTier2(i, w))
    ensures Orderly(DoClaimTier2(s, i, w))
  {
    var s' := DoClaimTier2(s, i, w);
    assert RowInv(s, i);
    forall v | v in s.workers ensures s.workers[v].inv != i { assert WorkerInv(s, v); }
    forall v | v in s'.workers ensures Alone(s', v) { if v != w { assert Alone(s, v); } }
    forall j | j in s'.invs ensures Parked(s', j) { assert Parked(s, j) && RowInv(s, j); }
  }

  lemma OrderlyGate(s: State, w: nat, needsHuman: bool)
    requires Inv(s) && Orderly(s) && Enabled(s, Gate(w, needsHuman))
    ensures Orderly(DoGate(s, w, needsHuman))
  {
    assert Alone(s, w);
    if needsHuman { OrderlyPause(s, w); } else { OrderlyPass(s, w); }
  }

  lemma OrderlyPause(s: State, w: nat)
    requires Orderly(s) && Rows(s) && Unique(s) && Enabled(s, Gate(w, true))
    ensures Orderly(DoGate(s, w, true))
  {
    var s' := DoGate(s, w, true);
    assert Alone(s, w);
    forall v | v in s'.workers ensures Alone(s', v) { assert Alone(s, v); }
    forall j | j in s'.invs ensures Parked(s', j) { assert Parked(s, j) && RowInv(s, j); }
  }

  lemma OrderlyPass(s: State, w: nat)
    requires Orderly(s) && Enabled(s, Gate(w, false))
    ensures Orderly(DoGate(s, w, false))
  {
    var s1 := Log(s, s.workers[w].inv, ApprovalReceived);
    OrderlyFrame(s, s1);
    OrderlyMove(s1, w, AtWriteback(Auto));
  }

  lemma OrderlyResume(s: State, job: Job, w: nat, needsHuman: bool)
    requires Inv(s) && Orderly(s) && Enabled(s, Resume(job, w, needsHuman)) && s.invs[job.inv].thread.Paused?
    ensures Orderly(DoResume(s, job, w, needsHuman))
  {
    var s' := DoResume(s, job, w, needsHuman);
    assert Parked(s, job.inv);
    forall v | v in s'.workers ensures Alone(s', v) { if v != w { assert Alone(s, v); } }
    forall j | j in s'.invs ensures Parked(s', j) { assert Parked(s, j); }
  }

  lemma OrderlyCrashAtApproval(s: State, w: nat)
    requires Orderly(s) && Enabled(s, CrashAtApproval(w))
    ensures Orderly(DoCrashAtApproval(s, w))
  {
    var s' := DoCrashAtApproval(s, w);
    assert Alone(s, w);
    forall v | v in s'.workers ensures Alone(s', v) { assert Alone(s, v); }
    forall j | j in s'.invs ensures Parked(s', j) { assert Parked(s, j); }
  }

  lemma OrderlyMove(s: State, w: nat, pc: Pc)
    requires Orderly(s) && w in s.workers && !pc.InGraph? && (!pc.Claimed? ==> !s.workers[w].pc.Claimed?)
    requires pc.AtWriteback? ==> !s.workers[w].resumed
    ensures Orderly(Move(s, w, pc))
  {
    var s' := Move(s, w, pc);
    forall v | v in s'.workers ensures Alone(s', v) { assert Alone(s, v); }
    forall j | j in s'.invs ensures Parked(s', j) { assert Parked(s, j); }
  }

  lemma OrderlyClaimFinalize(s: State, w: nat, now: nat)
    requires Inv(s) && Orderly(s) && Enabled(s, ClaimFinalize(w, now))
    ensures Orderly(DoClaimFinalize(s, w, now))
  {
    var s' := DoClaimFinalize(s, w, now);
    assert Alone(s, w);
    forall v | v in s'.workers ensures Alone(s', v) { assert Alone(s, v); }
    forall j | j in s'.invs ensures Parked(s', j) { assert Parked(s, j); }
  }

  lemma OrderlyFinalize(s: State, w: nat)
    requires Inv(s) && Orderly(s) && Enabled(s, Finalize(w))
    ensures Orderly(DoFinalize(s, w))
  {
    FinalizedWorkers(s, w);
    FinalizedParked(s, w);
  }

  lemma FinalizedWorkers(s: State, w: nat)
    requires Orderly(s) && Enabled(s, Finalize(w)) && Unique(s)
    ensures forall v :: v in DoFinalize(s, w).workers ==> Alone(DoFinalize(s, w), v)
  {
    var s' := DoFinalize(s, w);
    forall v | v in s'.workers ensures Alone(s', v) { assert Alone(s, v); }
  }

  lemma FinalizedParked(s: State, w: nat)
    requires Orderly(s) && Enabled(s, Finalize(w)) && Unique(s)
    ensures forall j :: j in DoFinalize(s, w).invs ==> Parked(DoFinalize(s, w), j)
  {
    var s' := DoFinalize(s, w);
    assert Alone(s, w);
    forall j | j in s'.invs ensures Parked(s', j) { assert Parked(s, j); }
  }

  lemma OrderlyFrame(s: State, s': State)
    requires Orderly(s) && s'.invs == s.invs && s'.workers.Keys <= s.workers.Keys
    requires forall v :: v in s'.workers ==> s'.workers[v] == s.workers[v]
    requires forall i :: i in s.invs && s.invs[i].incident in s.incidents ==>
      s.invs[i].incident in s'.incidents && s'.incidents[s.invs[i].incident] == s.incidents[s.invs[i].incident]
    ensures Orderly(s')
  {
    forall v | v in s'.workers ensures Alone(s', v) { assert Alone(s, v); }
    forall j | j in s'.invs ensures Parked(s', j) { assert Parked(s, j); }
  }

  lemma OrderlyStep(s: State, e: Event)
    requires Inv(s) && Orderly(s) && Disciplined(s, e)
    ensures Orderly(Apply(s, e))
  {
    if Enabled(s, e) {
      match e
      case Ingest(c) => OrderlyFrame(s, Apply(s, e));
      case Triage(c, i, outcome, now) => OrderlyTriage(s, c, i, outcome, now);
      case ClaimTier2(i, w) => OrderlyClaimTier2(s, i, w);
      case GraphFails(w) => OrderlyMove(s, w, AtClaim(NoVerdict));
      case Gate(w, needsHuman) => OrderlyGate(s, w, needsHuman);
      case Submit(_, _) => OrderlyFrame(s, Apply(s, e));
      case Resume(job, w, needsHuman) => OrderlyResume(s, job, w, needsHuman);
      case Writeback(w, _, _, _) =>
        OrderlyFrame(s, s.(calls := Apply(s, e).calls));
        OrderlyMove(s.(calls := Apply(s, e).calls), w, Apply(s, e).workers[w].pc);
      case ClaimFinalize(w, now) => OrderlyClaimFinalize(s, w, now);
      case Finalize(w) => OrderlyFinalize(s, w);
      case Crash(w) => OrderlyFrame(s, Apply(s, e));
      case CrashAtApproval(w) => OrderlyCrashAtApproval(s, w);
    }
  }

  lemma {:induction false} DisciplinedRunsAreOrderly(es: seq<Event>)
    requires AllDisciplined(es)
    ensures Orderly(Run(es))
  {
    if es != [] {
      DisciplinedRunsAreOrderly(es[..|es| - 1]);
      RunInv(es[..|es| - 1]);
      OrderlyStep(Run(es[..|es| - 1]), es[|es| - 1]);
    }
  }

  /** With resumes on paused threads only, every status moves only forward along new, triaging,
      investigating, awaiting_approval, then done or inconclusive, and those two absorb. */
  lemma DisciplinedRunsMoveForward(es: seq<Event>, e: Event)
    requires AllDisciplined(es) && Disciplined(Run(es), e)
    ensures Forward(Run(es), Apply(Run(es), e))
  {
    DisciplinedRunsAreOrderly(es);
    var s := Run(es);
    assert e.Gate? && Enabled(s, e) ==> Alone(s, e.w);
    assert e.Resume? && Enabled(s, e) ==> Parked(s, e.job.inv);
    StepMovesForwardIff(es, e);
  }
}
