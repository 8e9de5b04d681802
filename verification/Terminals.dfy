/** When a finished investigation has no terminal audit row: exactly when its verdict write is still to
    come, or was lost with the worker that had claimed it. */
module Terminals {
  import opened Common
  import opened Lifecycle
  import opened LifecycleEvents
  import opened LifecycleLaws

  /** A worker that has won the finalize claim of i and not yet written its verdict. */
  ghost predicate Claiming(s: State, w: nat, i: nat) {
    w in s.workers && s.workers[w].inv == i && s.workers[w].pc.Claimed?
  }

  ghost predicate Pending(s: State, i: nat) { exists w :: Claiming(s, w, i) }

  /** The crash of such a worker. */
  ghost predicate Loses(s: State, e: Event, i: nat) { e.Crash? && Claiming(s, e.w, i) }

  ghost predicate LostIn(es: seq<Event>, i: nat) {
    es != [] && var init, last := es[..|es| - 1], es[|es| - 1]; LostIn(init, i) || Loses(Run(init), last, i)
  }

  /** The state of one investigation, given whether its claim was lost. */
  ghost predicate Accounted(s: State, i: nat, lost: bool) {
    if i in s.invs && s.invs[i].completedAt.Some?
    then (Count(s.audit, i, Terminal) == 0 <==> Pending(s, i) || lost) && !(lost && Pending(s, i))
    else !lost && !Pending(s, i)
  }

  ghost predicate StepOk(s: State, e: Event, i: nat, lost: bool) {
    Accounted(Apply(s, e), i, lost || Loses(s, e, i))
  }

  /** Events that leave i's completion, terminal rows and claim as they are. */
  predicate Neutral(s: State, e: Event, i: nat)
    requires Enabled(s, e)
  {
    Target(s, e) != Some(i) || !(e.Triage? || e.ClaimFinalize? || e.Finalize? || e.Crash?)
  }

  lemma NeutralCount(s: State, e: Event, i: nat)
    requires Enabled(s, e) && Neutral(s, e, i)
    ensures Count(Apply(s, e).audit, i, Terminal) == Count(s.audit, i, Terminal)
  {
    CountAfter(s, e, i, Terminal);
    if Target(s, e) == Some(i) { NeutralTally(s, e); }
  }

  lemma NeutralTally(s: State, e: Event)
    requires Enabled(s, e) && !(e.Triage? || e.ClaimFinalize? || e.Finalize? || e.Crash?)
    ensures Tally(NewActions(s, e), Terminal) == 0
  {
    match e
    case ClaimTier2(_, _) => TallyOne(InvestigationStarted, Terminal);
    case Gate(_, _) =>
      TallyOne(ApprovalReceived, Terminal);
      TallyOne(ApprovalAwaited, Terminal);
    case Submit(_, approved) => TallyOne(HumanDecision(approved), Terminal);
    case Resume(_, _, _) =>
      TallyOne(ApprovalReceived, Terminal);
      assert [] + [ApprovalReceived] == [ApprovalReceived];
      assert ([ApprovalAwaited] + [ApprovalReceived])[1..] == [ApprovalReceived];
    case _ =>
  }

  lemma NeutralClaims(s: State, e: Event, i: nat)
    requires Enabled(s, e) && Neutral(s, e, i)
    ensures forall w :: Claiming(Apply(s, e), w, i) <==> Claiming(s, w, i)
    ensures !Loses(s, e, i)
  {
  }

  lemma NeutralRow(s: State, e: Event, i: nat)
    requires Enabled(s, e) && Neutral(s, e, i)
    ensures i in s.invs <==> i in Apply(s, e).invs
    ensures i in s.invs ==> Apply(s, e).invs[i].completedAt == s.invs[i].completedAt
  {
  }

  lemma NeutralStep(s: State, e: Event, i: nat, lost: bool)
    requires Enabled(s, e) && Neutral(s, e, i) && Accounted(s, i, lost)
    ensures StepOk(s, e, i, lost)
  {
    NeutralCount(s, e, i);
    NeutralClaims(s, e, i);
    NeutralRow(s, e, i);
  }

  lemma TriageStep(s: State, e: Event, i: nat, lost: bool)
    requires Inv(s) && Enabled(s, e) && e.Triage? && e.inv == i && Accounted(s, i, lost)
    ensures StepOk(s, e, i, lost)
  {
    TriageCounts(s, e.incident, i, e.outcome, e.now);
    assert forall w :: Claiming(Apply(s, e), w, i) <==> Claiming(s, w, i);
  }

  lemma ClaimStep(s: State, e: Event, i: nat, lost: bool)
    requires Inv(s) && Enabled(s, e) && e.ClaimFinalize? && s.workers[e.w].inv == i && Accounted(s, i, lost)
    ensures StepOk(s, e, i, lost)
  {
    var s' := Apply(s, e);
    assert RowInv(s, i) by { assert WorkerInv(s, e.w); }
    assert s'.audit == s.audit;
    if s.invs[i].completedAt.Some? {
      assert forall w :: Claiming(s', w, i) <==> Claiming(s, w, i);
    } else {
      assert Claiming(s', e.w, i);
    }
  }

  lemma FinalizeStep(s: State, e: Event, i: nat, lost: bool)
    requires Inv(s) && Enabled(s, e) && e.Finalize? && s.workers[e.w].inv == i && Accounted(s, i, lost)
    ensures StepOk(s, e, i, lost)
  {
    FinalizeCounts(s, e.w);
    assert WorkerInv(s, e.w) && Claiming(s, e.w, i);
    assert forall w :: !Claiming(Apply(s, e), w, i);
  }

  lemma CrashStep(s: State, e: Event, i: nat, lost: bool)
    requires Inv(s) && Enabled(s, e) && e.Crash? && s.workers[e.w].inv == i && Accounted(s, i, lost)
    ensures StepOk(s, e, i, lost)
  {
    var s' := Apply(s, e);
    assert WorkerInv(s, e.w);
    if Claiming(s, e.w, i) {
      assert forall w :: !Claiming(s', w, i);
    } else {
      assert forall w :: Claiming(s', w, i) <==> Claiming(s, w, i);
    }
  }

  lemma {:induction false} RunsAreAccounted(es: seq<Event>, i: nat)
    ensures Accounted(Run(es), i, LostIn(es, i))
  {
    if es != [] {
      var init, e := es[..|es| - 1], es[|es| - 1];
      RunsAreAccounted(init, i);
      RunInv(init);
      var s, lost := Run(init), LostIn(init, i);
      if Enabled(s, e) {
        if Neutral(s, e, i) {
          NeutralStep(s, e, i, lost);
        } else {
          match e
          case Triage(_, _, _, _) => TriageStep(s, e, i, lost);
          case ClaimFinalize(_, _) => ClaimStep(s, e, i, lost);
          case Finalize(_) => FinalizeStep(s, e, i, lost);
          case Crash(_) => CrashStep(s, e, i, lost);
        }
      }
    }
  }

  /** Step a of the run is the crash of a worker that had claimed i. */
  ghost predicate LosesAt(es: seq<Event>, i: nat, a: nat) {
    a < |es| && Loses(Run(es[..a]), es[a], i)
  }

  lemma {:induction false} LostMeans(es: seq<Event>, i: nat)
    ensures LostIn(es, i) <==> exists a: nat :: LosesAt(es, i, a)
  {
    if es != [] {
      var n := |es| - 1;
      LostMeans(es[..n], i);
      forall a: nat | a < n ensures LosesAt(es[..n], i, a) == LosesAt(es, i, a) {
        assert es[..n][..a] == es[..a] && es[..n][a] == es[a];
      }
      assert LosesAt(es, i, n) == Loses(Run(es[..n]), es[n], i);
    }
  }

  /** In every run, a completed investigation has no terminal row if and only if a live worker still has
      to write the verdict it claimed, or a crash took the worker that had claimed it; otherwise it has
      exactly one. */
  lemma CompletedWithoutRowIff(es: seq<Event>, i: nat)
    requires i in Run(es).invs && Run(es).invs[i].completedAt.Some?
    ensures Count(Run(es).audit, i, Terminal) == 0 <==> Pending(Run(es), i) || exists a: nat :: LosesAt(es, i, a)
    ensures Count(Run(es).audit, i, Terminal) <= 1
  {
    RunsAreAccounted(es, i);
    LostMeans(es, i);
    RunInv(es);
    assert RowInv(Run(es), i);
  }

  // ------------------------------------------------------------- status, row and time agree

  /** The terminal rows that go with a terminal status. */
  predicate Announces(a: Action, st: Status) {
    || (st.Done? && (a.TriageAutoClose? || a.InvestigationComplete?))
    || (st.Inconclusive? && (a.TriageFailed? || a.InvestigationFailed?))
  }

  ghost predicate Announced(s: State, i: nat, st: Status) {
    exists a :: AuditRow(i, a) in s.audit && Announces(a, st)
  }

  /** Every investigation whose incident has a terminal status has a row announcing it. */
  ghost predicate StatusesAnnounced(s: State) {
    forall i :: i in s.invs && s.invs[i].incident in s.incidents && IsTerminal(StatusOf(s, i)) ==>
      Announced(s, i, StatusOf(s, i))
  }

  lemma AnnouncedGrows(s: State, s': State, i: nat, st: Status)
    requires Announced(s, i, st) && s.audit <= s'.audit
    ensures Announced(s', i, st)
  {
    var a :| AuditRow(i, a) in s.audit && Announces(a, st);
    assert s'.audit == s.audit + s'.audit[|s.audit|..];
    assert AuditRow(i, a) in s'.audit;
  }

  /** The row an event sets a terminal status with. */
  lemma EventAnnounces(s: State, e: Event)
    requires Inv(s) && Enabled(s, e) && (e.Triage? || e.Finalize?)
    ensures var s', i := Apply(s, e), if e.Triage? then e.inv else s.workers[e.w].inv;
            i in s'.invs && s'.invs[i].incident in s'.incidents
            && (IsTerminal(StatusOf(s', i)) ==> Announced(s', i, StatusOf(s', i)))
  {
    if e.Triage? {
      TriageAnnounces(s, e.incident, e.inv, e.outcome, e.now);
    } else {
      assert WorkerInv(s, e.w) && RowInv(s, s.workers[e.w].inv);
      FinalizeAnnounces(s, e.w);
    }
  }

  lemma TriageAnnounces(s: State, c: nat, i: nat, outcome: TriageOutcome, now: nat)
    requires Enabled(s, Triage(c, i, outcome, now))
    ensures var s' := DoTriage(s, c, i, outcome, now);
            i in s'.invs && s'.invs[i].incident in s'.incidents
            && (IsTerminal(StatusOf(s', i)) ==> Announced(s', i, StatusOf(s', i)))
  {
    var s' := DoTriage(s, c, i, outcome, now);
    var last := s'.audit[|s'.audit| - 1];
    assert last in s'.audit && last == AuditRow(i, last.action);
  }

  lemma FinalizeAnnounces(s: State, w: nat)
    requires Enabled(s, Finalize(w)) && s.invs[s.workers[w].inv].incident in s.incidents
    ensures var s', i := DoFinalize(s, w), s.workers[w].inv;
            i in s'.invs && s'.invs[i].incident in s'.incidents
            && (IsTerminal(StatusOf(s', i)) ==> Announced(s', i, StatusOf(s', i)))
  {
    var s' := DoFinalize(s, w);
    var last := s'.audit[|s'.audit| - 1];
    assert last in s'.audit && last == AuditRow(s.workers[w].inv, last.action);
  }

  lemma OthersKeepStatus(s: State, e: Event, i: nat)
    requires Inv(s) && Enabled(s, e) && i in s.invs && (Target(s, e) != Some(i) || !(e.Triage? || e.Finalize?))
    ensures var s' := Apply(s, e);
            && i in s'.invs && s'.invs[i].incident == s.invs[i].incident && s.invs[i].incident in s.incidents
            && s'.invs[i].incident in s'.incidents
            && (s'.incidents[s'.invs[i].incident] == s.incidents[s.invs[i].incident]
                || !IsTerminal(s'.incidents[s'.invs[i].incident]))
  {
    assert RowInv(s, i);
    StatusesAfter(s, e);
    IncidentStays(s, e, i);
    OthersKeepIncident(s, e, i);
  }

  lemma IncidentStays(s: State, e: Event, i: nat)
    requires Enabled(s, e) && i in s.invs
    ensures i in Apply(s, e).invs && (e.Triage? || Apply(s, e).invs[i].incident == s.invs[i].incident)
  {
  }

  lemma OthersKeepIncident(s: State, e: Event, i: nat)
    requires Unique(s) && Enabled(s, e) && i in s.invs && s.invs[i].incident in s.incidents
    requires forall w :: w in s.workers ==> s.workers[w].inv in s.invs
    requires Target(s, e) != Some(i) || !(e.Triage? || e.Finalize?)
    ensures var c := s.invs[i].incident;
            c in NewStatuses(s, e) && (NewStatuses(s, e)[c] == s.incidents[c] || !IsTerminal(NewStatuses(s, e)[c]))
  {
  }

  lemma AnnouncedStep(s: State, e: Event)
    requires Inv(s) && Enabled(s, e) && StatusesAnnounced(s)
    ensures StatusesAnnounced(Apply(s, e))
  {
    var s' := Apply(s, e);
    forall i | i in s'.invs && s'.invs[i].incident in s'.incidents && IsTerminal(StatusOf(s', i))
      ensures Announced(s', i, StatusOf(s', i))
    {
      if Target(s, e) == Some(i) && (e.Triage? || e.Finalize?) {
        EventAnnounces(s, e);
      } else {
        OldRow(s, e, i);
        OthersKeepStatus(s, e, i);
        CountAfter(s, e, i, Terminal);
        AnnouncedGrows(s, s', i, StatusOf(s, i));
      }
    }
  }

  lemma OldRow(s: State, e: Event, i: nat)
    requires Inv(s) && Enabled(s, e) && i in Apply(s, e).invs && !(Target(s, e) == Some(i) && e.Triage?)
    ensures i in s.invs && s.invs[i].incident in s.incidents
  {
    if i in s.invs { assert RowInv(s, i); }
  }

  lemma {:induction false} RunsAreAnnounced(es: seq<Event>)
    ensures StatusesAnnounced(Run(es))
  {
    if es != [] {
      var init, last := es[..|es| - 1], es[|es| - 1];
      RunsAreAnnounced(init);
      RunInv(init);
      if Enabled(Run(init), last) { AnnouncedStep(Run(init), last); }
    }
  }

  /** In every run a finished incident's status is the one its only terminal row announces: done after an
      automatic close or a verdict, inconclusive after a failure, and nothing else was announced. */
  lemma StatusIsAnnounced(es: seq<Event>, i: nat)
    requires i in Run(es).invs
    ensures var s := Run(es);
            s.invs[i].incident in s.incidents
            && (IsTerminal(StatusOf(s, i)) ==>
                  && Announced(s, i, StatusOf(s, i))
                  && forall a :: AuditRow(i, a) in s.audit && Is(a, Terminal) ==> Announces(a, StatusOf(s, i)))
  {
    RunInv(es);
    RunsAreAnnounced(es);
    var s := Run(es);
    assert RowInv(s, i);
    if IsTerminal(StatusOf(s, i)) {
      var b :| AuditRow(i, b) in s.audit && Announces(b, StatusOf(s, i));
      forall a | AuditRow(i, a) in s.audit && Is(a, Terminal) ensures Announces(a, StatusOf(s, i)) {
        if a != b { TwoTerminalsCount(s.audit, i, a, b); }
      }
    }
  }

  lemma {:induction false} OneTerminalCounts(audit: seq<AuditRow>, i: nat, a: Action)
    requires AuditRow(i, a) in audit && Is(a, Terminal)
    ensures Count(audit, i, Terminal) >= 1
  {
    var n := |audit| - 1;
    assert audit == audit[..n] + [audit[n]];
    if audit[n] != AuditRow(i, a) { OneTerminalCounts(audit[..n], i, a); }
  }

  lemma {:induction false} TwoTerminalsCount(audit: seq<AuditRow>, i: nat, a: Action, b: Action)
    requires AuditRow(i, a) in audit && AuditRow(i, b) in audit && a != b && Is(a, Terminal) && Is(b, Terminal)
    ensures Count(audit, i, Terminal) >= 2
  {
    var n := |audit| - 1;
    assert audit == audit[..n] + [audit[n]];
    if audit[n] == AuditRow(i, a) {
      OneTerminalCounts(audit[..n], i, b);
    } else if audit[n] == AuditRow(i, b) {
      OneTerminalCounts(audit[..n], i, a);
    } else {
      TwoTerminalsCount(audit[..n], i, a, b);
    }
  }

  /** The event completes i at the given time: triage ends it, or a finalize claim finds it open. */
  predicate Completes(s: State, e: Event, i: nat, time: nat) {
    && Enabled(s, e)
    && match e
       case Triage(_, j, outcome, now) => j == i && now == time && !outcome.Escalates?
       case ClaimFinalize(w, now) => s.workers[w].inv == i && now == time && s.invs[i].completedAt.None?
       case _ => false
  }

  predicate CompletesAt(es: seq<Event>, i: nat, time: nat, a: nat) {
    a < |es| && Completes(Run(es[..a]), es[a], i, time)
  }

  lemma CompletionStep(s: State, e: Event, i: nat, time: nat)
    ensures i in Apply(s, e).invs && Apply(s, e).invs[i].completedAt == Some(time)
            <==> (i in s.invs && s.invs[i].completedAt == Some(time)) || Completes(s, e, i, time)
  {
  }

  lemma SameCompletion(es: seq<Event>, i: nat, time: nat, n: nat, a: nat)
    requires a < n <= |es|
    ensures CompletesAt(es[..n], i, time, a) == CompletesAt(es, i, time, a)
  {
    assert es[..n][..a] == es[..a] && es[..n][a] == es[a];
  }

  /** The completion time of an investigation is the time of the one event that completed it. */
  lemma {:induction false} CompletedIff(es: seq<Event>, i: nat, time: nat)
    ensures i in Run(es).invs && Run(es).invs[i].completedAt == Some(time)
            <==> exists a: nat :: CompletesAt(es, i, time, a)
  {
    if es != [] {
      var n := |es| - 1;
      CompletedIff(es[..n], i, time);
      CompletionStep(Run(es[..n]), es[n], i, time);
      forall a: nat | a < n ensures CompletesAt(es[..n], i, time, a) == CompletesAt(es, i, time, a) {
        SameCompletion(es, i, time, n, a);
      }
      assert CompletesAt(es, i, time, n) == Completes(Run(es[..n]), es[n], i, time);
    }
  }
}
