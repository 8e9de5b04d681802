/** Concrete runs showing which stronger lifecycle claims fail, and the transactions in place. */
module LifecycleLimits {
  import opened Common
  import opened Lifecycle
  import opened LifecycleLaws
  import opened Writebacks

  const STARTED := [Ingest(1), Triage(1, 1, Escalates, 0), ClaimTier2(1, 1)]

  const TRAIL := [AuditRow(1, TriageStarted), AuditRow(1, TriageEscalated), AuditRow(1, InvestigationStarted)]

  lemma Started()
    ensures Run(STARTED) == State(map[1 := Investigating], map[1 := Investigation(1, false, None, Running, false)],
                                  TRAIL, map[1 := Worker(1, InGraph, false)], {}, {})
    ensures AllDisciplined(STARTED)
  {
    var s1 := State(map[1 := New], map[], [], map[], {}, {});
    var s2 := State(map[1 := Triaging], map[1 := Investigation(1, true, None, Idle, false)],
                    [AuditRow(1, TriageStarted), AuditRow(1, TriageEscalated)], map[], {}, {});
    assert STARTED[..0] == [] && STARTED[..1] == [] + [STARTED[0]] && STARTED[..2] == STARTED[..1] + [STARTED[1]];
    assert STARTED == STARTED[..2] + [STARTED[2]];
    RunSnoc([], STARTED[0]);
    assert Run(STARTED[..1]) == s1;
    RunSnoc(STARTED[..1], STARTED[1]);
    var r := Run(STARTED[..2]);
    assert r.incidents == s2.incidents && r.audit == s2.audit && r == s2;
    RunSnoc(STARTED[..2], STARTED[2]);
    var q := Run(STARTED);
    assert q.incidents == map[1 := Investigating];
    assert q.invs == map[1 := Investigation(1, false, None, Running, false)];
    DisciplinedSnoc([], STARTED[0]);
    DisciplinedSnoc(STARTED[..1], STARTED[1]);
    DisciplinedSnoc(STARTED[..2], STARTED[2]);
  }

  lemma {:induction false} NoneCounted(audit: seq<AuditRow>, i: nat, k: Kind)
    requires forall r :: r in audit ==> !Is(r.action, k)
    ensures Count(audit, i, k) == 0
  {
    if audit != [] { NoneCounted(audit[..|audit| - 1], i, k); }
  }

  lemma {:induction false} SomeCounted(audit: seq<AuditRow>, r: AuditRow, k: Kind)
    requires r in audit && Is(r.action, k)
    ensures Count(audit, r.inv, k) > 0
  {
    var n := |audit| - 1;
    assert audit == audit[..n] + [audit[n]];
    if audit[n] != r { SomeCounted(audit[..n], r, k); }
  }

  lemma DisciplinedSnoc(es: seq<Event>, e: Event)
    requires AllDisciplined(es) && Disciplined(Run(es), e)
    ensures AllDisciplined(es + [e])
  {
    assert (es + [e])[..|es|] == es;
  }

  const PAUSED := TRAIL + [AuditRow(1, ApprovalAwaited)]

  lemma PausedRun() returns (es: seq<Event>)
    ensures AllDisciplined(es)
    ensures Run(es) == State(map[1 := AwaitingApproval], map[1 := Investigation(1, false, None, Paused, false)], PAUSED,
                             map[], {}, {})
  {
    Started();
    RunSnoc(STARTED, Gate(1, true));
    DisciplinedSnoc(STARTED, Gate(1, true));
    es := STARTED + [Gate(1, true)];
    var s := Run(es);
    assert s.audit == PAUSED && s.workers == map[] && s.incidents == map[1 := AwaitingApproval];
    assert s.invs == map[1 := Investigation(1, false, None, Paused, false)];
  }

  /** A run paused for approval whose analyst has answered no. */
  lemma Refused() returns (es: seq<Event>)
    ensures AllDisciplined(es)
    ensures Run(es) == State(map[1 := AwaitingApproval], map[1 := Investigation(1, false, None, Paused, false)],
                             PAUSED + [AuditRow(1, HumanDecision(false))], map[], {Job(1, false)}, {})
  {
    es := PausedRun();
    NoneCounted(PAUSED, 1, Decision);
    RunSnoc(es, Submit(1, false));
    DisciplinedSnoc(es, Submit(1, false));
    es := es + [Submit(1, false)];
    assert Run(es).jobs == {Job(1, false)};
  }

  /** If the policy turns to "no human needed" between pause and resume, a rejected investigation is
      written back: the resumed node re-evaluates it before reading the analyst's answer. */
  lemma PolicyChangeWritesBackRejected() returns (es: seq<Event>)
    ensures AllDisciplined(es)
    ensures Count(Run(es).audit, 1, Awaited) > 0 && Decided(Run(es), 1, false)
    ensures ToolCall(1, Auto) in Run(es).calls
  {
    es := Refused();
    var resume := Resume(Job(1, false), 2, false);
    RunSnoc(es, resume);
    DisciplinedSnoc(es, resume);
    es := es + [resume];
    assert Run(es).workers == map[2 := Worker(1, AtWriteback(Auto), true)];
    var audit := Run(es).audit;
    assert audit == PAUSED + [AuditRow(1, HumanDecision(false))] + [AuditRow(1, ApprovalReceived)];
    assert AuditRow(1, ApprovalAwaited) in PAUSED;
    SomeCounted(audit, AuditRow(1, ApprovalAwaited), Awaited);
    RunSnoc(es, Writeback(2, true, true, true));
    DisciplinedSnoc(es, Writeback(2, true, true, true));
    es := es + [Writeback(2, true, true, true)];
  }

  /** A crash before the approval node's checkpoint undoes such a resume: the next one asks the policy
      afresh, and if that wants a human again the rejection stands. */
  lemma CrashedOverrideIsUndone() returns (es: seq<Event>, a: nat, b: nat)
    ensures AllDisciplined(es) && TurnedDown(Run(es), 1)
    ensures a < b && OverridesAt(es, 1, a) && DeliversAt(es, 1, b)
    ensures Run(es).calls == {}
  {
    var before := Refused();
    var crashed := CrashedOverride(before);
    es := RefusedAgain(crashed);
    a, b := |before|, |crashed| + 1;
    assert es[..a] == before && es[a] == crashed[a] == Resume(Job(1, false), 2, false);
    assert es[..b] == crashed + [Resume(Job(1, false), 3, true)] && es[b] == Writeback(3, true, true, true);
  }

  lemma RefusedAgain(crashed: seq<Event>) returns (es: seq<Event>)
    requires AllDisciplined(crashed)
    requires Run(crashed) == State(map[1 := AwaitingApproval], map[1 := Investigation(1, false, None, Paused, false)],
                                   PAUSED + [AuditRow(1, HumanDecision(false))] + [AuditRow(1, ApprovalReceived)],
                                   map[], {Job(1, false)}, {})
    ensures AllDisciplined(es) && TurnedDown(Run(es), 1) && Run(es).calls == {}
    ensures es == crashed + [Resume(Job(1, false), 3, true)] + [Writeback(3, true, true, true)]
    ensures Delivers(Run(crashed + [Resume(Job(1, false), 3, true)]), Writeback(3, true, true, true), 1)
  {
    var resume, writeback := Resume(Job(1, false), 3, true), Writeback(3, true, true, true);
    RefusedResume(Run(crashed));
    RunSnoc(crashed, resume);
    DisciplinedSnoc(crashed, resume);
    RunSnoc(crashed + [resume], writeback);
    DisciplinedSnoc(crashed + [resume], writeback);
    es := crashed + [resume] + [writeback];
    PausedRows(Run(es).audit, PAUSED + [AuditRow(1, HumanDecision(false))]);
  }

  lemma RefusedResume(s: State)
    requires s.incidents == map[1 := AwaitingApproval] && s.calls == {} && s.jobs == {Job(1, false)}
    requires s.invs == map[1 := Investigation(1, false, None, Paused, false)] && s.workers == map[]
    requires PAUSED + [AuditRow(1, HumanDecision(false))] <= s.audit
    ensures var s1 := Apply(s, Resume(Job(1, false), 3, true));
            var s2 := Apply(s1, Writeback(3, true, true, true));
            && Disciplined(s, Resume(Job(1, false), 3, true)) && Delivers(s1, Writeback(3, true, true, true), 1)
            && s2.calls == {} && 1 in s2.invs && PAUSED + [AuditRow(1, HumanDecision(false))] <= s2.audit
  {
    var s1 := Apply(s, Resume(Job(1, false), 3, true));
    assert s1.workers == map[3 := Worker(1, AtWriteback(Rejected), true)];
  }

  lemma CrashedOverride(before: seq<Event>) returns (es: seq<Event>)
    requires AllDisciplined(before)
    requires Run(before) == State(map[1 := AwaitingApproval], map[1 := Investigation(1, false, None, Paused, false)],
                                  PAUSED + [AuditRow(1, HumanDecision(false))], map[], {Job(1, false)}, {})
    ensures es == before + [Resume(Job(1, false), 2, false)] + [CrashAtApproval(2)] && AllDisciplined(es)
    ensures Run(es) == State(map[1 := AwaitingApproval], map[1 := Investigation(1, false, None, Paused, false)],
                             PAUSED + [AuditRow(1, HumanDecision(false))] + [AuditRow(1, ApprovalReceived)],
                             map[], {Job(1, false)}, {})
  {
    var first := Resume(Job(1, false), 2, false);
    RunSnoc(before, first);
    DisciplinedSnoc(before, first);
    es := before + [first];
    assert Run(es).workers == map[2 := Worker(1, AtWriteback(Auto), true)];
    RunSnoc(es, CrashAtApproval(2));
    DisciplinedSnoc(es, CrashAtApproval(2));
    es := es + [CrashAtApproval(2)];
    assert Run(es).invs == Run(before).invs && Run(es).workers == map[];
  }

  lemma PausedRows(audit: seq<AuditRow>, rows: seq<AuditRow>)
    requires rows == PAUSED + [AuditRow(1, HumanDecision(false))] && rows <= audit
    ensures Count(audit, 1, Awaited) > 0 && AuditRow(1, HumanDecision(false)) in audit
  {
    assert PAUSED[|TRAIL|] == AuditRow(1, ApprovalAwaited) && rows[|PAUSED|] == AuditRow(1, HumanDecision(false));
    assert audit[|TRAIL|] == rows[|TRAIL|] == PAUSED[|TRAIL|] && audit[|PAUSED|] == rows[|PAUSED|];
    SomeCounted(audit, AuditRow(1, ApprovalAwaited), Awaited);
  }

  /** An automatically approved run up to its finalize claim. */
  lemma AutoClaimed() returns (es: seq<Event>)
    ensures AllDisciplined(es)
    ensures Run(es).incidents == map[1 := Investigating]
    ensures Run(es).invs == map[1 := Investigation(1, false, Some(5), Running, false)]
    ensures Run(es).audit == TRAIL + [AuditRow(1, ApprovalReceived)]
    ensures Run(es).workers == map[1 := Worker(1, Claimed(Verdict(true)), false)]
  {
    Started();
    es := STARTED;
    RunSnoc(es, Gate(1, false));
    DisciplinedSnoc(es, Gate(1, false));
    es := es + [Gate(1, false)];
    RunSnoc(es, Writeback(1, true, true, true));
    DisciplinedSnoc(es, Writeback(1, true, true, true));
    es := es + [Writeback(1, true, true, true)];
    RunSnoc(es, ClaimFinalize(1, 5));
    DisciplinedSnoc(es, ClaimFinalize(1, 5));
    es := es + [ClaimFinalize(1, 5)];
    assert Run(es).invs == map[1 := Investigation(1, false, Some(5), Running, false)];
    assert Run(es).workers == map[1 := Worker(1, Claimed(Verdict(true)), false)];
  }

  /** "Exactly one terminal row" fails: a crash between the claim and the verdict write leaves
      completed_at set and no terminal audit row. */
  lemma CrashAfterClaim() returns (es: seq<Event>)
    ensures AllDisciplined(es)
    ensures 1 in Run(es).invs && Run(es).invs[1].completedAt == Some(5)
    ensures Count(Run(es).audit, 1, Terminal) == 0 && Run(es).workers == map[]
  {
    es := AutoClaimed();
    RunSnoc(es, Crash(1));
    DisciplinedSnoc(es, Crash(1));
    es := es + [Crash(1)];
    NoneCounted(Run(es).audit, 1, Terminal);
  }

  /** A run whose analyst has answered while its worker is still before the approval node; the
      command-line path records a decision without asking for a pause. */
  lemma EarlyAnswer(approved: bool) returns (es: seq<Event>)
    ensures Run(es) == State(map[1 := Investigating], map[1 := Investigation(1, false, None, Running, false)],
                             TRAIL + [AuditRow(1, HumanDecision(approved))], map[1 := Worker(1, InGraph, false)],
                             {Job(1, approved)}, {})
    ensures forall e :: e in es ==> !e.Resume?
  {
    Started();
    NoneCounted(TRAIL, 1, Decision);
    RunSnoc(STARTED, Submit(1, approved));
    es := STARTED + [Submit(1, approved)];
    assert Run(es).jobs == {Job(1, approved)};
  }

  /** The same, and a second worker resumes the thread with that answer. */
  lemma ResumedWhileRunning(approved: bool) returns (es: seq<Event>)
    ensures Run(es).incidents == map[1 := AwaitingApproval] && Run(es).calls == {}
    ensures Run(es).invs == map[1 := Investigation(1, false, None, Running, false)]
    ensures Run(es).audit == TRAIL + [AuditRow(1, HumanDecision(approved))] + [AuditRow(1, ApprovalAwaited)]
                             + [AuditRow(1, ApprovalReceived)]
    ensures Run(es).workers == map[1 := Worker(1, InGraph, false)][
                                 2 := Worker(1, AtWriteback(if approved then Approved else Rejected), true)]
    ensures forall e :: e in es && e.Resume? ==> e.needsHuman
  {
    es := EarlyAnswer(approved);
    RunSnoc(es, Resume(Job(1, approved), 2, true));
    es := es + [Resume(Job(1, approved), 2, true)];
    assert Run(es).incidents == map[1 := AwaitingApproval];
    assert Run(es).invs == map[1 := Investigation(1, false, None, Running, false)];
  }

  /** The resumed run finishes; the worker it overtook is still before the approval node. */
  lemma OvertakenRun() returns (es: seq<Event>)
    ensures Run(es).incidents == map[1 := Done] && Run(es).invs.Keys == {1} && Run(es).invs[1].incident == 1
    ensures 1 in Run(es).workers && Run(es).workers[1] == Worker(1, InGraph, false)
    ensures forall x :: x in es && x.Resume? ==> x.needsHuman
  {
    es := ResumedWhileRunning(true);
    var writeback, claim, finalize := Writeback(2, true, true, true), ClaimFinalize(2, 5), Finalize(2);
    RunSnoc(es, writeback);
    RunSnoc(es + [writeback], claim);
    RunSnoc(es + [writeback] + [claim], finalize);
    es := es + [writeback] + [claim] + [finalize];
    assert Run(es).incidents == map[1 := Done];
  }

  /** Without the resume discipline a finished incident goes back to awaiting_approval: the worker that
      was overtaken reaches the approval node after the resumed run has finished. */
  lemma StrayResumeReopens() returns (es: seq<Event>, e: Event)
    ensures Run(es).incidents == map[1 := Done]
    ensures e == Gate(1, true) && Apply(Run(es), e).incidents == map[1 := AwaitingApproval]
    ensures forall x :: x in es && x.Resume? ==> x.needsHuman
  {
    es := OvertakenRun();
    e := Gate(1, true);
    FlipStatuses(Run(es), 1);
    assert Apply(Run(es), e).incidents == map[1 := AwaitingApproval];
  }

  /** Nor is a rejected investigation safe without it, although every resume asks for a human: the
      overtaken worker may find that the policy does not, and write back. */
  lemma StrayResumeWritesBackRejected() returns (es: seq<Event>)
    ensures TurnedDown(Run(es), 1) && ToolCall(1, Auto) in Run(es).calls
    ensures forall x :: x in es && x.Resume? ==> x.needsHuman
  {
    es := ResumedWhileRunning(false);
    var rows := Run(es).audit;
    RunSnoc(es, Gate(1, false));
    RunSnoc(es + [Gate(1, false)], Writeback(1, true, true, true));
    es := es + [Gate(1, false)] + [Writeback(1, true, true, true)];
    assert Run(es).audit == rows + [AuditRow(1, ApprovalReceived)];
    RejectedRows(rows, Run(es).audit);
  }

  lemma RejectedRows(rows: seq<AuditRow>, all: seq<AuditRow>)
    requires rows == TRAIL + [AuditRow(1, HumanDecision(false))] + [AuditRow(1, ApprovalAwaited)]
                     + [AuditRow(1, ApprovalReceived)]
    requires all == rows + [AuditRow(1, ApprovalReceived)]
    ensures Count(all, 1, Awaited) > 0 && AuditRow(1, HumanDecision(false)) in all
  {
    assert rows[|TRAIL|] == AuditRow(1, HumanDecision(false)) && rows[|TRAIL| + 1] == AuditRow(1, ApprovalAwaited);
    assert rows[|TRAIL|] in all && rows[|TRAIL| + 1] in all;
    SomeCounted(all, AuditRow(1, ApprovalAwaited), Awaited);
  }

  /** The shared tables, changed in place by the workers' transactions. */
  class Store {
    var state: State

    constructor ()
      ensures state == INIT
    {
      state := INIT;
    }

    /** run_investigation's transaction; the outcome is what the triage call decided. */
    method RunTriage(incident: nat, inv: nat, outcome: TriageOutcome, now: nat) returns (claimed: bool)
      requires incident in state.incidents && inv !in state.invs
      modifies this
      ensures claimed <==> old(state).incidents[incident] == New
      ensures state == Apply(old(state), Triage(incident, inv, outcome, now))
    {
      if state.incidents[incident] != New { return false; }
      var invs, audit := state.invs, state.audit + [AuditRow(inv, TriageStarted)];
      var status := Triaging;
      match outcome {
        case AutoClose =>
          invs := invs[inv := Investigation(incident, false, Some(now), Idle, false)];
          status := Done;
          audit := audit + [AuditRow(inv, TriageAutoClose)];
        case TriageFails =>
          invs := invs[inv := Investigation(incident, false, Some(now), Idle, false)];
          status := Inconclusive;
          audit := audit + [AuditRow(inv, TriageFailed)];
        case Escalates =>
          invs := invs[inv := Investigation(incident, true, None, Idle, false)];
          audit := audit + [AuditRow(inv, TriageEscalated)];
      }
      state := state.(incidents := state.incidents[incident := status], invs := invs, audit := audit);
      claimed := true;
    }

    /** _claim_investigation: the pending flag, then the guarded status UPDATE. */
    method ClaimInvestigation(inv: nat, w: nat) returns (claimed: bool)
      requires w !in state.workers
      requires inv in state.invs ==> state.invs[inv].incident in state.incidents
      modifies this
      ensures claimed <==> Enabled(old(state), ClaimTier2(inv, w))
      ensures state == Apply(old(state), ClaimTier2(inv, w))
    {
      if inv !in state.invs || !state.invs[inv].tier2Pending { return false; }
      var c := state.invs[inv].incident;
      if state.incidents[c] != Triaging { return false; }
      state := state.(incidents := state.incidents[c := Investigating]);
      var row := state.invs[inv].(tier2Pending := false, thread := Running);
      state := state.(invs := state.invs[inv := row], workers := state.workers[w := Worker(inv, InGraph, false)]);
      state := state.(audit := state.audit + [AuditRow(inv, InvestigationStarted)]);
      claimed := true;
    }

    /** claim_resume_intent: row lock, existence check over the audit log, then the insert and the job. */
    method ClaimResumeIntent(inv: nat, approved: bool) returns (recorded: bool)
      modifies this
      ensures recorded <==> Enabled(old(state), Submit(inv, approved))
      ensures state == Apply(old(state), Submit(inv, approved))
    {
      if inv !in state.invs { return false; }
      var already := false;
      for n := 0 to |state.audit|
        invariant already <==> Count(state.audit[..n], inv, Decision) > 0
      {
        assert state.audit[..n + 1][..n] == state.audit[..n];
        if state.audit[n].inv == inv && state.audit[n].action.HumanDecision? { already := true; }
      }
      assert state.audit[..|state.audit|] == state.audit;
      if already { return false; }
      state := state.(audit := state.audit + [AuditRow(inv, HumanDecision(approved))]);
      state := state.(jobs := state.jobs + {Job(inv, approved)});
      recorded := true;
    }

    /** _claim_finalize and its loser's short-circuit. */
    method TryClaimFinalize(w: nat, now: nat) returns (won: bool)
      requires Enabled(state, ClaimFinalize(w, now))
      modifies this
      ensures won <==> old(state).invs[old(state).workers[w].inv].completedAt.None?
      ensures state == Apply(old(state), ClaimFinalize(w, now))
    {
      var k := state.workers[w];
      won := state.invs[k.inv].completedAt.None?;
      if won {
        state := state.(invs := state.invs[k.inv := state.invs[k.inv].(completedAt := Some(now))]);
        state := state.(workers := state.workers[w := k.(pc := Claimed(k.pc.outcome))]);
      } else {
        state := state.(workers := state.workers - {w});
      }
    }

    /** The verdict transaction behind a won claim. */
    method WriteVerdict(w: nat)
      requires Enabled(state, Finalize(w))
      requires state.invs[state.workers[w].inv].incident in state.incidents
      modifies this
      ensures state == Apply(old(state), Finalize(w))
    {
      var k := state.workers[w];
      var c := state.invs[k.inv].incident;
      match k.pc.outcome {
        case Verdict(written) =>
          state := state.(invs := state.invs[k.inv := state.invs[k.inv].(writebackSucceeded := written)]);
          state := state.(incidents := state.incidents[c := Done]);
          state := state.(audit := state.audit + [AuditRow(k.inv, InvestigationComplete)]);
        case NoVerdict =>
          state := state.(incidents := state.incidents[c := Inconclusive]);
          state := state.(audit := state.audit + [AuditRow(k.inv, InvestigationFailed)]);
      }
      state := state.(workers := state.workers - {w});
    }

    /** The approval node's flip and pause, on its first pass. */
    method PauseForApproval(w: nat)
      requires Enabled(state, Gate(w, true))
      modifies this
      ensures state == Apply(old(state), Gate(w, true))
    {
      var i := state.workers[w].inv;
      var c := state.invs[i].incident;
      if state.incidents[c] != AwaitingApproval {
        state := state.(incidents := state.incidents[c := AwaitingApproval]);
        state := state.(audit := state.audit + [AuditRow(i, ApprovalAwaited)]);
      }
      state := state.(invs := state.invs[i := state.invs[i].(thread := Paused)]);
      state := state.(workers := state.workers - {w});
    }
  }
}
