/** The investigation lifecycle as interleaved transactions of any number of workers. */
module Lifecycle {
  import opened Common

  datatype Status = New | Triaging | Investigating | AwaitingApproval | Done | Inconclusive

  datatype Action =
    | TriageStarted | TriageAutoClose | TriageEscalated | TriageFailed
    | InvestigationStarted | ApprovalAwaited | ApprovalReceived
    | HumanDecision(approved: bool)
    | InvestigationComplete | InvestigationFailed

  /** The audit rows a claim is made about. */
  datatype Kind = Start | Decision | Terminal | Awaited

  predicate Is(a: Action, k: Kind) {
    match k
    case Start => a.InvestigationStarted?
    case Decision => a.HumanDecision?
    case Terminal => a.TriageAutoClose? || a.TriageFailed? || a.InvestigationComplete? || a.InvestigationFailed?
    case Awaited => a.ApprovalAwaited?
  }

  datatype AuditRow = AuditRow(inv: nat, action: Action)

  /** The graph thread behind an investigation; its id column is set when it leaves Idle. */
  datatype Thread = Idle | Running | Paused

  datatype Investigation = Investigation(
    incident: nat, tier2Pending: bool, completedAt: Option<nat>, thread: Thread, writebackSucceeded: bool)

  datatype Mode = Auto | Approved | Rejected
  datatype Outcome = Verdict(written: bool) | NoVerdict

  /** Where a worker stands between two transactions. */
  datatype Pc = InGraph | AtWriteback(mode: Mode) | AtClaim(outcome: Outcome) | Claimed(outcome: Outcome)

  datatype Worker = Worker(inv: nat, pc: Pc, resumed: bool)

  datatype Job = Job(inv: nat, approved: bool)
  datatype ToolCall = ToolCall(inv: nat, mode: Mode)

  datatype State = State(
    incidents: map<nat, Status>, invs: map<nat, Investigation>, audit: seq<AuditRow>,
    workers: map<nat, Worker>, jobs: set<Job>, calls: set<ToolCall>)

  datatype TriageOutcome = AutoClose | TriageFails | Escalates

  datatype Event =
    | Ingest(incident: nat)
    | Triage(incident: nat, inv: nat, outcome: TriageOutcome, now: nat)
    | ClaimTier2(inv: nat, w: nat)
    | GraphFails(w: nat)
    | Gate(w: nat, needsHuman: bool)
    | Submit(inv: nat, approved: bool)
    | Resume(job: Job, w: nat, needsHuman: bool)
    | Writeback(w: nat, sends: bool, ok: bool, hasDraft: bool)
    | ClaimFinalize(w: nat, now: nat)
    | Finalize(w: nat)
    | Crash(w: nat)
    | CrashAtApproval(w: nat)

  // ------------------------------------------------------------------ transactions

  function Log(s: State, i: nat, a: Action): State {
    s.(audit := s.audit + [AuditRow(i, a)])
  }

  function Move(s: State, w: nat, pc: Pc): State
    requires w in s.workers
  {
    s.(workers := s.workers[w := s.workers[w].(pc := pc)])
  }

  function Leave(s: State, w: nat): State { s.(workers := s.workers - {w}) }

  function StatusOf(s: State, i: nat): Status
    requires i in s.invs && s.invs[i].incident in s.incidents
  {
    s.incidents[s.invs[i].incident]
  }

  function SetStatus(s: State, i: nat, status: Status): State
    requires i in s.invs
  {
    s.(incidents := s.incidents[s.invs[i].incident := status])
  }

  function SetThread(s: State, i: nat, t: Thread): State
    requires i in s.invs
  {
    s.(invs := s.invs[i := s.invs[i].(thread := t)])
  }

  function Count(audit: seq<AuditRow>, i: nat, k: Kind): nat {
    if audit == [] then 0
    else
      var n := |audit| - 1;
      Count(audit[..n], i, k) + if audit[n].inv == i && Is(audit[n].action, k) then 1 else 0
  }

  /** run_investigation's transaction: the claim `new -> triaging`, the new row, and one of three ends. */
  function DoTriage(s: State, incident: nat, i: nat, outcome: TriageOutcome, now: nat): State {
    var row := Investigation(incident, outcome.Escalates?, if outcome.Escalates? then None else Some(now), Idle, false);
    var s1 := Log(s.(invs := s.invs[i := row]), i, TriageStarted);
    match outcome
    case AutoClose => Log(s1.(incidents := s.incidents[incident := Done]), i, TriageAutoClose)
    case TriageFails => Log(s1.(incidents := s.incidents[incident := Inconclusive]), i, TriageFailed)
    case Escalates => Log(s1.(incidents := s.incidents[incident := Triaging]), i, TriageEscalated)
  }

  /** The approval node's UPDATE: flips any status but `awaiting_approval` itself. */
  function FlipToAwaiting(s: State, i: nat): State
    requires i in s.invs && s.invs[i].incident in s.incidents
  {
    if StatusOf(s, i) == AwaitingApproval then s else Log(SetStatus(s, i, AwaitingApproval), i, ApprovalAwaited)
  }

  predicate Enabled(s: State, e: Event) {
    match e
    case Ingest(c) => c !in s.incidents
    case Triage(c, i, _, _) => c in s.incidents && s.incidents[c] == New && i !in s.invs
    case ClaimTier2(i, w) =>
      && i in s.invs && s.invs[i].tier2Pending && w !in s.workers
      && s.invs[i].incident in s.incidents && StatusOf(s, i) == Triaging
    case GraphFails(w) =>
      w in s.workers && !s.workers[w].resumed && (s.workers[w].pc.InGraph? || s.workers[w].pc.AtWriteback?)
    case Gate(w, _) =>
      && w in s.workers && s.workers[w].pc.InGraph?
      && s.workers[w].inv in s.invs && s.invs[s.workers[w].inv].incident in s.incidents
    case Submit(i, _) => i in s.invs && Count(s.audit, i, Decision) == 0
    case Resume(job, w, _) =>
      && job in s.jobs && w !in s.workers && job.inv in s.invs && s.invs[job.inv].incident in s.incidents
      && !s.invs[job.inv].thread.Idle?
    case Writeback(w, _, _, _) => w in s.workers && s.workers[w].pc.AtWriteback? && s.workers[w].inv in s.invs
    case ClaimFinalize(w, _) => w in s.workers && s.workers[w].pc.AtClaim? && s.workers[w].inv in s.invs
    case Finalize(w) => w in s.workers && s.workers[w].pc.Claimed? && s.workers[w].inv in s.invs
    case Crash(w) => w in s.workers
    case CrashAtApproval(w) =>
      && w in s.workers && s.workers[w].resumed && s.workers[w].pc.AtWriteback? && s.workers[w].inv in s.invs
  }

  /** _claim_investigation. */
  function DoClaimTier2(s: State, i: nat, w: nat): State
    requires i in s.invs
  {
    var s1 := SetStatus(s, i, Investigating);
    Log(s1.(invs := s.invs[i := s.invs[i].(tier2Pending := false, thread := Running)],
            workers := s.workers[w := Worker(i, InGraph, false)]), i, InvestigationStarted)
  }

  /** await_approval_node on the first pass: the run either goes on or pauses and ends. */
  function DoGate(s: State, w: nat, needsHuman: bool): State
    requires Enabled(s, Gate(w, needsHuman))
  {
    var i := s.workers[w].inv;
    if needsHuman then Leave(SetThread(FlipToAwaiting(s, i), i, Paused), w)
    else Move(Log(s, i, ApprovalReceived), w, AtWriteback(Auto))
  }

  /** resume_investigation: the interrupted node runs again from its top (policy, flip), then takes
      the analyst's answer. */
  function DoResume(s: State, job: Job, w: nat, needsHuman: bool): State
    requires Enabled(s, Resume(job, w, needsHuman))
  {
    var i := job.inv;
    var s1 := SetThread(if needsHuman then FlipToAwaiting(s, i) else s, i, Running);
    var mode := if !needsHuman then Auto else if job.approved then Approved else Rejected;
    Log(s1.(workers := s.workers[w := Worker(i, AtWriteback(mode), true)]), i, ApprovalReceived)
  }

  /** A resumed worker crashes before the approval node's checkpoint: the thread is at its interrupt
      again, and a redelivered job can resume it once more. */
  function DoCrashAtApproval(s: State, w: nat): State
    requires Enabled(s, CrashAtApproval(w))
  {
    Leave(SetThread(s, s.workers[w].inv, Paused), w)
  }

  /** writeback_node: skipped when already succeeded or rejected. */
  function DoWriteback(s: State, w: nat, sends: bool, ok: bool, hasDraft: bool): State
    requires Enabled(s, Writeback(w, sends, ok, hasDraft))
  {
    var i, mode := s.workers[w].inv, s.workers[w].pc.mode;
    var done := s.invs[i].writebackSucceeded;
    var sent := !done && mode != Rejected && sends;
    var outcome := if hasDraft then Verdict(done || (sent && ok)) else NoVerdict;
    Move(if sent then s.(calls := s.calls + {ToolCall(i, mode)}) else s, w, AtClaim(outcome))
  }

  /** _claim_finalize: completed_at flips from NULL, or the loser leaves. */
  function DoClaimFinalize(s: State, w: nat, now: nat): State
    requires Enabled(s, ClaimFinalize(w, now))
  {
    var i := s.workers[w].inv;
    if s.invs[i].completedAt.Some? then Leave(s, w)
    else Move(s.(invs := s.invs[i := s.invs[i].(completedAt := Some(now))]), w, Claimed(s.workers[w].pc.outcome))
  }

  /** _finalize_done and the second half of _finalize_inconclusive. */
  function DoFinalize(s: State, w: nat): State
    requires Enabled(s, Finalize(w))
  {
    var i := s.workers[w].inv;
    match s.workers[w].pc.outcome
    case Verdict(written) =>
      Leave(Log(SetStatus(s.(invs := s.invs[i := s.invs[i].(writebackSucceeded := written)]), i, Done),
                i, InvestigationComplete), w)
    case NoVerdict => Leave(Log(SetStatus(s, i, Inconclusive), i, InvestigationFailed), w)
  }

  /** One committed transaction or step; an event whose guard fails changes nothing. */
  function Apply(s: State, e: Event): State {
    if !Enabled(s, e) then s
    else
      match e
      case Ingest(c) => s.(incidents := s.incidents[c := New])
      case Triage(c, i, outcome, now) => DoTriage(s, c, i, outcome, now)
      case ClaimTier2(i, w) => DoClaimTier2(s, i, w)
      case GraphFails(w) => Move(s, w, AtClaim(NoVerdict))
      case Gate(w, needsHuman) => DoGate(s, w, needsHuman)
      case Submit(i, approved) => Log(s, i, HumanDecision(approved)).(jobs := s.jobs + {Job(i, approved)})
      case Resume(job, w, needsHuman) => DoResume(s, job, w, needsHuman)
      case Writeback(w, sends, ok, hasDraft) => DoWriteback(s, w, sends, ok, hasDraft)
      case ClaimFinalize(w, now) => DoClaimFinalize(s, w, now)
      case Finalize(w) => DoFinalize(s, w)
      case Crash(w) => Leave(s, w)
      case CrashAtApproval(w) => DoCrashAtApproval(s, w)
  }

  const INIT := State(map[], map[], [], map[], {}, {})

  function Run(es: seq<Event>): State {
    if es == [] then INIT else Apply(Run(es[..|es| - 1]), es[|es| - 1])
  }

  // ------------------------------------------------------------------ the invariant

  predicate IsTerminal(st: Status) { st.Done? || st.Inconclusive? }

  /** What holds of one investigation row. */
  ghost predicate RowInv(s: State, i: nat)
    requires i in s.invs
  {
    var r := s.invs[i];
    && r.incident in s.incidents
    && StatusOf(s, i) != New
    && (r.tier2Pending ==> r.thread.Idle? && r.completedAt.None?)
    && (!r.thread.Idle? ==> StatusOf(s, i) != Triaging)
    && Count(s.audit, i, Start) == (if r.thread.Idle? then 0 else 1)
    && Count(s.audit, i, Decision) <= 1
    && Count(s.audit, i, Terminal) <= 1
    && (r.completedAt.None? ==> Count(s.audit, i, Terminal) == 0)
    && (IsTerminal(StatusOf(s, i)) ==> Count(s.audit, i, Terminal) == 1)
  }

  ghost predicate WorkerInv(s: State, w: nat)
    requires w in s.workers
  {
    var i := s.workers[w].inv;
    && i in s.invs
    && !s.invs[i].thread.Idle?
    && (s.workers[w].pc.Claimed? ==>
          && s.invs[i].completedAt.Some?
          && Count(s.audit, i, Terminal) == 0
          && forall v :: v in s.workers && s.workers[v].inv == i && s.workers[v].pc.Claimed? ==> v == w)
  }

  /** One investigation per incident, none for an incident nobody has claimed. */
  ghost predicate Unique(s: State) {
    && (forall i, j :: i in s.invs && j in s.invs && s.invs[i].incident == s.invs[j].incident ==> i == j)
    && (forall i, c :: i in s.invs && c in s.incidents && s.incidents[c] == New ==> s.invs[i].incident != c)
  }

  ghost predicate Rows(s: State) { forall i :: i in s.invs ==> RowInv(s, i) }

  ghost predicate Workers(s: State) { forall w :: w in s.workers ==> WorkerInv(s, w) }

  ghost predicate NoStrays(s: State) { forall i, k :: i !in s.invs ==> Count(s.audit, i, k) == 0 }

  ghost predicate Inv(s: State) { Unique(s) && Rows(s) && Workers(s) && NoStrays(s) }

  lemma CountLog(s: State, i: nat, a: Action)
    ensures forall j, k :: Count(Log(s, i, a).audit, j, k)
                           == Count(s.audit, j, k) + if j == i && Is(a, k) then 1 else 0
  {
    assert Log(s, i, a).audit[..|s.audit|] == s.audit;
  }

  /** Nothing about row j changed. */
  lemma RowFrame(s: State, s': State, j: nat)
    requires j in s.invs && j in s'.invs && RowInv(s, j)
    requires s'.invs[j] == s.invs[j] && s'.invs[j].incident in s'.incidents && StatusOf(s', j) == StatusOf(s, j)
    requires forall k :: k != Awaited ==> Count(s'.audit, j, k) == Count(s.audit, j, k)
    ensures RowInv(s', j)
  {
  }

  /** Nothing a worker relies on changed. */
  lemma WorkerFrame(s: State, s': State, w: nat)
    requires w in s.workers && w in s'.workers && s'.workers[w] == s.workers[w] && WorkerInv(s, w)
    requires s.workers[w].inv in s'.invs && !s'.invs[s.workers[w].inv].thread.Idle?
    requires s.workers[w].pc.Claimed? ==>
      && s'.invs[s.workers[w].inv].completedAt.Some?
      && Count(s'.audit, s.workers[w].inv, Terminal) == Count(s.audit, s.workers[w].inv, Terminal)
    requires forall v :: v in s'.workers && s'.workers[v].pc.Claimed? ==>
      v in s.workers && s.workers[v] == s'.workers[v]
    ensures WorkerInv(s', w)
  {
  }

  lemma TriageCounts(s: State, c: nat, i: nat, outcome: TriageOutcome, now: nat)
    requires Enabled(s, Triage(c, i, outcome, now))
    ensures forall j, k :: Count(DoTriage(s, c, i, outcome, now).audit, j, k)
                           == Count(s.audit, j, k) + if j == i && k == Terminal && !outcome.Escalates? then 1 else 0
  {
    var started := Log(s, i, TriageStarted);
    var a := match outcome
             case AutoClose => TriageAutoClose
             case TriageFails => TriageFailed
             case Escalates => TriageEscalated;
    CountLog(s, i, TriageStarted);
    CountLog(started, i, a);
    assert DoTriage(s, c, i, outcome, now).audit == Log(started, i, a).audit;
  }

  lemma TriageRows(s: State, s': State, c: nat, i: nat, row: Investigation, st: Status)
    requires Inv(s) && c in s.incidents && s.incidents[c] == New && i !in s.invs
    requires row.incident == c && row.thread.Idle?
    requires s'.invs == s.invs[i := row] && s'.incidents == s.incidents[c := st] && s'.workers == s.workers
    requires if row.tier2Pending then st == Triaging && row.completedAt.None?
             else IsTerminal(st) && row.completedAt.Some?
    requires forall j, k :: Count(s'.audit, j, k)
                            == Count(s.audit, j, k) + if j == i && k == Terminal && IsTerminal(st) then 1 else 0
    ensures Inv(s')
  {
    assert RowInv(s', i);
    forall j | j in s'.invs && j != i ensures RowInv(s', j) { RowFrame(s, s', j); }
    TriageWorkers(s, s', i);
    assert NoStrays(s');
  }

  lemma TriageWorkers(s: State, s': State, i: nat)
    requires Workers(s) && i !in s.invs && i in s'.invs && s'.invs == s.invs[i := s'.invs[i]] && s'.workers == s.workers
    requires forall j :: j != i ==> Count(s'.audit, j, Terminal) == Count(s.audit, j, Terminal)
    ensures Workers(s')
  {
    forall w | w in s'.workers ensures WorkerInv(s', w) { assert WorkerInv(s, w); WorkerFrame(s, s', w); }
  }

  lemma InvTriage(s: State, c: nat, i: nat, outcome: TriageOutcome, now: nat)
    requires Inv(s) && Enabled(s, Triage(c, i, outcome, now))
    ensures Inv(DoTriage(s, c, i, outcome, now))
  {
    var s' := DoTriage(s, c, i, outcome, now);
    TriageCounts(s, c, i, outcome, now);
    TriageRows(s, s', c, i, s'.invs[i], s'.incidents[c]);
  }

  lemma ClaimRows(s: State, s': State, i: nat, w: nat, row: Investigation)
    requires Inv(s) && i in s.invs && s.invs[i].tier2Pending && w !in s.workers
    requires row == s.invs[i].(tier2Pending := false, thread := Running)
    requires s'.invs == s.invs[i := row] && s'.incidents == s.incidents[row.incident := Investigating]
    requires s'.workers == s.workers[w := Worker(i, InGraph, false)]
    requires forall j, k :: Count(s'.audit, j, k) == Count(s.audit, j, k) + if j == i && k == Start then 1 else 0
    ensures Inv(s')
  {
    assert RowInv(s, i) && RowInv(s', i);
    assert Unique(s') && NoStrays(s');
    forall j | j in s'.invs && j != i ensures RowInv(s', j) { RowFrame(s, s', j); }
    ClaimWorkers(s, s', i, w);
  }

  lemma ClaimWorkers(s: State, s': State, i: nat, w: nat)
    requires Workers(s) && i in s.invs && w !in s.workers
    requires i in s'.invs && s'.invs == s.invs[i := s'.invs[i]] && s'.invs[i].completedAt == s.invs[i].completedAt
    requires !s'.invs[i].thread.Idle? && s'.workers == s.workers[w := Worker(i, InGraph, false)]
    requires forall j :: Count(s'.audit, j, Terminal) == Count(s.audit, j, Terminal)
    ensures Workers(s')
  {
    forall v | v in s.workers ensures WorkerInv(s', v) { assert WorkerInv(s, v); WorkerFrame(s, s', v); }
    assert WorkerInv(s', w);
  }

  lemma InvClaimTier2(s: State, i: nat, w: nat)
    requires Inv(s) && Enabled(s, ClaimTier2(i, w))
    ensures Inv(DoClaimTier2(s, i, w))
  {
    var s' := DoClaimTier2(s, i, w);
    CountLog(s, i, InvestigationStarted);
    assert s'.audit == Log(s, i, InvestigationStarted).audit;
    ClaimRows(s, s', i, w, s'.invs[i]);
  }

  lemma InvMove(s: State, w: nat, pc: Pc)
    requires Inv(s) && w in s.workers && !pc.Claimed?
    ensures Inv(Move(s, w, pc))
  {
    var s' := Move(s, w, pc);
    forall v | v in s'.workers ensures WorkerInv(s', v) { assert WorkerInv(s, v); }
    forall j | j in s'.invs ensures RowInv(s', j) { assert RowInv(s, j); }
  }

  lemma InvLeave(s: State, w: nat)
    requires Inv(s)
    ensures Inv(Leave(s, w))
  {
    var s' := Leave(s, w);
    forall v | v in s'.workers ensures WorkerInv(s', v) { assert WorkerInv(s, v); }
    forall j | j in s'.invs ensures RowInv(s', j) { assert RowInv(s, j); }
  }

  /** Logging a row that is neither a start, a decision nor a terminal row. */
  lemma InvLogOther(s: State, i: nat, a: Action)
    requires Inv(s) && i in s.invs && (a.ApprovalReceived? || a.ApprovalAwaited?)
    ensures Inv(Log(s, i, a))
  {
    var s' := Log(s, i, a);
    forall v | v in s'.workers ensures WorkerInv(s', v) { LogOtherWorker(s, i, a, v); }
    forall j | j in s'.invs ensures RowInv(s', j) { LogOtherRow(s, i, a, j); }
    CountLog(s, i, a);
  }

  lemma LogOtherRow(s: State, i: nat, a: Action, j: nat)
    requires j in s.invs && RowInv(s, j) && (a.ApprovalReceived? || a.ApprovalAwaited?)
    ensures RowInv(Log(s, i, a), j)
  {
    CountLog(s, i, a);
  }

  lemma LogOtherWorker(s: State, i: nat, a: Action, w: nat)
    requires w in s.workers && WorkerInv(s, w) && (a.ApprovalReceived? || a.ApprovalAwaited?)
    ensures WorkerInv(Log(s, i, a), w)
  {
    CountLog(s, i, a);
  }

  lemma InvFlip(s: State, i: nat)
    requires Inv(s) && i in s.invs && !s.invs[i].thread.Idle? && s.invs[i].incident in s.incidents
    ensures Inv(FlipToAwaiting(s, i))
  {
    if StatusOf(s, i) != AwaitingApproval {
      var s' := SetStatus(s, i, AwaitingApproval);
      assert RowInv(s, i);
      forall v | v in s'.workers ensures WorkerInv(s', v) { assert WorkerInv(s, v); }
      forall j | j in s'.invs ensures RowInv(s', j) { assert RowInv(s, j); }
      InvLogOther(s', i, ApprovalAwaited);
    }
  }

  lemma InvThread(s: State, i: nat, t: Thread)
    requires Inv(s) && i in s.invs && !s.invs[i].thread.Idle? && !t.Idle?
    ensures Inv(SetThread(s, i, t))
  {
    var s' := SetThread(s, i, t);
    assert RowInv(s, i);
    forall v | v in s'.workers ensures WorkerInv(s', v) { assert WorkerInv(s, v); }
    forall j | j in s'.invs ensures RowInv(s', j) { assert RowInv(s, j); }
  }

  lemma InvGate(s: State, w: nat, needsHuman: bool)
    requires Inv(s) && Enabled(s, Gate(w, needsHuman))
    ensures Inv(DoGate(s, w, needsHuman))
  {
    var i := s.workers[w].inv;
    assert WorkerInv(s, w);
    if needsHuman {
      InvFlip(s, i);
      InvThread(FlipToAwaiting(s, i), i, Paused);
      InvLeave(SetThread(FlipToAwaiting(s, i), i, Paused), w);
    } else {
      InvLogOther(s, i, ApprovalReceived);
      InvMove(Log(s, i, ApprovalReceived), w, AtWriteback(Auto));
    }
  }

  lemma InvSubmit(s: State, i: nat, approved: bool)
    requires Inv(s) && Enabled(s, Submit(i, approved))
    ensures Inv(Apply(s, Submit(i, approved)))
  {
    var s' := Apply(s, Submit(i, approved));
    CountLog(s, i, HumanDecision(approved));
    forall v | v in s'.workers ensures WorkerInv(s', v) { assert WorkerInv(s, v); }
    forall j | j in s'.invs ensures RowInv(s', j) { assert RowInv(s, j); }
  }

  lemma InvNewWorker(s: State, w: nat, i: nat, mode: Mode)
    requires Inv(s) && w !in s.workers && i in s.invs && !s.invs[i].thread.Idle?
    ensures Inv(s.(workers := s.workers[w := Worker(i, AtWriteback(mode), true)]))
  {
    var s' := s.(workers := s.workers[w := Worker(i, AtWriteback(mode), true)]);
    forall j | j in s'.invs ensures RowInv(s', j) { RowFrame(s, s', j); }
    forall v | v in s'.workers ensures WorkerInv(s', v) { if v != w { WorkerFrame(s, s', v); } }
  }

  lemma InvResume(s: State, job: Job, w: nat, needsHuman: bool)
    requires Inv(s) && Enabled(s, Resume(job, w, needsHuman))
    ensures Inv(DoResume(s, job, w, needsHuman))
  {
    var i := job.inv;
    var s0 := if needsHuman then FlipToAwaiting(s, i) else s;
    if needsHuman { InvFlip(s, i); }
    InvThread(s0, i, Running);
    var s1 := SetThread(s0, i, Running);
    var mode := if !needsHuman then Auto else if job.approved then Approved else Rejected;
    InvNewWorker(s1, w, i, mode);
    InvLogOther(s1.(workers := s1.workers[w := Worker(i, AtWriteback(mode), true)]), i, ApprovalReceived);
  }

  lemma ClaimedWorkers(s: State, s': State, w: nat)
    requires Workers(s) && w in s.workers && s.workers[w].pc.AtClaim? && s.workers[w].inv in s.invs
    requires RowInv(s, s.workers[w].inv) && s.invs[s.workers[w].inv].completedAt.None?
    requires s'.workers == s.workers[w := s.workers[w].(pc := Claimed(s.workers[w].pc.outcome))]
    requires s'.audit == s.audit && s'.invs.Keys == s.invs.Keys
    requires forall j :: j in s.invs ==>
      && s'.invs[j].thread == s.invs[j].thread
      && (s.invs[j].completedAt.Some? || j == s.workers[w].inv ==> s'.invs[j].completedAt.Some?)
    ensures Workers(s')
  {
    forall v | v in s'.workers ensures WorkerInv(s', v) { assert WorkerInv(s, v); }
  }

  lemma InvClaimFinalize(s: State, w: nat, now: nat)
    requires Inv(s) && Enabled(s, ClaimFinalize(w, now))
    ensures Inv(DoClaimFinalize(s, w, now))
  {
    var i := s.workers[w].inv;
    assert RowInv(s, i) && WorkerInv(s, w);
    if s.invs[i].completedAt.Some? {
      InvLeave(s, w);
    } else {
      var s' := DoClaimFinalize(s, w, now);
      ClaimedWorkers(s, s', w);
      forall j | j in s'.invs ensures RowInv(s', j) {
        if j != i { RowFrame(s, s', j); }
      }
      assert Unique(s');
    }
  }

  lemma FinalizeRows(s: State, s': State, w: nat, row: Investigation, st: Status)
    requires Inv(s) && w in s.workers && s.workers[w].pc.Claimed?
    requires s'.workers == s.workers - {w}
    requires var i := s.workers[w].inv;
             && i in s.invs && row == s.invs[i].(writebackSucceeded := row.writebackSucceeded)
             && s'.invs == s.invs[i := row] && s'.incidents == s.incidents[row.incident := st] && IsTerminal(st)
             && forall j, k :: Count(s'.audit, j, k) == Count(s.audit, j, k) + if j == i && k == Terminal then 1 else 0
    ensures Inv(s')
  {
    var i := s.workers[w].inv;
    assert RowInv(s, i) && WorkerInv(s, w);
    assert RowInv(s', i);
    forall j | j in s'.invs && j != i ensures RowInv(s', j) { RowFrame(s, s', j); }
    FinalizeWorkers(s, s', w);
    assert NoStrays(s');
  }

  lemma FinalizeWorkers(s: State, s': State, w: nat)
    requires Workers(s) && w in s.workers && s.workers[w].pc.Claimed? && s'.workers == s.workers - {w}
    requires var i := s.workers[w].inv;
             && i in s.invs && i in s'.invs && s'.invs == s.invs[i := s'.invs[i]]
             && s'.invs[i].thread == s.invs[i].thread && s'.invs[i].completedAt == s.invs[i].completedAt
             && forall j :: j != i ==> Count(s'.audit, j, Terminal) == Count(s.audit, j, Terminal)
    ensures Workers(s')
  {
    assert WorkerInv(s, w);
    forall v | v in s'.workers ensures WorkerInv(s', v) { assert WorkerInv(s, v); WorkerFrame(s, s', v); }
  }

  lemma InvFinalize(s: State, w: nat)
    requires Inv(s) && Enabled(s, Finalize(w))
    ensures Inv(DoFinalize(s, w))
  {
    var i, s' := s.workers[w].inv, DoFinalize(s, w);
    FinalizeCounts(s, w);
    assert RowInv(s, i);
    FinalizeRows(s, s', w, s'.invs[i], s'.incidents[s.invs[i].incident]);
  }

  lemma FinalizeCounts(s: State, w: nat)
    requires Enabled(s, Finalize(w))
    ensures forall j, k :: Count(DoFinalize(s, w).audit, j, k)
                           == Count(s.audit, j, k) + if j == s.workers[w].inv && k == Terminal then 1 else 0
  {
    var i := s.workers[w].inv;
    var a := if s.workers[w].pc.outcome.Verdict? then InvestigationComplete else InvestigationFailed;
    CountLog(s, i, a);
    assert DoFinalize(s, w).audit == Log(s, i, a).audit;
  }

  lemma InvIngest(s: State, c: nat)
    requires Inv(s) && c !in s.incidents
    ensures Inv(s.(incidents := s.incidents[c := New]))
  {
    var s' := s.(incidents := s.incidents[c := New]);
    forall j | j in s'.invs ensures RowInv(s', j) && s'.invs[j].incident != c { assert RowInv(s, j); }
    forall v | v in s'.workers ensures WorkerInv(s', v) { assert WorkerInv(s, v); }
  }

  lemma InvWriteback(s: State, w: nat, sends: bool, ok: bool, hasDraft: bool)
    requires Inv(s) && Enabled(s, Writeback(w, sends, ok, hasDraft))
    ensures Inv(DoWriteback(s, w, sends, ok, hasDraft))
  {
    var s' := DoWriteback(s, w, sends, ok, hasDraft);
    var s1 := s.(calls := s'.calls);
    forall j | j in s1.invs ensures RowInv(s1, j) { assert RowInv(s, j); }
    forall v | v in s1.workers ensures WorkerInv(s1, v) { assert WorkerInv(s, v); }
    InvMove(s1, w, s'.workers[w].pc);
  }

  lemma InvCrashAtApproval(s: State, w: nat)
    requires Inv(s) && Enabled(s, CrashAtApproval(w))
    ensures Inv(DoCrashAtApproval(s, w))
  {
    assert WorkerInv(s, w);
    InvThread(s, s.workers[w].inv, Paused);
    InvLeave(SetThread(s, s.workers[w].inv, Paused), w);
  }

  lemma InvStep(s: State, e: Event)
    requires Inv(s)
    ensures Inv(Apply(s, e))
  {
    if Enabled(s, e) {
      match e
      case Ingest(c) => InvIngest(s, c);
      case Triage(c, i, outcome, now) => InvTriage(s, c, i, outcome, now);
      case ClaimTier2(i, w) => InvClaimTier2(s, i, w);
      case GraphFails(w) => InvMove(s, w, AtClaim(NoVerdict));
      case Gate(w, needsHuman) => InvGate(s, w, needsHuman);
      case Submit(i, approved) => InvSubmit(s, i, approved);
      case Resume(job, w, needsHuman) => InvResume(s, job, w, needsHuman);
      case Writeback(w, sends, ok, hasDraft) => InvWriteback(s, w, sends, ok, hasDraft);
      case ClaimFinalize(w, now) => InvClaimFinalize(s, w, now);
      case Finalize(w) => InvFinalize(s, w);
      case Crash(w) => InvLeave(s, w);
      case CrashAtApproval(w) => InvCrashAtApproval(s, w);
    }
  }

  lemma {:induction false} RunInv(es: seq<Event>)
    ensures Inv(Run(es))
  {
    if es != [] {
      RunInv(es[..|es| - 1]);
      InvStep(Run(es[..|es| - 1]), es[|es| - 1]);
    }
  }
}
