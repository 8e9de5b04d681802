/** Which tool calls a run makes and when a writeback counts as succeeded, told by the run's events alone. */
module Deliveries {
  import opened Common
  import opened Lifecycle
  import opened LifecycleEvents
  import opened Writebacks

  /** Worker w lives on from step a through the first n steps. */
  ghost predicate Stays(es: seq<Event>, w: nat, a: nat, n: nat) {
    a < n <= |es| && forall c :: a < c <= n ==> w in Run(es[..c]).workers
  }

  lemma SameStays(es: seq<Event>, m: nat, w: nat, a: nat, n: nat)
    requires n <= m <= |es|
    ensures Stays(es[..m], w, a, n) <==> Stays(es, w, a, n)
  {
    forall c | a < c <= n ensures es[..m][..c] == es[..c] { }
  }

  lemma StaysStep(es: seq<Event>, w: nat, a: nat, n: nat)
    requires n < |es| && a < n
    ensures Stays(es, w, a, n + 1) <==> Stays(es, w, a, n) && w in Run(es[..n + 1]).workers
  {
  }

  // ------------------------------------------------------------ how a worker was let through

  /** The event lets worker w pass the approval node of i: the policy asks for nobody, or the analyst's
      answer is read. */
  predicate Admits(s: State, e: Event, w: nat, i: nat, mode: Mode) {
    && Enabled(s, e)
    && match e
       case Gate(v, needsHuman) => v == w && !needsHuman && s.workers[w].inv == i && mode == Auto
       case Resume(job, v, needsHuman) =>
         && v == w && job.inv == i
         && (mode == Auto <==> !needsHuman)
         && (mode == Approved <==> needsHuman && job.approved)
       case _ => false
  }

  predicate AdmitsAt(es: seq<Event>, w: nat, i: nat, mode: Mode, a: nat) {
    a < |es| && Admits(Run(es[..a]), es[a], w, i, mode)
  }

  /** The living worker w was let through for i in this mode. */
  predicate AdmittedIn(es: seq<Event>, w: nat, i: nat, mode: Mode) {
    es != [] && var init, last := es[..|es| - 1], es[|es| - 1];
                w in Run(es).workers && (Admits(Run(init), last, w, i, mode) || AdmittedIn(init, w, i, mode))
  }

  /** What the place of worker w says about how it got there. */
  ghost predicate PlaceTold(s: State, w: nat, i: nat, mode: Mode, admitted: bool) {
    if w in s.workers && s.workers[w].inv == i then
      && (s.workers[w].pc.AtWriteback? ==> (admitted <==> s.workers[w].pc.mode == mode))
      && (s.workers[w].pc.InGraph? ==> !admitted)
    else !admitted
  }

  lemma PlaceStep(s: State, e: Event, w: nat, i: nat, mode: Mode, admitted: bool)
    requires Enabled(s, e) && PlaceTold(s, w, i, mode, admitted)
    ensures PlaceTold(Apply(s, e), w, i, mode, w in Apply(s, e).workers && (Admits(s, e, w, i, mode) || admitted))
  {
  }

  lemma {:induction false} PlacesAreTold(es: seq<Event>, w: nat, i: nat, mode: Mode)
    ensures PlaceTold(Run(es), w, i, mode, AdmittedIn(es, w, i, mode))
  {
    if es != [] {
      var init, last := es[..|es| - 1], es[|es| - 1];
      PlacesAreTold(init, w, i, mode);
      if Enabled(Run(init), last) { PlaceStep(Run(init), last, w, i, mode, AdmittedIn(init, w, i, mode)); }
    }
  }

  lemma {:induction false} AdmittedMeans(es: seq<Event>, w: nat, i: nat, mode: Mode)
    ensures AdmittedIn(es, w, i, mode)
            <==> exists a: nat :: AdmitsAt(es, w, i, mode, a) && Stays(es, w, a, |es|)
  {
    if es != [] {
      var n := |es| - 1;
      AdmittedMeans(es[..n], w, i, mode);
      assert es[..|es|] == es;
      forall a: nat | a < n
        ensures AdmitsAt(es[..n], w, i, mode, a) && Stays(es[..n], w, a, n) && w in Run(es).workers
                <==> AdmitsAt(es, w, i, mode, a) && Stays(es, w, a, |es|)
      {
        assert es[..n][..a] == es[..a];
        SameStays(es, n, w, a, n);
        StaysStep(es, w, a, n);
      }
      AdmittedLast(es, w, i, mode);
    }
  }

  lemma AdmittedLast(es: seq<Event>, w: nat, i: nat, mode: Mode)
    requires es != []
    ensures var n := |es| - 1;
            AdmitsAt(es, w, i, mode, n) && Stays(es, w, n, |es|)
            <==> Admits(Run(es[..n]), es[n], w, i, mode) && w in Run(es).workers
  {
    assert es[..|es|] == es;
  }

  // -------------------------------------------------------------------- tool calls

  /** A writeback step of i calls its tools: let through in a mode other than a rejection, and not written
      back before. */
  predicate CallsTools(s: State, e: Event, i: nat, mode: Mode) {
    Delivers(s, e, i) && s.workers[e.w].pc.mode == mode && mode != Rejected && !s.invs[i].writebackSucceeded
  }

  predicate CalledIn(es: seq<Event>, i: nat, mode: Mode) {
    es != [] && var init, last := es[..|es| - 1], es[|es| - 1];
                CalledIn(init, i, mode) || CallsTools(Run(init), last, i, mode)
  }

  lemma CallStep(s: State, e: Event, i: nat, mode: Mode)
    ensures ToolCall(i, mode) in Apply(s, e).calls <==> ToolCall(i, mode) in s.calls || CallsTools(s, e, i, mode)
  {
  }

  lemma {:induction false} CallsAreCalled(es: seq<Event>, i: nat, mode: Mode)
    ensures ToolCall(i, mode) in Run(es).calls <==> CalledIn(es, i, mode)
  {
    if es != [] {
      CallsAreCalled(es[..|es| - 1], i, mode);
      CallStep(Run(es[..|es| - 1]), es[|es| - 1], i, mode);
    }
  }

  /** Step b is a writeback step of a worker that step a let through for i in this mode, the worker has lived
      on in between, and i has not been written back before. */
  ghost predicate CallsAt(es: seq<Event>, i: nat, mode: Mode, a: nat, b: nat) {
    && b < |es| && es[b].Writeback? && es[b].sends
    && Enabled(Run(es[..b]), es[b])
    && AdmitsAt(es, es[b].w, i, mode, a) && Stays(es, es[b].w, a, b)
    && i in Run(es[..b]).invs && !Run(es[..b]).invs[i].writebackSucceeded
  }

  ghost predicate CallsBefore(es: seq<Event>, i: nat, mode: Mode, b: nat) {
    exists a: nat :: CallsAt(es, i, mode, a, b)
  }

  lemma CallsMean(es: seq<Event>, i: nat, mode: Mode, b: nat)
    requires b < |es| && mode != Rejected
    ensures CallsBefore(es, i, mode, b) <==> CallsTools(Run(es[..b]), es[b], i, mode)
  {
    var s, e := Run(es[..b]), es[b];
    if e.Writeback? && e.sends && Enabled(s, e) {
      PlacesAreTold(es[..b], e.w, i, mode);
      AdmittedMeans(es[..b], e.w, i, mode);
      forall a: nat | a < b
        ensures AdmitsAt(es[..b], e.w, i, mode, a) && Stays(es[..b], e.w, a, b)
                <==> AdmitsAt(es, e.w, i, mode, a) && Stays(es, e.w, a, b)
      {
        assert es[..b][..a] == es[..a];
        SameStays(es, b, e.w, a, b);
      }
      if AdmittedIn(es[..b], e.w, i, mode) && i in s.invs && !s.invs[i].writebackSucceeded {
        var a: nat :| AdmitsAt(es[..b], e.w, i, mode, a) && Stays(es[..b], e.w, a, b);
        assert CallsAt(es, i, mode, a, b);
      }
    }
  }

  predicate CallsToolsAt(es: seq<Event>, i: nat, mode: Mode, b: nat) {
    b < |es| && CallsTools(Run(es[..b]), es[b], i, mode)
  }

  lemma SameCalls(es: seq<Event>, i: nat, mode: Mode, n: nat, b: nat)
    requires b < n <= |es|
    ensures CallsToolsAt(es[..n], i, mode, b) == CallsToolsAt(es, i, mode, b)
  {
    assert es[..n][..b] == es[..b] && es[..n][b] == es[b];
  }

  lemma {:induction false} CalledMeans(es: seq<Event>, i: nat, mode: Mode)
    ensures CalledIn(es, i, mode) <==> exists b: nat :: CallsToolsAt(es, i, mode, b)
  {
    if es != [] {
      var n := |es| - 1;
      CalledMeans(es[..n], i, mode);
      forall b: nat | b < n ensures CallsToolsAt(es[..n], i, mode, b) == CallsToolsAt(es, i, mode, b) {
        SameCalls(es, i, mode, n, b);
      }
      assert CallsToolsAt(es, i, mode, n) == CallsTools(Run(es[..n]), es[n], i, mode);
    }
  }

  /** In every run, disciplined or not: a tool is called for i in a mode if and only if some worker that was
      let through in that mode, and is no rejection, came alive to a writeback step that goes as far as its
      tools while i was not written back. Who lets through, and in which mode, is read off the gate and
      resume events. */
  lemma CalledIff(es: seq<Event>, i: nat, mode: Mode)
    ensures ToolCall(i, mode) in Run(es).calls
            <==> mode != Rejected && exists b: nat :: CallsBefore(es, i, mode, b)
  {
    CallsAreCalled(es, i, mode);
    CalledMeans(es, i, mode);
    if mode != Rejected {
      forall b: nat ensures CallsBefore(es, i, mode, b) <==> CallsToolsAt(es, i, mode, b) {
        if b < |es| { CallsMean(es, i, mode, b); }
      }
    }
  }

  // ------------------------------------------------------------------ success

  /** Worker w of i reaches its tools, all of them answer ok, and there is a draft to finalize. */
  predicate WritesOk(s: State, e: Event, w: nat, i: nat) {
    && e.Writeback? && e.w == w && e.sends && e.ok && e.hasDraft && Enabled(s, e)
    && s.workers[w].inv == i && s.workers[w].pc.mode != Rejected && !s.invs[i].writebackSucceeded
  }

  predicate Finalizes(s: State, e: Event, w: nat, i: nat) {
    e == Finalize(w) && Enabled(s, e) && s.workers[w].inv == i
  }

  /** The living worker w has written i back. */
  predicate WroteIn(es: seq<Event>, w: nat, i: nat) {
    es != [] && var init, last := es[..|es| - 1], es[|es| - 1];
                w in Run(es).workers && (WritesOk(Run(init), last, w, i) || WroteIn(init, w, i))
  }

  /** A worker that has written i back has finalized it. */
  predicate SucceededIn(es: seq<Event>, i: nat) {
    es != [] && var init, last := es[..|es| - 1], es[|es| - 1];
                SucceededIn(init, i)
                || (last.Finalize? && Finalizes(Run(init), last, last.w, i) && WroteIn(init, last.w, i))
  }

  /** What the place of worker w says about its writeback. */
  ghost predicate WriteTold(s: State, w: nat, i: nat, wrote: bool) {
    if w in s.workers && s.workers[w].inv == i && i in s.invs then
      match s.workers[w].pc
      case AtClaim(Verdict(b)) => (wrote ==> b) && (b ==> wrote || s.invs[i].completedAt.Some?)
      case Claimed(Verdict(b)) => b == wrote
      case _ => !wrote
    else !wrote
  }

  ghost predicate FlagTold(s: State, i: nat, succeeded: bool) {
    if i in s.invs then
      && s.invs[i].writebackSucceeded == succeeded
      && (succeeded ==> s.invs[i].completedAt.Some? && Count(s.audit, i, Terminal) > 0)
    else !succeeded
  }

  lemma WriteStep(s: State, e: Event, w: nat, i: nat, wrote: bool)
    requires Workers(s) && Enabled(s, e) && WriteTold(s, w, i, wrote)
    requires i in s.invs && s.invs[i].writebackSucceeded ==> s.invs[i].completedAt.Some?
    ensures WriteTold(Apply(s, e), w, i, w in Apply(s, e).workers && (WritesOk(s, e, w, i) || wrote))
  {
    if w in s.workers { assert WorkerInv(s, w); }
  }

  lemma FlagStep(s: State, e: Event, i: nat, succeeded: bool, wrote: bool)
    requires Inv(s) && Enabled(s, e) && FlagTold(s, i, succeeded)
    requires e.Finalize? ==> WriteTold(s, e.w, i, wrote)
    ensures FlagTold(Apply(s, e), i, succeeded || (e.Finalize? && Finalizes(s, e, e.w, i) && wrote))
  {
    if e.Finalize? {
      FinalizeFlag(s, e.w, i, succeeded, wrote);
    } else {
      CountAfter(s, e, i, Terminal);
      OtherFlag(s, e, i);
    }
  }

  lemma OtherFlag(s: State, e: Event, i: nat)
    requires Enabled(s, e) && !e.Finalize?
    ensures i in Apply(s, e).invs ==> if i in s.invs then
              && Apply(s, e).invs[i].writebackSucceeded == s.invs[i].writebackSucceeded
              && (s.invs[i].completedAt.Some? ==> Apply(s, e).invs[i].completedAt.Some?)
            else !Apply(s, e).invs[i].writebackSucceeded
    ensures i in s.invs ==> i in Apply(s, e).invs
  {
  }

  lemma FinalizeFlag(s: State, w: nat, i: nat, succeeded: bool, wrote: bool)
    requires Workers(s) && Enabled(s, Finalize(w)) && FlagTold(s, i, succeeded) && WriteTold(s, w, i, wrote)
    ensures FlagTold(Apply(s, Finalize(w)), i, succeeded || (s.workers[w].inv == i && wrote))
  {
    assert WorkerInv(s, w);
    FinalizeCounts(s, w);
  }

  lemma {:induction false} RunsAreTold(es: seq<Event>, w: nat, i: nat)
    ensures WriteTold(Run(es), w, i, WroteIn(es, w, i)) && FlagTold(Run(es), i, SucceededIn(es, i))
  {
    if es != [] {
      var init, last := es[..|es| - 1], es[|es| - 1];
      RunsAreTold(init, w, i);
      RunInv(init);
      if Enabled(Run(init), last) {
        WriteStep(Run(init), last, w, i, WroteIn(init, w, i));
        if last.Finalize? { RunsAreTold(init, last.w, i); }
        FlagStep(Run(init), last, i, SucceededIn(init, i), last.Finalize? && WroteIn(init, last.w, i));
      }
    }
  }

  predicate WritesOkAt(es: seq<Event>, w: nat, i: nat, a: nat) {
    a < |es| && WritesOk(Run(es[..a]), es[a], w, i)
  }

  predicate FinalizesAt(es: seq<Event>, w: nat, i: nat, b: nat) {
    b < |es| && Finalizes(Run(es[..b]), es[b], w, i)
  }

  lemma {:induction false} WroteMeans(es: seq<Event>, w: nat, i: nat)
    ensures WroteIn(es, w, i) <==> exists a: nat :: WritesOkAt(es, w, i, a) && Stays(es, w, a, |es|)
  {
    if es != [] {
      var n := |es| - 1;
      WroteMeans(es[..n], w, i);
      assert es[..|es|] == es;
      forall a: nat | a < n
        ensures WritesOkAt(es[..n], w, i, a) && Stays(es[..n], w, a, n) && w in Run(es).workers
                <==> WritesOkAt(es, w, i, a) && Stays(es, w, a, |es|)
      {
        assert es[..n][..a] == es[..a];
        SameStays(es, n, w, a, n);
        StaysStep(es, w, a, n);
      }
      WroteLast(es, w, i);
    }
  }

  lemma WroteLast(es: seq<Event>, w: nat, i: nat)
    requires es != []
    ensures var n := |es| - 1;
            WritesOkAt(es, w, i, n) && Stays(es, w, n, |es|)
            <==> WritesOk(Run(es[..n]), es[n], w, i) && w in Run(es).workers
  {
    assert es[..|es|] == es;
  }

  /** Worker w writes i back at step a and finalizes it at step b, alive in between. */
  ghost predicate SucceedsAt(es: seq<Event>, w: nat, i: nat, a: nat, b: nat) {
    WritesOkAt(es, w, i, a) && Stays(es, w, a, b) && FinalizesAt(es, w, i, b)
  }

  ghost predicate SucceedsBefore(es: seq<Event>, i: nat, b: nat) {
    exists w: nat, a: nat :: SucceedsAt(es, w, i, a, b)
  }

  lemma SucceedsMeans(es: seq<Event>, i: nat, b: nat)
    requires b < |es|
    ensures SucceedsBefore(es, i, b)
            <==> es[b].Finalize? && Finalizes(Run(es[..b]), es[b], es[b].w, i) && WroteIn(es[..b], es[b].w, i)
  {
    if es[b].Finalize? {
      var w := es[b].w;
      WroteMeans(es[..b], w, i);
      forall a: nat | a < b
        ensures WritesOkAt(es[..b], w, i, a) && Stays(es[..b], w, a, b)
                <==> WritesOkAt(es, w, i, a) && Stays(es, w, a, b)
      {
        assert es[..b][..a] == es[..a];
        SameStays(es, b, w, a, b);
      }
      if WroteIn(es[..b], w, i) && FinalizesAt(es, w, i, b) {
        var a: nat :| WritesOkAt(es[..b], w, i, a) && Stays(es[..b], w, a, b);
        assert SucceedsAt(es, w, i, a, b);
      }
    }
  }

  lemma {:induction false} SucceededMeans(es: seq<Event>, i: nat)
    ensures SucceededIn(es, i) <==> exists b: nat :: b < |es| && SucceedsBefore(es, i, b)
  {
    if es != [] {
      var n := |es| - 1;
      SucceededMeans(es[..n], i);
      forall b: nat | b < n ensures SucceedsBefore(es[..n], i, b) <==> SucceedsBefore(es, i, b) {
        SucceedsMeans(es[..n], i, b);
        SucceedsMeans(es, i, b);
        assert es[..n][..b] == es[..b];
      }
      SucceedsMeans(es, i, n);
    }
  }

  /** In every run: i is marked as written back if and only if one worker of it came to its tools with every
      tool answering ok, had a draft, lived on, and finalized i. A tool that fails never marks it. */
  lemma SucceededIff(es: seq<Event>, i: nat)
    requires i in Run(es).invs
    ensures Run(es).invs[i].writebackSucceeded <==> exists b: nat :: b < |es| && SucceedsBefore(es, i, b)
  {
    RunsAreTold(es, 0, i);
    SucceededMeans(es, i);
  }

  // -------------------------------------------------------- verdict or failure

  /** Worker w of i passes its writeback step with a draft verdict to finalize. */
  predicate Drafts(s: State, e: Event, w: nat, i: nat) {
    e.Writeback? && e.w == w && e.hasDraft && Enabled(s, e) && s.workers[w].inv == i
  }

  predicate DraftedIn(es: seq<Event>, w: nat, i: nat) {
    es != [] && var init, last := es[..|es| - 1], es[|es| - 1];
                w in Run(es).workers && (Drafts(Run(init), last, w, i) || DraftedIn(init, w, i))
  }

  /** What the place of worker w says about its draft. */
  ghost predicate DraftTold(s: State, w: nat, i: nat, drafted: bool) {
    if w in s.workers && s.workers[w].inv == i then
      match s.workers[w].pc
      case AtClaim(outcome) => outcome.Verdict? <==> drafted
      case Claimed(outcome) => outcome.Verdict? <==> drafted
      case _ => !drafted
    else !drafted
  }

  lemma DraftStep(s: State, e: Event, w: nat, i: nat, drafted: bool)
    requires Enabled(s, e) && DraftTold(s, w, i, drafted)
    ensures DraftTold(Apply(s, e), w, i, w in Apply(s, e).workers && (Drafts(s, e, w, i) || drafted))
  {
  }

  lemma {:induction false} DraftsAreTold(es: seq<Event>, w: nat, i: nat)
    ensures DraftTold(Run(es), w, i, DraftedIn(es, w, i))
  {
    if es != [] {
      var init, last := es[..|es| - 1], es[|es| - 1];
      DraftsAreTold(init, w, i);
      if Enabled(Run(init), last) { DraftStep(Run(init), last, w, i, DraftedIn(init, w, i)); }
    }
  }

  predicate DraftsAt(es: seq<Event>, w: nat, i: nat, a: nat) {
    a < |es| && Drafts(Run(es[..a]), es[a], w, i)
  }

  lemma {:induction false} DraftedMeans(es: seq<Event>, w: nat, i: nat)
    ensures DraftedIn(es, w, i) <==> exists a: nat :: DraftsAt(es, w, i, a) && Stays(es, w, a, |es|)
  {
    if es != [] {
      var n := |es| - 1;
      DraftedMeans(es[..n], w, i);
      assert es[..|es|] == es;
      forall a: nat | a < n
        ensures DraftsAt(es[..n], w, i, a) && Stays(es[..n], w, a, n) && w in Run(es).workers
                <==> DraftsAt(es, w, i, a) && Stays(es, w, a, |es|)
      {
        assert es[..n][..a] == es[..a];
        SameStays(es, n, w, a, n);
        StaysStep(es, w, a, n);
      }
      DraftedLast(es, w, i);
    }
  }

  lemma DraftedLast(es: seq<Event>, w: nat, i: nat)
    requires es != []
    ensures var n := |es| - 1;
            DraftsAt(es, w, i, n) && Stays(es, w, n, |es|)
            <==> Drafts(Run(es[..n]), es[n], w, i) && w in Run(es).workers
  {
    assert es[..|es|] == es;
  }

  /** Worker w had a draft at a step from which it has lived on to step b. */
  ghost predicate DraftedBy(es: seq<Event>, w: nat, i: nat, b: nat) {
    exists a: nat :: DraftsAt(es, w, i, a) && Stays(es, w, a, b)
  }

  lemma DraftedByMeans(es: seq<Event>, w: nat, i: nat, b: nat)
    requires b <= |es|
    ensures DraftedBy(es, w, i, b) <==> DraftedIn(es[..b], w, i)
  {
    DraftedMeans(es[..b], w, i);
    forall a: nat | a < b
      ensures DraftsAt(es[..b], w, i, a) && Stays(es[..b], w, a, b) <==> DraftsAt(es, w, i, a) && Stays(es, w, a, b)
    {
      assert es[..b][..a] == es[..a];
      SameStays(es, b, w, a, b);
    }
  }

  /** Step b finalizes i, by a worker that had a draft or by one that had none. */
  ghost predicate EndsAt(es: seq<Event>, i: nat, drafted: bool, b: nat) {
    && b < |es| && es[b].Finalize? && Finalizes(Run(es[..b]), es[b], es[b].w, i)
    && (DraftedBy(es, es[b].w, i, b) <==> drafted)
  }

  function Ending(drafted: bool): Action { if drafted then InvestigationComplete else InvestigationFailed }

  /** The row is new exactly if the event finalizes i with that outcome. */
  lemma EndingStep(s: State, e: Event, i: nat, drafted: bool)
    requires Enabled(s, e)
    requires e.Finalize? && s.workers[e.w].inv == i ==> s.workers[e.w].pc.outcome.Verdict? == drafted
    ensures var row := AuditRow(i, Ending(drafted));
            row in Apply(s, e).audit <==> row in s.audit || (e.Finalize? && Finalizes(s, e, e.w, i))
    ensures AuditRow(i, Ending(!drafted)) in Apply(s, e).audit <==> AuditRow(i, Ending(!drafted)) in s.audit
  {
    EventLogs(s, e);
    RowsAreActions(Target(s, e), NewActions(s, e), AuditRow(i, Ending(drafted)));
    RowsAreActions(Target(s, e), NewActions(s, e), AuditRow(i, Ending(!drafted)));
  }

  lemma {:induction false} RowsAreActions(target: Option<nat>, actions: seq<Action>, row: AuditRow)
    ensures row in RowsOf(target, actions) <==> target == Some(row.inv) && row.action in actions
  {
    if target.Some? && actions != [] {
      RowsAreActions(target, actions[1..], row);
      assert actions == [actions[0]] + actions[1..];
    }
  }

  lemma SameEnds(es: seq<Event>, i: nat, drafted: bool, n: nat, b: nat)
    requires b < n <= |es|
    ensures EndsAt(es[..n], i, drafted, b) == EndsAt(es, i, drafted, b)
  {
    assert es[..n][..b] == es[..b];
    if es[b].Finalize? {
      DraftedByMeans(es[..n], es[b].w, i, b);
      DraftedByMeans(es, es[b].w, i, b);
    }
  }

  /** In every run: the log says that i is complete if and only if a worker that came to its writeback with a
      draft, and lived on, finalized it; and that i has failed if and only if a worker without one did. */
  lemma {:induction false} CompleteIffDrafted(es: seq<Event>, i: nat, drafted: bool)
    ensures AuditRow(i, Ending(drafted)) in Run(es).audit <==> exists b: nat :: EndsAt(es, i, drafted, b)
  {
    if es != [] {
      var n := |es| - 1;
      CompleteIffDrafted(es[..n], i, drafted);
      forall b: nat | b < n ensures EndsAt(es[..n], i, drafted, b) == EndsAt(es, i, drafted, b) {
        SameEnds(es, i, drafted, n, b);
      }
      LastEnds(es, i, drafted);
    }
  }

  lemma LastEnds(es: seq<Event>, i: nat, drafted: bool)
    requires es != []
    ensures var n, row := |es| - 1, AuditRow(i, Ending(drafted));
            row in Run(es).audit <==> row in Run(es[..n]).audit || EndsAt(es, i, drafted, n)
  {
    var n := |es| - 1;
    var s, e := Run(es[..n]), es[n];
    if Enabled(s, e) {
      if e.Finalize? {
        DraftsAreTold(es[..n], e.w, i);
        DraftedByMeans(es, e.w, i, n);
        EndingStep(s, e, i, if s.workers[e.w].inv == i then s.workers[e.w].pc.outcome.Verdict? else drafted);
      } else {
        EndingStep(s, e, i, drafted);
      }
    }
  }

  // ------------------------------------------------------ resumed workers

  /** Worker w takes its writeback step. */
  predicate Passes(s: State, e: Event, w: nat) { e.Writeback? && e.w == w && Enabled(s, e) }

  predicate PassesAt(es: seq<Event>, w: nat, a: nat) { a < |es| && Passes(Run(es[..a]), es[a], w) }

  ghost predicate Passed(es: seq<Event>, w: nat) {
    exists a: nat :: PassesAt(es, w, a) && Stays(es, w, a, |es|)
  }

  lemma PassedStays(es: seq<Event>, w: nat)
    requires es != [] && w in Run(es).workers
    requires Passed(es[..|es| - 1], w) || Passes(Run(es[..|es| - 1]), es[|es| - 1], w)
    ensures Passed(es, w)
  {
    var n := |es| - 1;
    if Passed(es[..n], w) {
      var a: nat :| PassesAt(es[..n], w, a) && Stays(es[..n], w, a, n);
      PassedLonger(es, w, a);
    } else {
      PassesNow(es, w);
    }
  }

  lemma PassedLonger(es: seq<Event>, w: nat, a: nat)
    requires es != [] && w in Run(es).workers
    requires PassesAt(es[..|es| - 1], w, a) && Stays(es[..|es| - 1], w, a, |es| - 1)
    ensures PassesAt(es, w, a) && Stays(es, w, a, |es|)
  {
    var n := |es| - 1;
    assert es[..n][..a] == es[..a] && es[..n + 1] == es;
    SameStays(es, n, w, a, n);
    StaysStep(es, w, a, n);
  }

  lemma PassesNow(es: seq<Event>, w: nat)
    requires es != [] && w in Run(es).workers && Passes(Run(es[..|es| - 1]), es[|es| - 1], w)
    ensures PassesAt(es, w, |es| - 1) && Stays(es, w, |es| - 1, |es|)
  {
    assert es[..|es|] == es;
  }

  lemma PassedStep(s: State, e: Event, w: nat)
    requires Enabled(s, e) && w in Apply(s, e).workers && Apply(s, e).workers[w].resumed
    ensures Apply(s, e).workers[w].pc.AtWriteback? || Passes(s, e, w)
            || (w in s.workers && s.workers[w].resumed && (s.workers[w].pc.AtClaim? || s.workers[w].pc.Claimed?))
            || (w in s.workers && s.workers[w].pc.InGraph?)
  {
  }

  ghost predicate ResumedPassed(es: seq<Event>) {
    forall w :: w in Run(es).workers && Run(es).workers[w].resumed ==>
      Run(es).workers[w].pc.AtWriteback? || (!Run(es).workers[w].pc.InGraph? && Passed(es, w))
  }

  /** In every run a resumed worker finalizes only by way of its writeback step: an exception there leaves the
      investigation as it is, for the next resume, and does not fail it. */
  lemma {:induction false} ResumedFinalizesAfterWriteback(es: seq<Event>)
    ensures ResumedPassed(es)
  {
    if es != [] {
      var init, last := es[..|es| - 1], es[|es| - 1];
      ResumedFinalizesAfterWriteback(init);
      forall w | w in Run(es).workers && Run(es).workers[w].resumed
        ensures Run(es).workers[w].pc.AtWriteback? || (!Run(es).workers[w].pc.InGraph? && Passed(es, w))
      {
        if Enabled(Run(init), last) {
          ResumedStep(Run(init), last, w);
          PassedStep(Run(init), last, w);
          if !Run(es).workers[w].pc.AtWriteback? { PassedStays(es, w); }
        } else if !Run(es).workers[w].pc.AtWriteback? {
          PassedStays(es, w);
        }
      }
    }
  }

  lemma ResumedStep(s: State, e: Event, w: nat)
    requires Enabled(s, e) && w in Apply(s, e).workers && Apply(s, e).workers[w].resumed
    requires w in s.workers && s.workers[w].resumed ==> !s.workers[w].pc.InGraph?
    ensures !Apply(s, e).workers[w].pc.InGraph? && (w in s.workers ==> s.workers[w].resumed)
  {
  }

  // -------------------------------------------------------- without a rejection

  /** Answers and modes of i come from decisions that the log holds. */
  ghost predicate Founded(s: State, i: nat) {
    && JobsOk(s, i)
    && forall w :: w in s.workers && s.workers[w].inv == i && s.workers[w].pc == AtWriteback(Rejected) ==>
         Decided(s, i, false)
  }

  lemma FoundedStep(s: State, e: Event, i: nat)
    requires Enabled(s, e) && Founded(s, i)
    ensures Founded(Apply(s, e), i)
  {
    CountAfter(s, e, i, Decision);
    DecidedGrows(s, Apply(s, e), i);
    if e.Submit? { assert Apply(s, e).audit[|s.audit|] == AuditRow(e.inv, HumanDecision(e.approved)); }
  }

  lemma {:induction false} RunsAreFounded(es: seq<Event>, i: nat)
    ensures Founded(Run(es), i)
  {
    if es != [] {
      RunsAreFounded(es[..|es| - 1], i);
      if Enabled(Run(es[..|es| - 1]), es[|es| - 1]) { FoundedStep(Run(es[..|es| - 1]), es[|es| - 1], i); }
    }
  }

  lemma {:induction false} RunsGrow(es: seq<Event>, n: nat)
    requires n <= |es|
    ensures Run(es[..n]).audit <= Run(es).audit && Run(es[..n]).calls <= Run(es).calls
    decreases |es|
  {
    if n == |es| {
      assert es[..n] == es;
    } else {
      var init, last := es[..|es| - 1], es[|es| - 1];
      RunsGrow(init, n);
      assert init[..n] == es[..n];
      if Enabled(Run(init), last) { CountAfter(Run(init), last, 0, Start); }
      assert Run(init).calls <= Run(es).calls;
    }
  }

  /** A success was preceded by a call. */
  lemma SuccessWasCalled(es: seq<Event>, i: nat)
    requires i in Run(es).invs && Run(es).invs[i].writebackSucceeded
    ensures exists mode :: ToolCall(i, mode) in Run(es).calls
  {
    SucceededIff(es, i);
    var b: nat :| b < |es| && SucceedsBefore(es, i, b);
    var w: nat, a: nat :| SucceedsAt(es, w, i, a, b);
    var mode := Run(es[..a]).workers[w].pc.mode;
    CalledMeans(es, i, mode);
    CallsAreCalled(es, i, mode);
    assert CallsToolsAt(es, i, mode, a);
  }

  /** The other half of consent: an investigation nobody has turned down, decided on or not, reaches its tools
      exactly if some writeback step of it goes that far. */
  lemma NotRejectedIsWrittenBackIff(es: seq<Event>, i: nat)
    requires !Decided(Run(es), i, false)
    ensures (exists mode :: ToolCall(i, mode) in Run(es).calls) <==> exists b: nat :: DeliversAt(es, i, b)
  {
    if mode :| ToolCall(i, mode) in Run(es).calls {
      CallsAreCalled(es, i, mode);
      CalledMeans(es, i, mode);
      var b: nat :| CallsToolsAt(es, i, mode, b);
      assert DeliversAt(es, i, b);
    }
    if b: nat :| DeliversAt(es, i, b) { DeliveryCalls(es, i, b); }
  }

  lemma DeliveryCalls(es: seq<Event>, i: nat, b: nat)
    requires !Decided(Run(es), i, false) && DeliversAt(es, i, b)
    ensures exists mode :: ToolCall(i, mode) in Run(es).calls
  {
    var s, w := Run(es[..b]), es[b].w;
    RunsGrow(es, b);
    RunsAreFounded(es[..b], i);
    DecidedGrows(s, Run(es), i);
    var mode := s.workers[w].pc.mode;
    if s.invs[i].writebackSucceeded {
      SuccessWasCalled(es[..b], i);
    } else {
      CalledMeans(es, i, mode);
      CallsAreCalled(es, i, mode);
      assert CallsToolsAt(es, i, mode, b);
    }
  }
}
