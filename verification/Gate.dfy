/** The approval gate: rules raise the draft's severity, the policy decides whether a human must approve. */
module Gate {
  import opened Common
  import opened Json
  import opened Policy
  import opened DetectionRules

  datatype Draft = Draft(severity: string, verdict: string, confidence: int, mitreTechniques: seq<string>)

  datatype Review = Review(status: Option<string>, hallucinationRisk: Option<string>)

  function Texts(names: seq<string>): (r: seq<Json>)
    ensures |r| == |names| && forall k :: 0 <= k < |r| ==> r[k] == Str(names[k])
  {
    if names == [] then [] else [Str(names[0])] + Texts(names[1..])
  }

  function RuleNames(matches: seq<RuleMatch>): (r: seq<string>)
    ensures Elements(r) == Names(matches)
  {
    if matches == [] then []
    else
      NamesStep(matches);
      [matches[0].ruleName] + RuleNames(matches[1..])
  }

  lemma NamesStep(matches: seq<RuleMatch>)
    requires matches != []
    ensures Names(matches) == {matches[0].ruleName} + Names(matches[1..])
  {
    assert matches == [matches[0]] + matches[1..];
    forall n | n in Names(matches) ensures n in {matches[0].ruleName} + Names(matches[1..]) {
      var m :| m in matches && m.ruleName == n;
    }
    assert matches[0] in matches;
  }

  function Optional(s: Option<string>): Json { if s.Some? then Str(s.value) else Null }

  /** _build_decision_ctx. */
  function DecisionCtx(draft: Draft, review: Review, matches: seq<RuleMatch>): Context {
    map[
      "severity" := Str(draft.severity),
      "verdict" := Str(draft.verdict),
      "confidence" := Num(draft.confidence as real),
      "mitre_techniques" := Arr(Texts(draft.mitreTechniques)),
      "detection_rule_matches" := Arr(Texts(RuleNames(matches))),
      "review_status" := Optional(review.status),
      "review_hallucination_risk" := Optional(review.hallucinationRisk)
    ]
  }

  /** The draft after apply_detection_rules_node, with the matches it leaves in the state. */
  function Raised(draft: Draft, rules: seq<Rule>): (Draft, seq<RuleMatch>) {
    var matches := Matches(rules, Elements(draft.mitreTechniques));
    (draft.(severity := LADDER[TopRank(draft.severity, matches)]), matches)
  }

  /** An evaluation that raises falls back to a human. */
  predicate NeedsHuman(policy: Json, ctx: Context, parse: Parser) {
    var outcome := Evaluate(policy, ctx, parse, 0);
    outcome.Raise? || outcome.b
  }

  function GateCtx(draft: Draft, review: Review, rules: seq<Rule>): Context {
    DecisionCtx(Raised(draft, rules).0, review, Raised(draft, rules).1)
  }

  /** apply_detection_rules_node and the decision of await_approval_node, as the two nodes run them. */
  method Decide(policy: Json, parse: Parser, draft: Draft, review: Review, rules: seq<Rule>) returns (needsHuman: bool)
    ensures needsHuman <==> NeedsHuman(policy, GateCtx(draft, review, rules), parse)
  {
    var agentSeverity := if draft.severity == "" then "info" else draft.severity;
    var matches := EvaluateRules(rules, draft.mitreTechniques);
    var severity := EffectiveSeverity(agentSeverity, matches);
    TopRankOfDefault(draft.severity, agentSeverity, matches);
    match Evaluate(policy, DecisionCtx(draft.(severity := severity), review, matches), parse, 0)
    case Val(b) => needsHuman := b;
    case Raise(_) => needsHuman := true;
  }

  lemma TopRankOfDefault(agent: string, orInfo: string, matches: seq<RuleMatch>)
    requires orInfo == if agent == "" then "info" else agent
    ensures TopRank(agent, matches) == TopRank(orInfo, matches)
  {
    EffectiveSeverityIsMonotone(agent, matches, orInfo, matches);
  }

  // --------------------------------------------------------------- the escalation order

  ghost predicate TextsWithin(a: Json, b: Json) {
    && a.Arr? && b.Arr?
    && (forall v :: v in a.items ==> v.Str? && v in b.items)
  }

  const RISING := {"severity", "mitre_techniques", "detection_rule_matches"}

  /** b is at least as alarming as a: higher severity, more techniques, more matches, the rest alike. */
  ghost predicate Below(a: Context, b: Context) {
    && SeverityRank(Lookup(a, "severity")).Some? && SeverityRank(Lookup(b, "severity")).Some?
    && SeverityRank(Lookup(a, "severity")).value <= SeverityRank(Lookup(b, "severity")).value
    && TextsWithin(Lookup(a, "mitre_techniques"), Lookup(b, "mitre_techniques"))
    && TextsWithin(Lookup(a, "detection_rule_matches"), Lookup(b, "detection_rule_matches"))
    && (forall field :: field !in RISING ==> Lookup(a, field) == Lookup(b, field))
  }

  /** A leaf that can only turn true (up) or only turn false (not up) as the context becomes more alarming. */
  predicate LeafEscalating(op: string, field: string, up: bool) {
    if field == "severity" then op in (if up then {"severity_gt", "severity_gte"} else {"severity_lt", "severity_lte"})
    else if field in RISING then up && op == "contains"
    else op !in SEVERITY_OPS
  }

  /** Built from escalating leaves by and, or, and not, which swaps the direction. */
  predicate Escalating(expr: Json, depth: nat, up: bool)
    requires WellFormed(expr, depth)
    decreases MAX_DEPTH + 1 - depth, 0, expr
  {
    var op := Field(expr.entries, "op").s;
    if op in {"always_true", "always_false"} then true
    else if op in {"and", "or"} then AllEscalating(Children(Field(expr.entries, "conditions")).value, depth + 1, up)
    else if op == "not" then Escalating(Field(expr.entries, "condition"), depth + 1, !up)
    else LeafEscalating(op, Field(expr.entries, "field").s, up)
  }

  predicate AllEscalating(children: seq<Json>, depth: nat, up: bool)
    requires AllWellFormed(children, depth)
    decreases MAX_DEPTH + 1 - depth, |children|
  {
    children == [] || (Escalating(children[0], depth, up) && AllEscalating(children[1..], depth, up))
  }

  /** Neither outcome raised, and the verdict moved only in the given direction. */
  predicate Moves(a: Outcome, b: Outcome, up: bool) {
    a.Val? && b.Val? && if up then a.b ==> b.b else b.b ==> a.b
  }

  lemma {:induction false} MemberOfTexts(x: string, items: seq<Json>)
    requires forall v :: v in items ==> v.Str?
    ensures Member(Str(x), items) <==> Str(x) in items
  {
    if items != [] {
      assert items[0] in items;
      MemberOfTexts(x, items[1..]);
    }
  }

  lemma SeverityLeafMoves(op: string, value: Json, a: Context, b: Context, parse: Parser, up: bool)
    requires Below(a, b) && LeafWellFormed(op, value)
    requires op in (if up then {"severity_gt", "severity_gte"} else {"severity_lt", "severity_lte"})
    ensures Moves(Leaf(op, "severity", value, a, parse), Leaf(op, "severity", value, b, parse), up)
  {
  }

  lemma ContainsMoves(field: string, value: Json, a: Context, b: Context, parse: Parser)
    requires TextsWithin(Lookup(a, field), Lookup(b, field)) && (forall v :: v in Lookup(b, field).items ==> v.Str?)
    requires value.Str?
    ensures Moves(Leaf("contains", field, value, a, parse), Leaf("contains", field, value, b, parse), true)
  {
    MemberOfTexts(value.s, Lookup(a, field).items);
    MemberOfTexts(value.s, Lookup(b, field).items);
  }

  lemma LeafMoves(op: string, field: string, value: Json, a: Context, b: Context, parse: Parser, up: bool)
    requires Below(a, b) && (forall f :: f in RISING - {"severity"} ==> AllTexts(Lookup(b, f)))
    requires LeafWellFormed(op, value) && LeafEscalating(op, field, up)
    ensures Moves(Leaf(op, field, value, a, parse), Leaf(op, field, value, b, parse), up)
  {
    if field == "severity" {
      SeverityLeafMoves(op, value, a, b, parse, up);
    } else if field in RISING {
      ContainsMoves(field, value, a, b, parse);
    } else {
      assert Lookup(a, field) == Lookup(b, field);
      WellFormedLeafIsSafe(op, field, value, a, parse);
    }
  }

  ghost predicate AllTexts(v: Json) { v.Arr? && forall x :: x in v.items ==> x.Str? }

  /** A more alarming context moves an escalating policy one way only. */
  lemma {:induction false} EvaluationMoves(expr: Json, depth: nat, up: bool, a: Context, b: Context, parse: Parser)
    requires Below(a, b) && (forall f :: f in RISING - {"severity"} ==> AllTexts(Lookup(b, f)))
    requires WellFormed(expr, depth) && Escalating(expr, depth, up)
    ensures Moves(Evaluate(expr, a, parse, depth), Evaluate(expr, b, parse, depth), up)
    decreases MAX_DEPTH + 1 - depth, 0, expr
  {
    var op := Field(expr.entries, "op").s;
    if op in {"and", "or"} {
      ChildrenMove(op == "or", Children(Field(expr.entries, "conditions")).value, depth + 1, up, a, b, parse);
    } else if op == "not" {
      EvaluationMoves(Field(expr.entries, "condition"), depth + 1, !up, a, b, parse);
    } else if op !in {"always_true", "always_false"} {
      LeafMoves(op, Field(expr.entries, "field").s, Field(expr.entries, "value"), a, b, parse, up);
    }
  }

  lemma {:induction false} ChildrenMove(stop: bool, children: seq<Json>, depth: nat, up: bool,
                                        a: Context, b: Context, parse: Parser)
    requires Below(a, b) && (forall f :: f in RISING - {"severity"} ==> AllTexts(Lookup(b, f)))
    requires AllWellFormed(children, depth) && AllEscalating(children, depth, up)
    ensures Moves(EvaluateUntil(stop, children, a, parse, depth), EvaluateUntil(stop, children, b, parse, depth), up)
    decreases MAX_DEPTH + 1 - depth, |children|
  {
    if children != [] {
      EvaluationMoves(children[0], depth, up, a, b, parse);
      ChildrenMove(stop, children[1..], depth, up, a, b, parse);
    }
  }

  // ------------------------------------------------------------------ the gate itself

  lemma DecisionCtxFields(draft: Draft, review: Review, matches: seq<RuleMatch>)
    ensures var ctx := DecisionCtx(draft, review, matches);
            && Lookup(ctx, "severity") == Str(draft.severity)
            && Lookup(ctx, "mitre_techniques") == Arr(Texts(draft.mitreTechniques))
            && Lookup(ctx, "detection_rule_matches") == Arr(Texts(RuleNames(matches)))
  {
  }

  lemma OtherFields(draft: Draft, review: Review, matches: seq<RuleMatch>)
    ensures var ctx := DecisionCtx(draft, review, matches);
            && Lookup(ctx, "verdict") == Optional(Some(draft.verdict))
            && Lookup(ctx, "confidence") == Num(draft.confidence as real)
            && Lookup(ctx, "review_status") == Optional(review.status)
            && Lookup(ctx, "review_hallucination_risk") == Optional(review.hallucinationRisk)
  {
  }

  lemma DecisionCtxOthers(a: Draft, b: Draft, review: Review, ms: seq<RuleMatch>, ns: seq<RuleMatch>, field: string)
    requires a.verdict == b.verdict && a.confidence == b.confidence && field !in RISING
    ensures Lookup(DecisionCtx(a, review, ms), field) == Lookup(DecisionCtx(b, review, ns), field)
  {
  }

  lemma TextsAreWithin(fewer: seq<string>, more: seq<string>)
    requires Elements(fewer) <= Elements(more)
    ensures TextsWithin(Arr(Texts(fewer)), Arr(Texts(more))) && AllTexts(Arr(Texts(more)))
  {
    forall v | v in Texts(fewer) ensures v.Str? && v in Texts(more) {
      var k :| 0 <= k < |fewer| && v == Texts(fewer)[k];
      assert fewer[k] in Elements(fewer);
      var j :| 0 <= j < |more| && more[j] == fewer[k];
      assert Texts(more)[j] == v;
    }
  }

  lemma EffectiveIsOnLadder(k: nat)
    requires k < |LADDER|
    ensures SeverityRank(Str(LADDER[k])) == Some(k)
  {
    RankOfLadder();
  }

  /** What the two drafts, and the rules they meet, must satisfy for the second to be at least as alarming. */
  ghost predicate Escalates(a: Draft, rules: seq<Rule>, b: Draft, moreRules: seq<Rule>) {
    && Elements(rules) <= Elements(moreRules)
    && Elements(a.mitreTechniques) <= Elements(b.mitreTechniques)
    && RankOf(a.severity) <= RankOf(b.severity)
    && a.verdict == b.verdict && a.confidence == b.confidence
  }

  lemma GateCtxsAreOrdered(a: Draft, rules: seq<Rule>, b: Draft, moreRules: seq<Rule>, review: Review)
    requires Escalates(a, rules, b, moreRules)
    ensures var after := GateCtx(b, review, moreRules);
            && Below(GateCtx(a, review, rules), after)
            && forall f :: f in RISING - {"severity"} ==> AllTexts(Lookup(after, f))
  {
    var (a', ms) := Raised(a, rules);
    var (b', ns) := Raised(b, moreRules);
    MatchingIsMonotone(rules, moreRules, Elements(a.mitreTechniques), Elements(b.mitreTechniques));
    EffectiveSeverityIsMonotone(a.severity, ms, b.severity, ns);
    EffectiveIsOnLadder(TopRank(a.severity, ms));
    EffectiveIsOnLadder(TopRank(b.severity, ns));
    DecisionCtxFields(a', review, ms);
    DecisionCtxFields(b', review, ns);
    TextsAreWithin(a.mitreTechniques, b.mitreTechniques);
    TextsAreWithin(RuleNames(ms), RuleNames(ns));
    forall field | field !in RISING
      ensures Lookup(GateCtx(a, review, rules), field) == Lookup(GateCtx(b, review, moreRules), field)
    {
      DecisionCtxOthers(a', b', review, ms, ns, field);
    }
  }

  /** Adding techniques, adding enabled rules or raising the agent's severity never turns "a human must
      approve" into "approve automatically", for every escalating policy. */
  lemma EscalationNeverOpensTheGate(policy: Json, parse: Parser, a: Draft, rules: seq<Rule>,
                                    b: Draft, moreRules: seq<Rule>, review: Review)
    requires WellFormed(policy, 0) && Escalating(policy, 0, true) && Escalates(a, rules, b, moreRules)
    ensures NeedsHuman(policy, GateCtx(a, review, rules), parse)
            ==> NeedsHuman(policy, GateCtx(b, review, moreRules), parse)
  {
    GateCtxsAreOrdered(a, rules, b, moreRules, review);
    EvaluationMoves(policy, 0, true, GateCtx(a, review, rules), GateCtx(b, review, moreRules), parse);
  }

  /** Escalating policies decide the gate themselves: the fall-back to a human is never what answers. */
  lemma EscalatingPolicyNeverFallsBack(policy: Json, parse: Parser, draft: Draft, rules: seq<Rule>, review: Review)
    requires WellFormed(policy, 0) && Escalating(policy, 0, true)
    ensures Evaluate(policy, GateCtx(draft, review, rules), parse, 0).Val?
  {
    GateCtxsAreOrdered(draft, rules, draft, rules, review);
    EvaluationMoves(policy, 0, true, GateCtx(draft, review, rules), GateCtx(draft, review, rules), parse);
  }

  // ---------------------------------------------------- what a one-leaf policy asks about

  /** The gate's answer to a policy of one leaf. */
  lemma LeafAtGate(op: string, field: string, value: Json, ctx: Context, parse: Parser)
    requires op in LEAF_OPS
    ensures NeedsHuman(LeafExpr(op, field, value), ctx, parse)
            <==> var o := Leaf(op, field, value, ctx, parse); o.Raise? || o.b
  {
    var a, b, c := Entry("op", Str(op)), Entry("field", Str(field)), Entry("value", value);
    GetOfThree(a, b, c, "op");
    GetOfThree(a, b, c, "field");
    GetOfThree(a, b, c, "value");
  }

  lemma OptionalAtGate(field: string, given: Option<string>, text: string, ctx: Context, parse: Parser)
    requires Lookup(ctx, field) == Optional(given)
    ensures NeedsHuman(LeafExpr("eq", field, Str(text)), ctx, parse) <==> given == Some(text)
  {
    LeafAtGate("eq", field, Str(text), ctx, parse);
  }

  lemma NumberAtGate(field: string, n: real, limit: real, ctx: Context, parse: Parser)
    requires Lookup(ctx, field) == Num(n)
    ensures NeedsHuman(LeafExpr("lt", field, Num(limit)), ctx, parse) <==> n < limit
  {
    LeafAtGate("lt", field, Num(limit), ctx, parse);
  }

  lemma ListAtGate(field: string, names: seq<string>, name: string, ctx: Context, parse: Parser)
    requires Lookup(ctx, field) == Arr(Texts(names))
    ensures NeedsHuman(LeafExpr("contains", field, Str(name)), ctx, parse) <==> name in names
  {
    LeafAtGate("contains", field, Str(name), ctx, parse);
    MemberOfTexts(name, Texts(names));
    if name in names {
      var k :| 0 <= k < |names| && names[k] == name;
      assert Texts(names)[k] == Str(name);
    }
  }

  lemma RankAtGate(field: string, j: nat, k: nat, ctx: Context, parse: Parser)
    requires j < |LADDER| && k < |LADDER| && Lookup(ctx, field) == Str(LADDER[j])
    ensures NeedsHuman(LeafExpr("severity_gte", field, Str(LADDER[k])), ctx, parse) <==> j >= k
  {
    LeafAtGate("severity_gte", field, Str(LADDER[k]), ctx, parse);
    EffectiveIsOnLadder(j);
    EffectiveIsOnLadder(k);
  }

  lemma GateFields(draft: Draft, review: Review, rules: seq<Rule>)
    ensures var ctx, matches := GateCtx(draft, review, rules), Matches(rules, Elements(draft.mitreTechniques));
            && Lookup(ctx, "severity") == Str(LADDER[TopRank(draft.severity, matches)])
            && Lookup(ctx, "verdict") == Optional(Some(draft.verdict))
            && Lookup(ctx, "confidence") == Num(draft.confidence as real)
            && Lookup(ctx, "mitre_techniques") == Arr(Texts(draft.mitreTechniques))
            && Lookup(ctx, "detection_rule_matches") == Arr(Texts(RuleNames(matches)))
            && Lookup(ctx, "review_status") == Optional(review.status)
            && Lookup(ctx, "review_hallucination_risk") == Optional(review.hallucinationRisk)
  {
    var (raised, matches) := Raised(draft, rules);
    DecisionCtxFields(raised, review, matches);
    OtherFields(raised, review, matches);
  }

  /** From the draft to the decision: a policy over the verdict, a confidence threshold or a technique asks
      for a human exactly if the draft says so. */
  lemma GateReadsDraft(draft: Draft, review: Review, rules: seq<Rule>, text: string, limit: real, parse: Parser)
    ensures var ctx := GateCtx(draft, review, rules);
            && (NeedsHuman(LeafExpr("eq", "verdict", Str(text)), ctx, parse) <==> draft.verdict == text)
            && (NeedsHuman(LeafExpr("lt", "confidence", Num(limit)), ctx, parse) <==> draft.confidence as real < limit)
            && (NeedsHuman(LeafExpr("contains", "mitre_techniques", Str(text)), ctx, parse)
                <==> text in draft.mitreTechniques)
  {
    var ctx := GateCtx(draft, review, rules);
    GateFields(draft, review, rules);
    OptionalAtGate("verdict", Some(draft.verdict), text, ctx, parse);
    NumberAtGate("confidence", draft.confidence as real, limit, ctx, parse);
    ListAtGate("mitre_techniques", draft.mitreTechniques, text, ctx, parse);
  }

  /** From the review to the decision; a run without a review answers no comparison with it. */
  lemma GateReadsReview(draft: Draft, review: Review, rules: seq<Rule>, text: string, parse: Parser)
    ensures var ctx := GateCtx(draft, review, rules);
            && (NeedsHuman(LeafExpr("eq", "review_status", Str(text)), ctx, parse) <==> review.status == Some(text))
            && (NeedsHuman(LeafExpr("eq", "review_hallucination_risk", Str(text)), ctx, parse)
                <==> review.hallucinationRisk == Some(text))
  {
    var ctx := GateCtx(draft, review, rules);
    GateFields(draft, review, rules);
    OptionalAtGate("review_status", review.status, text, ctx, parse);
    OptionalAtGate("review_hallucination_risk", review.hallucinationRisk, text, ctx, parse);
  }

  /** From the rules to the decision: a policy naming a rule asks for a human exactly if a rule of that name
      fires on the draft's techniques. */
  lemma GateReadsRules(draft: Draft, review: Review, rules: seq<Rule>, name: string, parse: Parser)
    ensures NeedsHuman(LeafExpr("contains", "detection_rule_matches", Str(name)), GateCtx(draft, review, rules), parse)
            <==> exists r :: r in rules && Fires(r, Elements(draft.mitreTechniques)) && r.name == name
  {
    var techniques := Elements(draft.mitreTechniques);
    GateFields(draft, review, rules);
    ListAtGate("detection_rule_matches", RuleNames(Matches(rules, techniques)), name, GateCtx(draft, review, rules),
               parse);
    FiringNames(rules, techniques, name);
  }

  lemma FiringNames(rules: seq<Rule>, techniques: set<string>, name: string)
    ensures name in RuleNames(Matches(rules, techniques))
            <==> exists r :: r in rules && Fires(r, techniques) && r.name == name
  {
    var matches := Matches(rules, techniques);
    MatchesAreTheFiringRules(rules, techniques);
    assert Elements(RuleNames(matches)) == Names(matches);
    assert name in RuleNames(matches) <==> name in Elements(RuleNames(matches));
    if r :| r in rules && Fires(r, techniques) && r.name == name { assert MatchOf(r, techniques) in matches; }
  }

  /** A severity threshold asks for a human exactly if the agent's own severity or the override of a firing
      rule reaches it. */
  lemma GateReadsSeverity(draft: Draft, review: Review, rules: seq<Rule>, k: nat, parse: Parser)
    requires k < |LADDER|
    ensures NeedsHuman(LeafExpr("severity_gte", "severity", Str(LADDER[k])), GateCtx(draft, review, rules), parse)
            <==> RankOf(draft.severity) >= k || exists r :: r in rules && Raises(r, draft.mitreTechniques, k)
  {
    var matches := Matches(rules, Elements(draft.mitreTechniques));
    GateFields(draft, review, rules);
    RankAtGate("severity", TopRank(draft.severity, matches), k, GateCtx(draft, review, rules), parse);
    TopReaches(draft.severity, matches, k);
    FiringRaises(rules, draft.mitreTechniques, k);
  }

  /** The rule fires and its override has at least this rank. */
  predicate Raises(rule: Rule, techniques: seq<string>, k: nat) {
    && Fires(rule, Elements(techniques))
    && rule.severityOverride.Some? && RankOf(rule.severityOverride.value) >= k
  }

  lemma FiringRaises(rules: seq<Rule>, techniques: seq<string>, k: nat)
    ensures (exists m :: m in Matches(rules, Elements(techniques))
                         && m.severityOverride.Some? && RankOf(m.severityOverride.value) >= k)
            <==> exists r :: r in rules && Raises(r, techniques, k)
  {
    MatchesAreTheFiringRules(rules, Elements(techniques));
    if r :| r in rules && Raises(r, techniques, k) {
      assert MatchOf(r, Elements(techniques)) in Matches(rules, Elements(techniques));
    }
  }

  lemma TopReaches(agent: string, matches: seq<RuleMatch>, k: nat)
    ensures TopRank(agent, matches) >= k
            <==> RankOf(agent) >= k || exists m :: m in matches && m.severityOverride.Some?
                                                   && RankOf(m.severityOverride.value) >= k
  {
    var top := TopRank(agent, matches);
    if top >= k && RankOf(agent) < k {
      var o :| o in Overrides(matches) && o.Some? && RankOf(o.value) == top;
      var m :| m in matches && m.severityOverride == o;
    }
    if m :| m in matches && m.severityOverride.Some? && RankOf(m.severityOverride.value) >= k {
      assert m.severityOverride in Overrides(matches);
    }
  }

  // ------------------------------------------------------- why well-formedness matters

  const NEVER := Obj([Entry("op", Str("always_false"))])

  ghost predicate NeverHolds(never: Json, parse: Parser, depth: nat) {
    Misuse(never, depth).None? && forall ctx: Context :: Evaluate(never, ctx, parse, depth) == Val(false)
  }

  lemma NeverExpr(parse: Parser, depth: nat) returns (never: Json)
    requires depth <= MAX_DEPTH
    ensures NeverHolds(never, parse, depth)
  {
    never := NEVER;
    var a := Entry("op", Str("always_false"));
    assert NEVER.entries == [a] && [a][1..] == [];
    assert Field([a], "op") == a.value && Field([a], "conditions") == Null && Field([a], "condition") == Null;
    assert Field([a], "field") == Null;
  }

  /** The faulty alternative, and something that never holds. */
  lemma GuardedFault(either: Json, never: Json, n: nat, parse: Parser, depth: nat) returns (policy: Json)
    requires depth < MAX_DEPTH && RaisesBelow(either, n, true, parse, depth + 1)
    requires NeverHolds(never, parse, depth + 1)
    ensures RaisesBelow(policy, n, false, parse, depth)
  {
    policy := Combined("and", [either, never]);
    CombinedEvaluates("and", either, never, map[], parse, depth);
    forall ctx: Context | SeverityOf(ctx).Some? ensures RaisesOrSays(policy, n, false, ctx, parse, depth) {
      assert RaisesOrSays(either, n, true, ctx, parse, depth + 1);
      CombinedEvaluates("and", either, never, ctx, parse, depth);
    }
  }

  lemma AcceptedFault(named: string, unknown: string, parse: Parser) returns (policy: Json)
    requires Rank(named).Some? && Rank(unknown).None?
    ensures Accepted(policy, parse) && RaisesBelow(policy, Rank(named).value, false, parse, 0)
  {
    policy := FaultBelow(named, unknown, parse, 0);
    TrialSeverity();
    assert RaisesOrSays(policy, Rank(named).value, false, VALIDATION_CTX, parse, 0);
  }

  lemma FaultBelow(named: string, unknown: string, parse: Parser, depth: nat) returns (policy: Json)
    requires depth + 2 <= MAX_DEPTH && Rank(named).Some? && Rank(unknown).None?
    ensures RaisesBelow(policy, Rank(named).value, false, parse, depth)
  {
    var either := ShortCircuitHidesFaults(named, unknown, parse, depth + 1);
    var never := NeverExpr(parse, depth + 1);
    policy := GuardedFault(either, never, Rank(named).value, parse, depth);
  }

  /** The severity the gate sees is the raised one. */
  lemma GateSeverity(draft: Draft, review: Review, rules: seq<Rule>)
    ensures SeverityOf(GateCtx(draft, review, rules)) == Some(TopRank(draft.severity, Raised(draft, rules).1))
  {
    var (raised, matches) := Raised(draft, rules);
    DecisionCtxFields(raised, review, matches);
    EffectiveIsOnLadder(TopRank(draft.severity, matches));
  }

  /** A policy the validator accepts can invert the gate: with a fault below a short circuit, a human is
      asked exactly for drafts whose raised severity lies below the named one, and everything from it on,
      critical incidents included, is approved automatically. */
  lemma AcceptedFaultOpensTheGate(named: string, unknown: string, parse: Parser) returns (policy: Json)
    requires Rank(named).Some? && Rank(unknown).None?
    ensures Accepted(policy, parse)
    ensures forall draft, review, rules ::
      NeedsHuman(policy, GateCtx(draft, review, rules), parse)
      <==> TopRank(draft.severity, Raised(draft, rules).1) < Rank(named).value
  {
    policy := AcceptedFault(named, unknown, parse);
    forall draft, review, rules
      ensures NeedsHuman(policy, GateCtx(draft, review, rules), parse)
              <==> TopRank(draft.severity, Raised(draft, rules).1) < Rank(named).value
    {
      FaultAtGate(policy, Rank(named).value, draft, review, rules, parse);
    }
  }

  lemma FaultAtGate(policy: Json, n: nat, draft: Draft, review: Review, rules: seq<Rule>, parse: Parser)
    requires RaisesBelow(policy, n, false, parse, 0)
    ensures NeedsHuman(policy, GateCtx(draft, review, rules), parse)
            <==> TopRank(draft.severity, Raised(draft, rules).1) < n
  {
    GateSeverity(draft, review, rules);
    assert RaisesOrSays(policy, n, false, GateCtx(draft, review, rules), parse, 0);
  }
}
