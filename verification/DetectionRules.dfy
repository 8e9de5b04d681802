/** The deterministic detection rules that run over the agent's draft verdict. */
module DetectionRules {
  import opened Common
  import opened Policy

  datatype Rule = Rule(id: string, name: string, requiredTechniques: seq<string>, anyTechniques: seq<string>,
                       severityOverride: Option<string>, enabled: bool)

  datatype RuleMatch = RuleMatch(ruleId: string, ruleName: string, matchedRequired: set<string>,
                                 matchedAny: set<string>, severityOverride: Option<string>)

  function Elements<T(==)>(s: seq<T>): set<T> { set x | x in s }

  // ------------------------------------------------------------------- matching

  predicate Fires(rule: Rule, techniques: set<string>) {
    && rule.enabled
    && Elements(rule.requiredTechniques) <= techniques
    && (rule.anyTechniques == [] || techniques * Elements(rule.anyTechniques) != {})
  }

  function MatchOf(rule: Rule, techniques: set<string>): RuleMatch {
    RuleMatch(rule.id, rule.name, Elements(rule.requiredTechniques) * techniques,
              techniques * Elements(rule.anyTechniques), rule.severityOverride)
  }

  function Found(rule: Rule, techniques: set<string>): seq<RuleMatch> {
    if Fires(rule, techniques) then [MatchOf(rule, techniques)] else []
  }

  function Matches(rules: seq<Rule>, techniques: set<string>): seq<RuleMatch> {
    if rules == [] then []
    else Found(rules[0], techniques) + Matches(rules[1..], techniques)
  }

  /** A rule fires when it is enabled, none of its required techniques is missing and, if it lists
      alternatives, one of them is present; the match names the rule and what it found. */
  lemma FiringMeans(rule: Rule, techniques: set<string>)
    ensures Fires(rule, techniques) <==>
      && rule.enabled
      && (forall t :: t in rule.requiredTechniques ==> t in techniques)
      && (rule.anyTechniques == [] || exists t :: t in rule.anyTechniques && t in techniques)
    ensures var m := MatchOf(rule, techniques);
            && m.ruleId == rule.id && m.ruleName == rule.name && m.severityOverride == rule.severityOverride
            && (Fires(rule, techniques) ==> forall t :: t in m.matchedRequired <==> t in rule.requiredTechniques)
            && forall t :: t in m.matchedAny <==> t in rule.anyTechniques && t in techniques
  {
    if t :| t in rule.anyTechniques && t in techniques { assert t in techniques * Elements(rule.anyTechniques); }
  }

  method EvaluateRules(rules: seq<Rule>, mitreTechniques: seq<string>) returns (matches: seq<RuleMatch>)
    ensures matches == Matches(rules, Elements(mitreTechniques))
  {
    var techniques := Elements(mitreTechniques);
    matches := [];
    for i := 0 to |rules|
      invariant matches == Matches(rules[..i], techniques)
    {
      var rule := rules[i];
      MatchesSnoc(rules, i, techniques);
      if !rule.enabled { continue; }
      var required := Elements(rule.requiredTechniques);
      if required != {} && !(required <= techniques) { continue; }
      var matchedAny: set<string> := {};
      if rule.anyTechniques != [] {
        matchedAny := techniques * Elements(rule.anyTechniques);
        if matchedAny == {} { continue; }
      }
      assert matchedAny == techniques * Elements(rule.anyTechniques);
      var found := RuleMatch(rule.id, rule.name, required * techniques, matchedAny, rule.severityOverride);
      assert Fires(rule, techniques) && found == MatchOf(rule, techniques);
      matches := matches + [found];
    }
    assert rules[..|rules|] == rules;
  }

  /** Matches come in rule order, one for each firing rule. */
  lemma {:induction false} MatchesConcat(rules: seq<Rule>, more: seq<Rule>, techniques: set<string>)
    ensures Matches(rules + more, techniques) == Matches(rules, techniques) + Matches(more, techniques)
  {
    if rules == [] {
      assert rules + more == more;
    } else {
      var head, rest := Found(rules[0], techniques), Matches(rules[1..], techniques);
      assert (rules + more)[1..] == rules[1..] + more;
      MatchesConcat(rules[1..], more, techniques);
      assert head + (rest + Matches(more, techniques)) == head + rest + Matches(more, techniques);
    }
  }

  lemma MatchesSnoc(rules: seq<Rule>, i: nat, techniques: set<string>)
    requires i < |rules|
    ensures Matches(rules[..i + 1], techniques) == Matches(rules[..i], techniques) + Found(rules[i], techniques)
  {
    assert rules[..i + 1] == rules[..i] + [rules[i]];
    MatchesConcat(rules[..i], [rules[i]], techniques);
    assert [rules[i]][1..] == [] && Matches([], techniques) == [];
    assert Found(rules[i], techniques) + [] == Found(rules[i], techniques);
  }

  lemma {:induction false} MatchesAreTheFiringRules(rules: seq<Rule>, techniques: set<string>)
    ensures forall m :: m in Matches(rules, techniques)
                        <==> exists r :: r in rules && Fires(r, techniques) && m == MatchOf(r, techniques)
  {
    if rules != [] {
      MatchesAreTheFiringRules(rules[1..], techniques);
      assert forall r :: r in rules <==> r == rules[0] || r in rules[1..];
    }
  }

  function Names(matches: seq<RuleMatch>): set<string> { set m | m in matches :: m.ruleName }

  function Overrides(matches: seq<RuleMatch>): set<Option<string>> { set m | m in matches :: m.severityOverride }

  lemma FiringIsMonotone(rule: Rule, fewer: set<string>, more: set<string>)
    requires fewer <= more && Fires(rule, fewer)
    ensures Fires(rule, more)
  {
    if rule.anyTechniques != [] {
      var t :| t in fewer * Elements(rule.anyTechniques);
      assert t in more * Elements(rule.anyTechniques);
    }
  }

  /** Adding rules or techniques keeps every match's name and override. */
  lemma MatchingIsMonotone(rules: seq<Rule>, moreRules: seq<Rule>, fewer: set<string>, more: set<string>)
    requires Elements(rules) <= Elements(moreRules) && fewer <= more
    ensures Names(Matches(rules, fewer)) <= Names(Matches(moreRules, more))
    ensures Overrides(Matches(rules, fewer)) <= Overrides(Matches(moreRules, more))
  {
    MatchesAreTheFiringRules(rules, fewer);
    MatchesAreTheFiringRules(moreRules, more);
    forall m | m in Matches(rules, fewer)
      ensures exists n ::
        n in Matches(moreRules, more) && n.ruleName == m.ruleName && n.severityOverride == m.severityOverride
    {
      var r :| r in rules && Fires(r, fewer) && m == MatchOf(r, fewer);
      assert r in Elements(rules);
      FiringIsMonotone(r, fewer, more);
      assert MatchOf(r, more) in Matches(moreRules, more);
    }
  }

  // ------------------------------------------------------------------- severity

  /** The rank of an exact ladder name; any other string counts as the lowest. */
  function RankOf(severity: string): (r: nat)
    ensures r < |LADDER|
  {
    if severity == "low" then 1 else if severity == "medium" then 2
    else if severity == "high" then 3 else if severity == "critical" then 4 else 0
  }

  /** The rank is the place on the ladder, and the lowest place for a name that is not on it. */
  lemma RankOfMeans(severity: string)
    ensures if severity in LADDER then LADDER[RankOf(severity)] == severity else RankOf(severity) == 0
  {
    assert LADDER == ["info", "low", "medium", "high", "critical"];
    assert LADDER[0] == "info" && LADDER[1] == "low" && LADDER[2] == "medium" && LADDER[3] == "high";
    assert LADDER[4] == "critical";
    assert severity in LADDER ==> severity in {"info", "low", "medium", "high", "critical"};
  }

  /** k is the highest of the agent's rank and the overrides' ranks. */
  ghost predicate IsTop(k: nat, agent: string, overrides: set<Option<string>>) {
    && k < |LADDER|
    && RankOf(agent) <= k
    && (forall o :: o in overrides && o.Some? ==> RankOf(o.value) <= k)
    && (k == RankOf(agent) || exists o :: o in overrides && o.Some? && RankOf(o.value) == k)
  }

  function TopRank(agent: string, matches: seq<RuleMatch>): (k: nat)
    ensures IsTop(k, agent, Overrides(matches))
  {
    if matches == [] then RankOf(agent)
    else
      var init, last := matches[..|matches| - 1], matches[|matches| - 1];
      OverridesStep(matches);
      var k := TopRank(agent, init);
      if last.severityOverride.None? then k else Max(k, RankOf(last.severityOverride.value))
  }

  lemma OverridesStep(matches: seq<RuleMatch>)
    requires matches != []
    ensures var n := |matches| - 1; Overrides(matches) == Overrides(matches[..n]) + {matches[n].severityOverride}
  {
    var n := |matches| - 1;
    assert matches == matches[..n] + [matches[n]];
    forall o | o in Overrides(matches) ensures o in Overrides(matches[..n]) + {matches[n].severityOverride} {
      var m :| m in matches && m.severityOverride == o;
    }
    assert matches[n] in matches;
  }

  method EffectiveSeverity(agentSeverity: string, matches: seq<RuleMatch>) returns (severity: string)
    ensures severity == LADDER[TopRank(agentSeverity, matches)]
  {
    var rank := RankOf(agentSeverity);
    for i := 0 to |matches|
      invariant rank == TopRank(agentSeverity, matches[..i])
    {
      var m := matches[i];
      assert matches[..i + 1][..i] == matches[..i];
      if m.severityOverride.None? { continue; }
      rank := Max(rank, RankOf(m.severityOverride.value));
    }
    assert matches[..|matches|] == matches;
    severity := LADDER[rank];
  }

  /** The severity never drops below the agent's, rises with it and with the overrides, and depends
      on the matches only through their set of overrides: neither order nor repetition counts. */
  lemma EffectiveSeverityIsMonotone(agent: string, matches: seq<RuleMatch>, agent': string, matches': seq<RuleMatch>)
    requires RankOf(agent) <= RankOf(agent') && Overrides(matches) <= Overrides(matches')
    ensures RankOf(agent) <= TopRank(agent, matches) <= TopRank(agent', matches')
    ensures RankOf(agent) == RankOf(agent') && Overrides(matches) == Overrides(matches')
            ==> TopRank(agent, matches) == TopRank(agent', matches')
  {
    var k, k' := TopRank(agent, matches), TopRank(agent', matches');
    if k != RankOf(agent) {
      var o :| o in Overrides(matches) && o.Some? && RankOf(o.value) == k;
      assert o in Overrides(matches');
    }
    if RankOf(agent) == RankOf(agent') && Overrides(matches) == Overrides(matches') && k' != RankOf(agent') {
      var o :| o in Overrides(matches') && o.Some? && RankOf(o.value) == k';
      assert o in Overrides(matches);
    }
  }
}
