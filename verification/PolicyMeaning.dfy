/** What a policy means, without evaluation order: the reference the evaluator is proved against. */
module PolicyMeaning {
  import opened Common
  import opened Json
  import opened Policy

  // ------------------------------------------------------------------- leaves

  /** The relation an ordering operator names, the same for numbers and for places on the ladder. */
  predicate Ordered(op: string, a: real, b: real) {
    || (op in {"gt", "severity_gt"} && a > b)
    || (op in {"lt", "severity_lt"} && a < b)
    || (op in {"gte", "severity_gte"} && a >= b)
    || (op in {"lte", "severity_lte"} && a <= b)
  }

  /** v stands for the number a: itself, or a text that reads as it. Nothing else is a number. */
  predicate ReadsAs(v: Json, a: real, parse: Parser) {
    v == Num(a) || (v.Str? && parse(v.s) == Some(a))
  }

  ghost predicate NumbersOrdered(op: string, actual: Json, value: Json, parse: Parser) {
    exists a: real, b: real :: ReadsAs(actual, a, parse) && ReadsAs(value, b, parse) && Ordered(op, a, b)
  }

  /** v names the k-th step of the ladder, in any case. */
  predicate OnStep(v: Json, k: nat) {
    v.Str? && k < |LADDER| && Lower(v.s) == LADDER[k]
  }

  ghost predicate SeveritiesOrdered(op: string, actual: Json, value: Json) {
    exists i: nat, j: nat :: OnStep(actual, i) && OnStep(value, j) && Ordered(op, i as real, j as real)
  }

  ghost predicate Among(x: Json, items: seq<Json>) {
    exists k :: 0 <= k < |items| && PyEq(items[k], x)
  }

  predicate OccursAt(part: string, s: string, k: nat) {
    k + |part| <= |s| && s[k..k + |part|] == part
  }

  ghost predicate Occurs(part: string, s: string) { exists k: nat :: OccursAt(part, s, k) }

  ghost predicate LeafHolds(op: string, actual: Json, value: Json, parse: Parser) {
    && !actual.Null?
    && (op == "eq" ==> PyEq(actual, value))
    && (op in NUMERIC_OPS ==> NumbersOrdered(op, actual, value, parse))
    && (op in SEVERITY_OPS ==> SeveritiesOrdered(op, actual, value))
    && (op == "in" ==>
          || (value.Arr? && Among(actual, value.items))
          || (value.Str? && value.s != "" && actual.Str? && Occurs(actual.s, value.s))
          || (value.Obj? && actual.Str? && exists k :: 0 <= k < |value.entries| && value.entries[k].key == actual.s))
    && (op == "contains" && actual.Arr? ==> Among(value, actual.items))
    && (op == "contains" && !actual.Arr? ==> actual.Str? && value.Str? && Occurs(value.s, actual.s))
  }

  lemma {:induction false} MemberMeans(x: Json, items: seq<Json>)
    ensures Member(x, items) <==> Among(x, items)
  {
    if items != [] {
      MemberMeans(x, items[1..]);
      if Among(x, items[1..]) {
        var k :| 0 <= k < |items[1..]| && PyEq(items[1..][k], x);
        assert PyEq(items[k + 1], x);
      }
      if Among(x, items) && !PyEq(items[0], x) {
        var k :| 0 <= k < |items| && PyEq(items[k], x);
        assert PyEq(items[1..][k - 1], x);
      }
    }
  }

  /** An occurrence after the first place is one in the tail. */
  lemma OccurrenceShifts(part: string, s: string, k: nat)
    requires s != ""
    ensures OccursAt(part, s, k + 1) <==> OccursAt(part, s[1..], k)
  {
    if k + 1 + |part| <= |s| { assert s[k + 1..k + 1 + |part|] == s[1..][k..k + |part|]; }
  }

  lemma OccurrenceAtStart(part: string, s: string)
    ensures OccursAt(part, s, 0) <==> part <= s
  {
  }

  lemma {:induction false} SubstringMeans(part: string, s: string)
    ensures Substring(part, s) <==> Occurs(part, s)
  {
    OccurrenceAtStart(part, s);
    if s == "" {
      if k: nat :| OccursAt(part, s, k) { assert k == 0; }
    } else {
      SubstringMeans(part, s[1..]);
      if k: nat :| OccursAt(part, s[1..], k) { OccurrenceShifts(part, s, k); }
      if k: nat :| OccursAt(part, s, k) && k > 0 { OccurrenceShifts(part, s, k - 1); }
    }
  }

  lemma RankMeans(v: Json, k: nat)
    ensures SeverityRank(v) == Some(k) <==> OnStep(v, k)
  {
  }

  lemma SeverityLeafMeans(op: string, actual: Json, value: Json)
    requires op in SEVERITY_OPS && SeverityRank(actual).Some? && SeverityRank(value).Some?
    ensures Compares(op, SeverityRank(actual).value, SeverityRank(value).value)
            <==> SeveritiesOrdered(op, actual, value)
  {
    var i, j := SeverityRank(actual).value, SeverityRank(value).value;
    RankMeans(actual, i);
    RankMeans(value, j);
    if i', j' :| OnStep(actual, i') && OnStep(value, j') && Ordered(op, i' as real, j' as real) {
      RankMeans(actual, i');
      RankMeans(value, j');
    }
    CompareIsOrder(op, i, j);
  }

  lemma CompareIsOrder(op: string, i: nat, j: nat)
    requires op in SEVERITY_OPS
    ensures Compares(op, i, j) <==> Ordered(op, i as real, j as real)
  {
  }

  lemma NumericLeafMeans(op: string, field: string, value: Json, ctx: Context, parse: Parser)
    requires op in NUMERIC_OPS && !Lookup(ctx, field).Null?
    ensures Leaf(op, field, value, ctx, parse) == Val(NumbersOrdered(op, Lookup(ctx, field), value, parse))
  {
    var actual := Lookup(ctx, field);
    forall v: Json, a: real ensures ReadsAs(v, a, parse) <==> ToNumber(v, parse) == Some(a) { }
    var a, b := ToNumber(actual, parse), ToNumber(value, parse);
    if a.Some? && b.Some? {
      assert ReadsAs(actual, a.value, parse) && ReadsAs(value, b.value, parse);
      assert NumbersOrdered(op, actual, value, parse) <==> Ordered(op, a.value, b.value);
    }
  }

  /** Python's empty values. */
  predicate Empty(v: Json) { v in {Null, Bool(false), Num(0.0), Str(""), Arr([]), Obj([])} }

  lemma TruthyMeans(v: Json)
    ensures Truthy(v) <==> !Empty(v)
    ensures OrEmpty(v) == if Empty(v) then Arr([]) else v
  {
  }

  /** Why a leaf raises, if it does. */
  ghost function LeafFault(op: string, actual: Json, value: Json): Option<Fault> {
    if actual.Null? then None
    else if op in SEVERITY_OPS && !((exists k :: OnStep(actual, k)) && exists k :: OnStep(value, k)) then Some(BadValue)
    else if op == "in" && !Empty(value) && !value.Arr? && !(value.Str? && actual.Str?)
            && !(value.Obj? && !actual.Arr? && !actual.Obj?) then Some(BadType)
    else if op == "contains" && actual.Str? && !value.Str? then Some(BadType)
    else None
  }

  lemma InMeans(actual: Json, value: Json, parse: Parser)
    requires !actual.Null?
    ensures In(actual, OrEmpty(value))
            == if LeafFault("in", actual, value).Some? then Raise(BadType)
               else Val(LeafHolds("in", actual, value, parse))
  {
    TruthyMeans(value);
    match value
    case Arr(items) => MemberMeans(actual, items);
    case Str(s) => if actual.Str? { SubstringMeans(actual.s, s); }
    case Obj(entries) => if actual.Str? { GetIsEntry(entries, actual.s); }
    case _ =>
  }

  lemma RankedMeans(v: Json)
    ensures SeverityRank(v).Some? <==> exists k :: OnStep(v, k)
  {
    if SeverityRank(v).Some? { RankMeans(v, SeverityRank(v).value); }
    if k :| OnStep(v, k) { RankMeans(v, k); }
  }

  /** Every leaf, on every context: it raises exactly on the operands its operator cannot take, and otherwise
      answers what it means. */
  lemma LeafMeans(op: string, field: string, value: Json, ctx: Context, parse: Parser)
    requires op in LEAF_OPS
    ensures var actual := Lookup(ctx, field);
            Leaf(op, field, value, ctx, parse)
            == match LeafFault(op, actual, value)
               case Some(fault) => Raise(fault)
               case None => Val(LeafHolds(op, actual, value, parse))
  {
    var actual := Lookup(ctx, field);
    if !actual.Null? {
      if op in NUMERIC_OPS {
        NumericLeafMeans(op, field, value, ctx, parse);
      } else if op in SEVERITY_OPS {
        RankedMeans(actual);
        RankedMeans(value);
        if SeverityRank(actual).Some? && SeverityRank(value).Some? { SeverityLeafMeans(op, actual, value); }
      } else if op == "in" {
        InMeans(actual, value, parse);
      } else if op == "contains" && actual.Arr? {
        MemberMeans(value, actual.items);
      } else if op == "contains" && actual.Str? && value.Str? {
        SubstringMeans(value.s, actual.s);
      }
    }
  }

  /** A well-formed leaf does not raise where its severity field is absent or on the ladder. */
  lemma WellFormedLeafMeans(op: string, field: string, value: Json, ctx: Context, parse: Parser)
    requires LeafWellFormed(op, value) && Admissible(op, field, ctx)
    ensures Leaf(op, field, value, ctx, parse) == Val(LeafHolds(op, Lookup(ctx, field), value, parse))
  {
    LeafMeans(op, field, value, ctx, parse);
    WellFormedLeafIsSafe(op, field, value, ctx, parse);
  }

  /** v is the number x to Python's equality: a truth value counts as one or zero. */
  predicate CountsAs(v: Json, x: real) {
    v == Num(x) || (v == Bool(true) && x == 1.0) || (v == Bool(false) && x == 0.0)
  }

  /** `==`: numbers by value, lists place by place, dictionaries key by key, texts and None as they are, and
      values of different kinds never. */
  lemma PyEqMeans(a: Json, b: Json)
    ensures a.Str? || a.Null? ==> (PyEq(a, b) <==> a == b)
    ensures a.Num? || a.Bool? ==> (PyEq(a, b) <==> exists x: real :: CountsAs(a, x) && CountsAs(b, x))
    ensures a.Arr? ==>
      (PyEq(a, b) <==> b.Arr? && |a.items| == |b.items|
                       && forall k :: 0 <= k < |a.items| ==> PyEq(a.items[k], b.items[k]))
    ensures a.Obj? ==>
      (PyEq(a, b) <==> b.Obj? && |a.entries| == |b.entries|
                       && forall k :: 0 <= k < |a.entries| ==> EqualsIn(a.entries[k], b.entries))
  {
    if a.Num? || a.Bool? {
      forall v: Json, x: real ensures CountsAs(v, x) <==> Number(v) == Some(x) { }
      assert CountsAs(a, Number(a).value);
    } else if a.Arr? && b.Arr? {
      PyEqItemsMeans(a.items, b.items);
    } else if a.Obj? && b.Obj? {
      PyEqEntriesMeans(a.entries, b.entries);
    }
  }

  predicate EqualsIn(e: Entry, entries: seq<Entry>) {
    Get(entries, e.key).Some? && PyEq(e.value, Get(entries, e.key).value)
  }

  lemma {:induction false} PyEqItemsMeans(a: seq<Json>, b: seq<Json>)
    ensures PyEqItems(a, b) <==> |a| == |b| && forall k :: 0 <= k < |a| ==> PyEq(a[k], b[k])
  {
    if a != [] && |a| == |b| {
      PyEqItemsMeans(a[1..], b[1..]);
      assert forall k :: 0 < k < |a| ==> a[k] == a[1..][k - 1] && b[k] == b[1..][k - 1];
      if forall k :: 0 <= k < |a| ==> PyEq(a[k], b[k]) {
        assert forall k :: 0 <= k < |a[1..]| ==> a[1..][k] == a[k + 1] && b[1..][k] == b[k + 1];
      }
    }
  }

  lemma {:induction false} PyEqEntriesMeans(a: seq<Entry>, b: seq<Entry>)
    ensures PyEqEntries(a, b) <==> forall k :: 0 <= k < |a| ==> EqualsIn(a[k], b)
  {
    if a != [] {
      PyEqEntriesMeans(a[1..], b);
      assert forall k :: 0 < k < |a| ==> a[k] == a[1..][k - 1];
      if forall k :: 0 <= k < |a| ==> EqualsIn(a[k], b) {
        assert forall k :: 0 <= k < |a[1..]| ==> a[1..][k] == a[k + 1];
      }
    }
  }

  /** Severity names are read in any case. */
  lemma {:induction false} LowerMeans(s: string)
    ensures |Lower(s)| == |s|
    ensures forall k :: 0 <= k < |s| ==>
      Lower(s)[k] == if 'A' <= s[k] <= 'Z' then ((s[k] as int) - ('A' as int) + ('a' as int)) as char else s[k]
  {
    if s != "" { LowerMeans(s[1..]); }
  }

  // ------------------------------------------------------------------- policies

  /** The policy holds: every condition of an `and`, some condition of an `or`, not the condition of a `not`. */
  ghost predicate Holds(expr: Json, ctx: Context, parse: Parser, depth: nat)
    decreases MAX_DEPTH + 1 - depth, expr
  {
    && depth <= MAX_DEPTH && expr.Obj? && Field(expr.entries, "op").Str?
    && var op, children := Field(expr.entries, "op").s, Children(Field(expr.entries, "conditions"));
       if op == "always_true" then true
       else if op == "always_false" then false
       else if op == "and" then
         children.Some? && forall k :: 0 <= k < |children.value| ==> Holds(children.value[k], ctx, parse, depth + 1)
       else if op == "or" then
         children.Some? && exists k :: 0 <= k < |children.value| && Holds(children.value[k], ctx, parse, depth + 1)
       else if op == "not" then !Holds(Field(expr.entries, "condition"), ctx, parse, depth + 1)
       else
         var field := Field(expr.entries, "field");
         field.Str? && LeafHolds(op, Lookup(ctx, field.s), Field(expr.entries, "value"), parse)
  }

  ghost predicate AllHold(children: seq<Json>, ctx: Context, parse: Parser, depth: nat) {
    forall k :: 0 <= k < |children| ==> Holds(children[k], ctx, parse, depth)
  }

  ghost predicate SomeHolds(children: seq<Json>, ctx: Context, parse: Parser, depth: nat) {
    exists k :: 0 <= k < |children| && Holds(children[k], ctx, parse, depth)
  }

  /** On every well-formed policy and every context on the ladder, evaluation with its short circuits
      gives the policy's meaning; the order of conditions does not matter. */
  lemma {:induction false} EvaluationIsMeaning(expr: Json, ctx: Context, parse: Parser, depth: nat)
    requires WellFormed(expr, depth) && OnLadder(expr, ctx, depth)
    ensures Evaluate(expr, ctx, parse, depth) == Val(Holds(expr, ctx, parse, depth))
    decreases MAX_DEPTH + 1 - depth, 0, expr
  {
    var op := Field(expr.entries, "op").s;
    if op in {"and", "or"} {
      var children := Children(Field(expr.entries, "conditions")).value;
      AllChildrenMean(op == "or", children, ctx, parse, depth + 1);
      assert op == "and" ==> (Holds(expr, ctx, parse, depth) <==> AllHold(children, ctx, parse, depth + 1));
      assert op == "or" ==> (Holds(expr, ctx, parse, depth) <==> SomeHolds(children, ctx, parse, depth + 1));
    } else if op == "not" {
      EvaluationIsMeaning(Field(expr.entries, "condition"), ctx, parse, depth + 1);
    } else if op !in {"always_true", "always_false"} {
      WellFormedLeafMeans(op, Field(expr.entries, "field").s, Field(expr.entries, "value"), ctx, parse);
    }
  }

  lemma {:induction false} AllChildrenMean(stop: bool, children: seq<Json>, ctx: Context, parse: Parser, depth: nat)
    requires AllWellFormed(children, depth) && AllOnLadder(children, ctx, depth)
    ensures EvaluateUntil(stop, children, ctx, parse, depth)
            == Val(if stop then SomeHolds(children, ctx, parse, depth) else AllHold(children, ctx, parse, depth))
    decreases MAX_DEPTH + 1 - depth, |children|
  {
    if children != [] {
      EvaluationIsMeaning(children[0], ctx, parse, depth);
      AllChildrenMean(stop, children[1..], ctx, parse, depth);
      HoldSplits(children, ctx, parse, depth);
    }
  }

  lemma HoldSplits(children: seq<Json>, ctx: Context, parse: Parser, depth: nat)
    requires children != []
    ensures var head := Holds(children[0], ctx, parse, depth);
            && (AllHold(children, ctx, parse, depth) <==> head && AllHold(children[1..], ctx, parse, depth))
            && (SomeHolds(children, ctx, parse, depth) <==> head || SomeHolds(children[1..], ctx, parse, depth))
  {
    assert forall k :: 0 < k < |children| ==> children[k] == children[1..][k - 1];
    if k :| 0 <= k < |children[1..]| && Holds(children[1..][k], ctx, parse, depth) {
      assert Holds(children[k + 1], ctx, parse, depth);
    }
    if !AllHold(children[1..], ctx, parse, depth) {
      var k :| 0 <= k < |children[1..]| && !Holds(children[1..][k], ctx, parse, depth);
      assert !Holds(children[k + 1], ctx, parse, depth);
    }
  }
}
