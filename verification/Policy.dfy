/** The approval-policy expression evaluator and the validator that guards it on save. */
module Policy {
  import opened Common
  import opened Json

  const MAX_DEPTH := 16

  const LADDER: seq<string> := ["info", "low", "medium", "high", "critical"]
  const NUMERIC_OPS := {"gt", "lt", "gte", "lte"}
  const SEVERITY_OPS := {"severity_gt", "severity_lt", "severity_gte", "severity_lte"}
  const LEAF_OPS := NUMERIC_OPS + SEVERITY_OPS + {"eq", "in", "contains"}

  /** Why an evaluation raised: nesting (ValueError), any other ValueError, or a TypeError. */
  datatype Fault = TooDeep | BadValue | BadType

  datatype Outcome = Val(b: bool) | Raise(fault: Fault)

  type Context = map<string, Json>

  /** float() on a string: None is a ValueError. */
  type Parser = string -> Option<real>

  // ----------------------------------------------------------------- operands

  function Field(entries: seq<Entry>, key: string): Json { Get(entries, key).Or(Null) }

  function Lookup(ctx: Context, field: string): Json { if field in ctx then ctx[field] else Null }

  /** Python's truth value. */
  predicate Truthy(v: Json) {
    match v
    case Null => false
    case Bool(b) => b
    case Num(n) => n != 0.0
    case Str(s) => s != ""
    case Arr(items) => items != []
    case Obj(entries) => entries != []
  }

  function OrEmpty(v: Json): Json { if Truthy(v) then v else Arr([]) }

  function Number(v: Json): Option<real> {
    match v
    case Bool(b) => Some(if b then 1.0 else 0.0)
    case Num(n) => Some(n)
    case _ => None
  }

  /** Python equality: True == 1, dictionaries compare without order. */
  predicate PyEq(a: Json, b: Json)
    decreases a, 1
  {
    if Number(a).Some? && Number(b).Some? then Number(a) == Number(b)
    else
      match a
      case Arr(items) => b.Arr? && PyEqItems(items, b.items)
      case Obj(entries) => b.Obj? && |entries| == |b.entries| && PyEqEntries(entries, b.entries)
      case _ => a == b
  }

  predicate PyEqItems(a: seq<Json>, b: seq<Json>)
    decreases a, 0
  {
    |a| == |b| && (a == [] || (PyEq(a[0], b[0]) && PyEqItems(a[1..], b[1..])))
  }

  predicate PyEqEntries(a: seq<Entry>, b: seq<Entry>)
    decreases a, 0
  {
    a == [] || (Get(b, a[0].key).Some? && PyEq(a[0].value, Get(b, a[0].key).value) && PyEqEntries(a[1..], b))
  }

  predicate Member(x: Json, items: seq<Json>) {
    items != [] && (PyEq(items[0], x) || Member(x, items[1..]))
  }

  predicate Substring(part: string, s: string) {
    part <= s || (s != "" && Substring(part, s[1..]))
  }

  /** `x in container`. */
  function In(x: Json, container: Json): Outcome {
    match container
    case Arr(items) => Val(Member(x, items))
    case Str(s) => if x.Str? then Val(Substring(x.s, s)) else Raise(BadType)
    case Obj(entries) =>
      if x.Arr? || x.Obj? then Raise(BadType) else Val(x.Str? && Get(entries, x.s).Some?)
    case _ => Raise(BadType)
  }

  function ToNumber(v: Json, parse: Parser): Option<real> {
    match v
    case Num(n) => Some(n)
    case Str(s) => parse(s)
    case _ => None
  }

  function Lower(s: string): string {
    if s == "" then ""
    else [if 'A' <= s[0] <= 'Z' then ((s[0] as int) + 32) as char else s[0]] + Lower(s[1..])
  }

  /** The rank of a severity name, in any case; None is a ValueError. */
  function Rank(name: string): (r: Option<nat>)
    ensures r.Some? ==> r.value < |LADDER|
  {
    LadderIndex(Lower(name))
  }

  function LadderIndex(name: string): (r: Option<nat>)
    ensures r.Some? ==> r.value < |LADDER|
  {
    if name == "info" then Some(0)
    else if name == "low" then Some(1)
    else if name == "medium" then Some(2)
    else if name == "high" then Some(3)
    else if name == "critical" then Some(4)
    else None
  }

  function SeverityRank(v: Json): Option<nat> { if v.Str? then Rank(v.s) else None }

  // --------------------------------------------------------------- evaluation

  predicate Compares(op: string, a: nat, b: nat)
    requires op in SEVERITY_OPS
  {
    if op == "severity_gt" then a > b
    else if op == "severity_lt" then a < b
    else if op == "severity_gte" then a >= b
    else a <= b
  }

  function Leaf(op: string, field: string, value: Json, ctx: Context, parse: Parser): Outcome
    requires op in LEAF_OPS
  {
    var actual := Lookup(ctx, field);
    if actual.Null? then Val(false)
    else if op == "eq" then Val(PyEq(actual, value))
    else if op in NUMERIC_OPS then
      var a, b := ToNumber(actual, parse), ToNumber(value, parse);
      if a.None? || b.None? then Val(false)
      else if op == "gt" then Val(a.value > b.value)
      else if op == "lt" then Val(a.value < b.value)
      else if op == "gte" then Val(a.value >= b.value)
      else Val(a.value <= b.value)
    else if op in SEVERITY_OPS then
      var a, b := SeverityRank(actual), SeverityRank(value);
      if a.None? || b.None? then Raise(BadValue) else Val(Compares(op, a.value, b.value))
    else if op == "in" then In(actual, OrEmpty(value))
    else if actual.Arr? || actual.Str? then In(value, actual)
    else Val(false)
  }

  /** What `for child in value or []` visits: list items, dictionary keys, characters; None is a TypeError. */
  function Children(v: Json): Option<seq<Json>> {
    match OrEmpty(v)
    case Arr(items) => Some(items)
    case Obj(entries) => Some(seq(|entries|, k requires 0 <= k < |entries| => Str(entries[k].key)))
    case Str(s) => Some(seq(|s|, k requires 0 <= k < |s| => Str([s[k]])))
    case _ => None
  }

  function Negated(o: Outcome): Outcome { if o.Val? then Val(!o.b) else o }

  function Evaluate(expr: Json, ctx: Context, parse: Parser, depth: nat): Outcome
    decreases MAX_DEPTH + 1 - depth, 0, expr
  {
    if depth > MAX_DEPTH then Raise(TooDeep)
    else if !expr.Obj? then Raise(BadValue)
    else
      var op := Field(expr.entries, "op");
      if op.Arr? || op.Obj? then Raise(BadType)
      else if op == Str("always_true") then Val(true)
      else if op == Str("always_false") then Val(false)
      else if op == Str("and") || op == Str("or") then
        var children := Children(Field(expr.entries, "conditions"));
        if children.None? then Raise(BadType)
        else EvaluateUntil(op == Str("or"), children.value, ctx, parse, depth + 1)
      else if op == Str("not") then
        var inner := Field(expr.entries, "condition");
        if inner.Null? then Raise(BadValue) else Negated(Evaluate(inner, ctx, parse, depth + 1))
      else if op.Str? && op.s in LEAF_OPS then
        var field := Field(expr.entries, "field");
        if !field.Str? then Raise(BadValue) else Leaf(op.s, field.s, Field(expr.entries, "value"), ctx, parse)
      else Raise(BadValue)
  }

  /** all() stops at the first false child, any() at the first true one; both stop at a raise. */
  function EvaluateUntil(stop: bool, children: seq<Json>, ctx: Context, parse: Parser, depth: nat): Outcome
    decreases MAX_DEPTH + 1 - depth, |children|
  {
    if children == [] then Val(!stop)
    else
      var head := Evaluate(children[0], ctx, parse, depth);
      if head == Val(!stop) then EvaluateUntil(stop, children[1..], ctx, parse, depth) else head
  }

  // --------------------------------------------------------------- validation

  /** The save-time walk: None when it finds nothing, else what it raises. */
  function Misuse(expr: Json, depth: nat): Option<Fault>
    decreases MAX_DEPTH + 1 - depth, 0, expr
  {
    if depth > MAX_DEPTH then Some(TooDeep)
    else if !expr.Obj? then None
    else
      var op := Field(expr.entries, "op");
      var children := Children(Field(expr.entries, "conditions"));
      var inner := Field(expr.entries, "condition");
      if op.Arr? || op.Obj? then Some(BadType)
      else if op.Str? && op.s in NUMERIC_OPS && Field(expr.entries, "field") == Str("severity") then Some(BadValue)
      else if children.None? then Some(BadType)
      else
        var below := MisuseOfAny(children.value, depth + 1);
        if below.Some? || inner.Null? then below else Misuse(inner, depth + 1)
  }

  function MisuseOfAny(children: seq<Json>, depth: nat): Option<Fault>
    decreases MAX_DEPTH + 1 - depth, |children|
  {
    if children == [] then None
    else
      var head := Misuse(children[0], depth);
      if head.Some? then head else MisuseOfAny(children[1..], depth)
  }

  const VALIDATION_CTX: Context := map[
    "severity" := Str("critical"),
    "confidence" := Num(50.0),
    "verdict" := Str("true_positive"),
    "tenant_id" := Str("00000000-0000-0000-0000-000000000000"),
    "mitre_techniques" := Arr([Str("T1059")]),
    "review_status" := Str("approved"),
    "writeback_mode" := Str("dual"),
    "approval_status" := Str("auto")
  ]

  /** validate_policy_shape returns normally. */
  predicate Accepted(expr: Json, parse: Parser) {
    Misuse(expr, 0).None? && Evaluate(expr, VALIDATION_CTX, parse, 0).Val?
  }

  // ------------------------------------------------- what acceptance does promise

  /** Whatever the evaluator visits, the save-time walk visited at the same depth. */
  lemma {:induction false} WalkedNeverTooDeep(expr: Json, ctx: Context, parse: Parser, depth: nat)
    requires Misuse(expr, depth).None?
    ensures Evaluate(expr, ctx, parse, depth) != Raise(TooDeep)
    decreases MAX_DEPTH + 1 - depth, 0, expr
  {
    if expr.Obj? {
      var op := Field(expr.entries, "op");
      if op == Str("and") || op == Str("or") {
        var children := Children(Field(expr.entries, "conditions"));
        WalkedChildrenNeverTooDeep(op == Str("or"), children.value, ctx, parse, depth + 1);
      } else if op == Str("not") && !Field(expr.entries, "condition").Null? {
        WalkedNeverTooDeep(Field(expr.entries, "condition"), ctx, parse, depth + 1);
      }
    }
  }

  lemma {:induction false} WalkedChildrenNeverTooDeep(stop: bool, children: seq<Json>, ctx: Context, parse: Parser,
                                                      depth: nat)
    requires MisuseOfAny(children, depth).None?
    ensures EvaluateUntil(stop, children, ctx, parse, depth) != Raise(TooDeep)
    decreases MAX_DEPTH + 1 - depth, |children|
  {
    if children != [] {
      WalkedNeverTooDeep(children[0], ctx, parse, depth);
      WalkedChildrenNeverTooDeep(stop, children[1..], ctx, parse, depth);
    }
  }

  /** An accepted policy never raises the depth error, on any context. */
  lemma AcceptedNeverTooDeep(expr: Json, ctx: Context, parse: Parser)
    requires Accepted(expr, parse)
    ensures Evaluate(expr, ctx, parse, 0) != Raise(TooDeep)
  {
    WalkedNeverTooDeep(expr, ctx, parse, 0);
  }

  // ------------------------------------------------------------ well-formed policies

  /** A leaf whose value suits its operator. */
  predicate LeafWellFormed(op: string, value: Json) {
    && op in LEAF_OPS
    && (op in SEVERITY_OPS ==> SeverityRank(value).Some?)
    && (op == "in" ==> OrEmpty(value).Arr?)
    && (op == "contains" ==> value.Str?)
  }

  /** Well-formed at every node, reached or not, within the depth cap. */
  predicate WellFormed(expr: Json, depth: nat)
    decreases MAX_DEPTH + 1 - depth, 0, expr
  {
    && depth <= MAX_DEPTH
    && expr.Obj?
    && var op := Field(expr.entries, "op");
       && op.Str?
       && if op.s in {"always_true", "always_false"} then true
          else if op.s in {"and", "or"} then
            var children := Children(Field(expr.entries, "conditions"));
            children.Some? && AllWellFormed(children.value, depth + 1)
          else if op.s == "not" then WellFormed(Field(expr.entries, "condition"), depth + 1)
          else LeafWellFormed(op.s, Field(expr.entries, "value")) && Field(expr.entries, "field").Str?
  }

  predicate AllWellFormed(children: seq<Json>, depth: nat)
    decreases MAX_DEPTH + 1 - depth, |children|
  {
    children == [] || (WellFormed(children[0], depth) && AllWellFormed(children[1..], depth))
  }

  /** Every field some severity leaf of the policy compares is absent or on the ladder. */
  predicate OnLadder(expr: Json, ctx: Context, depth: nat)
    decreases MAX_DEPTH + 1 - depth, 0, expr
  {
    depth <= MAX_DEPTH && expr.Obj? && Field(expr.entries, "op").Str? ==>
      var op, field := Field(expr.entries, "op").s, Field(expr.entries, "field");
      var children := Children(Field(expr.entries, "conditions"));
      if op in {"and", "or"} then children.Some? ==> AllOnLadder(children.value, ctx, depth + 1)
      else if op == "not" then OnLadder(Field(expr.entries, "condition"), ctx, depth + 1)
      else field.Str? ==> Admissible(op, field.s, ctx)
  }

  predicate AllOnLadder(children: seq<Json>, ctx: Context, depth: nat)
    decreases MAX_DEPTH + 1 - depth, |children|
  {
    children == [] || (OnLadder(children[0], ctx, depth) && AllOnLadder(children[1..], ctx, depth))
  }

  predicate Admissible(op: string, field: string, ctx: Context) {
    op in SEVERITY_OPS ==> Lookup(ctx, field).Null? || SeverityRank(Lookup(ctx, field)).Some?
  }

  /** A policy well-formed at every node never raises where its severity fields are absent or on the ladder. */
  lemma {:induction false} WellFormedNeverRaises(expr: Json, ctx: Context, parse: Parser, depth: nat)
    requires WellFormed(expr, depth) && OnLadder(expr, ctx, depth)
    ensures Evaluate(expr, ctx, parse, depth).Val?
    decreases MAX_DEPTH + 1 - depth, 0, expr
  {
    var op := Field(expr.entries, "op").s;
    if op in {"and", "or"} {
      AllWellFormedNeverRaise(op == "or", Children(Field(expr.entries, "conditions")).value, ctx, parse, depth + 1);
    } else if op == "not" {
      WellFormedNeverRaises(Field(expr.entries, "condition"), ctx, parse, depth + 1);
    }
  }

  lemma {:induction false} AllWellFormedNeverRaise(stop: bool, children: seq<Json>, ctx: Context, parse: Parser,
                                                   depth: nat)
    requires AllWellFormed(children, depth) && AllOnLadder(children, ctx, depth)
    ensures EvaluateUntil(stop, children, ctx, parse, depth).Val?
    decreases MAX_DEPTH + 1 - depth, |children|
  {
    if children != [] {
      WellFormedNeverRaises(children[0], ctx, parse, depth);
      AllWellFormedNeverRaise(stop, children[1..], ctx, parse, depth);
    }
  }

  /** A context on which an ill-formed leaf raises. */
  function Offending(op: string, field: string, name: string): Context {
    map[field := if op == "in" then Arr([]) else Str(name)]
  }

  lemma IllFormedLeafRaises(op: string, field: string, value: Json, ctx: Context, parse: Parser)
    requires op in LEAF_OPS && !LeafWellFormed(op, value)
    requires if op == "in" then Lookup(ctx, field) == Arr([]) else Lookup(ctx, field).Str?
    ensures Leaf(op, field, value, ctx, parse).Raise?
  {
    if op in SEVERITY_OPS {
      assert SeverityRank(value).None?;
    } else if op == "in" {
      assert !OrEmpty(value).Arr?;
    } else {
      assert op == "contains" && !value.Str?;
    }
  }

  lemma WellFormedLeafIsSafe(op: string, field: string, value: Json, ctx: Context, parse: Parser)
    requires LeafWellFormed(op, value) && Admissible(op, field, ctx)
    ensures Leaf(op, field, value, ctx, parse).Val?
  {
  }

  ghost predicate NeverRaises(op: string, field: string, value: Json, parse: Parser)
    requires op in LEAF_OPS
  {
    forall ctx: Context :: Admissible(op, field, ctx) ==> Leaf(op, field, value, ctx, parse).Val?
  }

  /** On leaves the condition is exact: a leaf raises on no admissible context if and only if it is well-formed. */
  lemma LeafConditionIsExact(op: string, field: string, value: Json, parse: Parser)
    requires op in LEAF_OPS
    ensures NeverRaises(op, field, value, parse) <==> LeafWellFormed(op, value)
  {
    if LeafWellFormed(op, value) {
      forall ctx: Context | Admissible(op, field, ctx) ensures Leaf(op, field, value, ctx, parse).Val? {
        WellFormedLeafIsSafe(op, field, value, ctx, parse);
      }
    } else {
      var name := LadderName();
      OffendingIsAdmissible(op, field, name);
      IllFormedLeafRaises(op, field, value, Offending(op, field, name), parse);
    }
  }

  lemma OffendingIsAdmissible(op: string, field: string, name: string)
    requires Rank(name).Some?
    ensures Admissible(op, field, Offending(op, field, name))
    ensures Lookup(Offending(op, field, name), field) == if op == "in" then Arr([]) else Str(name)
  {
  }

  lemma LadderName() returns (name: string)
    ensures Rank(name).Some?
  {
    SomeRanks();
    name := "low";
  }

  /** The expression raises on no context that keeps its severity fields absent or on the ladder. */
  ghost predicate FaultFree(expr: Json, parse: Parser, depth: nat) {
    forall ctx: Context :: OnLadder(expr, ctx, depth) ==> Evaluate(expr, ctx, parse, depth).Val?
  }

  /** So do the expression and every expression inside it that its operator evaluates. */
  ghost predicate FaultFreeThroughout(expr: Json, parse: Parser, depth: nat)
    decreases MAX_DEPTH + 1 - depth, 0, expr
  {
    && FaultFree(expr, parse, depth)
    && (depth <= MAX_DEPTH && expr.Obj? && Field(expr.entries, "op").Str? ==>
          var op, children := Field(expr.entries, "op").s, Children(Field(expr.entries, "conditions"));
          if op in {"and", "or"} then children.Some? ==> AllFaultFree(children.value, parse, depth + 1)
          else op == "not" ==> FaultFreeThroughout(Field(expr.entries, "condition"), parse, depth + 1))
  }

  ghost predicate AllFaultFree(children: seq<Json>, parse: Parser, depth: nat)
    decreases MAX_DEPTH + 1 - depth, |children|
  {
    children == [] || (FaultFreeThroughout(children[0], parse, depth) && AllFaultFree(children[1..], parse, depth))
  }

  lemma EmptyIsOnLadder(expr: Json, depth: nat)
    ensures OnLadder(expr, map[], depth)
    decreases MAX_DEPTH + 1 - depth, 0, expr
  {
    if depth <= MAX_DEPTH && expr.Obj? && Field(expr.entries, "op").Str? {
      var children := Children(Field(expr.entries, "conditions"));
      if children.Some? { EmptyIsAllOnLadder(children.value, depth + 1); }
      EmptyIsOnLadder(Field(expr.entries, "condition"), depth + 1);
    }
  }

  lemma EmptyIsAllOnLadder(children: seq<Json>, depth: nat)
    ensures AllOnLadder(children, map[], depth)
    decreases MAX_DEPTH + 1 - depth, |children|
  {
    if children != [] {
      EmptyIsOnLadder(children[0], depth);
      EmptyIsAllOnLadder(children[1..], depth);
    }
  }

  /** A leaf expression that never raises has a string field and a value that suits its operator. */
  lemma FaultFreeLeaf(expr: Json, parse: Parser, depth: nat)
    requires depth <= MAX_DEPTH && expr.Obj? && FaultFree(expr, parse, depth)
    requires var op := Field(expr.entries, "op");
             op.Str? && op.s !in {"and", "or", "not", "always_true", "always_false"}
    ensures WellFormed(expr, depth)
  {
    var op, field, value := Field(expr.entries, "op").s, Field(expr.entries, "field"), Field(expr.entries, "value");
    EmptyIsOnLadder(expr, depth);
    assert Evaluate(expr, map[], parse, depth).Val?;
    assert op in LEAF_OPS && field.Str?;
    forall ctx: Context | Admissible(op, field.s, ctx) ensures Leaf(op, field.s, value, ctx, parse).Val? {
      assert OnLadder(expr, ctx, depth);
      assert Evaluate(expr, ctx, parse, depth).Val?;
    }
    LeafConditionIsExact(op, field.s, value, parse);
  }

  /** Well-formedness at every node is exactly freedom from run-time errors throughout the policy. */
  lemma {:induction false} WellFormedIsExact(expr: Json, parse: Parser, depth: nat)
    ensures FaultFreeThroughout(expr, parse, depth) <==> WellFormed(expr, depth)
    decreases MAX_DEPTH + 1 - depth, 0, expr
  {
    EmptyIsOnLadder(expr, depth);
    if FaultFree(expr, parse, depth) {
      assert Evaluate(expr, map[], parse, depth).Val?;
      var op := Field(expr.entries, "op").s;
      if op in {"and", "or"} {
        AllWellFormedIsExact(Children(Field(expr.entries, "conditions")).value, parse, depth + 1);
      } else if op == "not" {
        WellFormedIsExact(Field(expr.entries, "condition"), parse, depth + 1);
      } else if op !in {"always_true", "always_false"} {
        FaultFreeLeaf(expr, parse, depth);
      }
    } else if WellFormed(expr, depth) {
      var ctx: Context :| OnLadder(expr, ctx, depth) && !Evaluate(expr, ctx, parse, depth).Val?;
      WellFormedNeverRaises(expr, ctx, parse, depth);
    }
  }

  lemma {:induction false} AllWellFormedIsExact(children: seq<Json>, parse: Parser, depth: nat)
    ensures AllFaultFree(children, parse, depth) <==> AllWellFormed(children, depth)
    decreases MAX_DEPTH + 1 - depth, |children|
  {
    if children != [] {
      WellFormedIsExact(children[0], parse, depth);
      AllWellFormedIsExact(children[1..], parse, depth);
    }
  }

  // ------------------------------------------------------- what acceptance misses

  function LeafExpr(op: string, field: string, value: Json): Json {
    Obj([Entry("op", Str(op)), Entry("field", Str(field)), Entry("value", value)])
  }

  function Combined(op: string, conditions: seq<Json>): Json {
    Obj([Entry("op", Str(op)), Entry("conditions", Arr(conditions))])
  }

  lemma GetOfThree(a: Entry, b: Entry, c: Entry, key: string)
    ensures Field([a, b, c], key)
            == if a.key == key then a.value else if b.key == key then b.value
               else if c.key == key then c.value else Null
    ensures Field([a, b], key) == if a.key == key then a.value else if b.key == key then b.value else Null
  {
    assert [a, b, c][1..] == [b, c] && [b, c][1..] == [c] && [c][1..] == [];
    assert [a, b][1..] == [b] && [b][1..] == [];
    assert Get([c], key) == if c.key == key then Some(c.value) else None;
    assert Get([b], key) == if b.key == key then Some(b.value) else None;
    assert Get([b, c], key) == if b.key == key then Some(b.value) else Get([c], key);
  }

  lemma LeafExprEvaluates(op: string, field: string, value: Json, ctx: Context, parse: Parser, depth: nat)
    requires op in LEAF_OPS - NUMERIC_OPS && depth <= MAX_DEPTH
    ensures Evaluate(LeafExpr(op, field, value), ctx, parse, depth) == Leaf(op, field, value, ctx, parse)
    ensures Misuse(LeafExpr(op, field, value), depth).None?
    ensures WellFormed(LeafExpr(op, field, value), depth) <==> LeafWellFormed(op, value)
  {
    var a, b, c := Entry("op", Str(op)), Entry("field", Str(field)), Entry("value", value);
    GetOfThree(a, b, c, "op");
    GetOfThree(a, b, c, "field");
    GetOfThree(a, b, c, "value");
    GetOfThree(a, b, c, "conditions");
    GetOfThree(a, b, c, "condition");
  }

  lemma CombinedEvaluates(op: string, first: Json, second: Json, ctx: Context, parse: Parser, depth: nat)
    requires op in {"and", "or"} && depth < MAX_DEPTH
    ensures var a, b := Evaluate(first, ctx, parse, depth + 1), Evaluate(second, ctx, parse, depth + 1);
            Evaluate(Combined(op, [first, second]), ctx, parse, depth) == if a == Val(op == "and") then b else a
    ensures Misuse(first, depth + 1).None? && Misuse(second, depth + 1).None?
            ==> Misuse(Combined(op, [first, second]), depth).None?
    ensures WellFormed(Combined(op, [first, second]), depth)
            <==> WellFormed(first, depth + 1) && WellFormed(second, depth + 1)
  {
    var a, b := Entry("op", Str(op)), Entry("conditions", Arr([first, second]));
    GetOfThree(a, b, b, "op");
    GetOfThree(a, b, b, "conditions");
    GetOfThree(a, b, b, "condition");
    GetOfThree(a, b, b, "field");
    assert [first, second][1..] == [second] && [second][1..] == [];
    assert EvaluateUntil(op == "or", [second], ctx, parse, depth + 1) == Evaluate(second, ctx, parse, depth + 1);
    assert MisuseOfAny([second], depth + 1) == Misuse(second, depth + 1);
    assert AllWellFormed([second], depth + 1) <==> WellFormed(second, depth + 1);
  }

  predicate IsLower(s: string) { forall k :: 0 <= k < |s| ==> !('A' <= s[k] <= 'Z') }

  lemma {:induction false} LowerOfLower(s: string)
    requires IsLower(s)
    ensures Lower(s) == s
  {
    if s != "" { LowerOfLower(s[1..]); }
  }

  lemma LadderNames()
    ensures forall k :: 0 <= k < |LADDER| ==> IsLower(LADDER[k]) && LadderIndex(LADDER[k]) == Some(k)
  {
  }

  lemma RankOfLadder()
    ensures forall k :: 0 <= k < |LADDER| ==> Rank(LADDER[k]) == Some(k)
  {
    LadderNames();
    forall k | 0 <= k < |LADDER| ensures Rank(LADDER[k]) == Some(k) { LowerOfLower(LADDER[k]); }
  }

  lemma OffLadder()
    ensures Rank("severe").None?
  {
    LowerOfLower("severe");
  }

  lemma ValidationSeverity()
    ensures Lookup(VALIDATION_CTX, "severity") == Str("critical")
  {
  }

  /** What a severity leaf says of a present field. */
  lemma SeverityLeafExpr(op: string, field: string, value: Json, ctx: Context, parse: Parser, depth: nat)
    requires op in SEVERITY_OPS && !Lookup(ctx, field).Null? && depth <= MAX_DEPTH
    ensures Misuse(LeafExpr(op, field, value), depth).None?
    ensures var a, b := SeverityRank(Lookup(ctx, field)), SeverityRank(value);
            Evaluate(LeafExpr(op, field, value), ctx, parse, depth)
            == if a.None? || b.None? then Raise(BadValue) else Val(Compares(op, a.value, b.value))
  {
    LeafExprEvaluates(op, field, value, ctx, parse, depth);
  }

  function SeverityOf(ctx: Context): Option<nat> { SeverityRank(Lookup(ctx, "severity")) }

  /** Acceptable to the save-time walk; on contexts with a ladder severity it raises below rank n and says b
      from there on. */
  ghost predicate RaisesBelow(expr: Json, n: nat, b: bool, parse: Parser, depth: nat) {
    && Misuse(expr, depth).None?
    && forall ctx: Context :: SeverityOf(ctx).Some? ==> RaisesOrSays(expr, n, b, ctx, parse, depth)
  }

  predicate RaisesOrSays(expr: Json, n: nat, b: bool, ctx: Context, parse: Parser, depth: nat)
    requires SeverityOf(ctx).Some?
  {
    var o := Evaluate(expr, ctx, parse, depth); if SeverityOf(ctx).value < n then o.Raise? else o == Val(b)
  }

  lemma NamedLeaf(named: string, parse: Parser, depth: nat) returns (sound: Json)
    requires depth <= MAX_DEPTH && Rank(named).Some?
    ensures Misuse(sound, depth).None?
    ensures forall ctx: Context :: SeverityOf(ctx).Some? ==>
      (Evaluate(sound, ctx, parse, depth) == Val(SeverityOf(ctx).value >= Rank(named).value))
  {
    sound := LeafExpr("severity_gte", "severity", Str(named));
    SeverityLeafExpr("severity_gte", "severity", Str(named), map["severity" := Str(named)], parse, depth);
    forall ctx: Context | SeverityOf(ctx).Some?
      ensures Evaluate(sound, ctx, parse, depth) == Val(SeverityOf(ctx).value >= Rank(named).value)
    {
      SeverityLeafExpr("severity_gte", "severity", Str(named), ctx, parse, depth);
    }
  }

  lemma UnknownLeaf(unknown: string, parse: Parser, depth: nat) returns (broken: Json)
    requires depth <= MAX_DEPTH && Rank(unknown).None?
    ensures Misuse(broken, depth).None?
    ensures forall ctx: Context :: SeverityOf(ctx).Some? ==> Evaluate(broken, ctx, parse, depth).Raise?
  {
    broken := LeafExpr("severity_gt", "severity", Str(unknown));
    SeverityLeafExpr("severity_gt", "severity", Str(unknown), map["severity" := Str(unknown)], parse, depth);
    forall ctx: Context | SeverityOf(ctx).Some? ensures Evaluate(broken, ctx, parse, depth).Raise? {
      SeverityLeafExpr("severity_gt", "severity", Str(unknown), ctx, parse, depth);
    }
  }

  /** A fault behind a short circuit: below the named severity the first alternative is false and the
      faulty second one raises; from it on, the second is never evaluated. */
  lemma ShortCircuitHidesFaults(named: string, unknown: string, parse: Parser, depth: nat) returns (either: Json)
    requires depth < MAX_DEPTH && Rank(named).Some? && Rank(unknown).None?
    ensures RaisesBelow(either, Rank(named).value, true, parse, depth)
  {
    var sound := NamedLeaf(named, parse, depth + 1);
    var broken := UnknownLeaf(unknown, parse, depth + 1);
    either := EitherOf(sound, broken, Rank(named).value, parse, depth);
  }

  lemma EitherOf(sound: Json, broken: Json, n: nat, parse: Parser, depth: nat) returns (either: Json)
    requires depth < MAX_DEPTH && Misuse(sound, depth + 1).None? && Misuse(broken, depth + 1).None?
    requires forall ctx: Context :: SeverityOf(ctx).Some? ==>
      (Evaluate(sound, ctx, parse, depth + 1) == Val(SeverityOf(ctx).value >= n))
    requires forall ctx: Context :: SeverityOf(ctx).Some? ==> Evaluate(broken, ctx, parse, depth + 1).Raise?
    ensures RaisesBelow(either, n, true, parse, depth)
  {
    either := Combined("or", [sound, broken]);
    CombinedEvaluates("or", sound, broken, map[], parse, depth);
    forall ctx: Context | SeverityOf(ctx).Some? ensures RaisesOrSays(either, n, true, ctx, parse, depth) {
      CombinedEvaluates("or", sound, broken, ctx, parse, depth);
    }
  }

  lemma TrialSeverity()
    ensures SeverityOf(VALIDATION_CTX) == Some(4)
  {
    ValidationSeverity();
    SomeRanks();
  }

  /** Acceptance is no promise of error-free runs: there are accepted policies that raise on every context
      whose severity lies below a name of the ladder. */
  lemma AcceptedMayRaise(named: string, unknown: string, parse: Parser) returns (expr: Json)
    requires Rank(named).Some? && Rank(unknown).None?
    ensures Accepted(expr, parse) && RaisesBelow(expr, Rank(named).value, true, parse, 0)
  {
    TrialSeverity();
    expr := ShortCircuitHidesFaults(named, unknown, parse, 0);
    assert RaisesOrSays(expr, Rank(named).value, true, VALIDATION_CTX, parse, 0);
  }

  lemma SomeRanks()
    ensures Rank("low") == Some(1) && Rank("high") == Some(3) && Rank("critical") == Some(4)
  {
    RankOfLadder();
    assert Rank(LADDER[1]) == Some(1) && Rank(LADDER[3]) == Some(3) && Rank(LADDER[4]) == Some(4);
  }
}
