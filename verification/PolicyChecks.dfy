/** What the save-time walk of a policy rejects, and what a list of conditions answers when some of them
    raise. */
module PolicyChecks {
  import opened Common
  import opened Json
  import opened Policy
  import opened PolicyMeaning

  // ------------------------------------------------------------------- the conditions

  /** What stands in the place of a list of conditions: nothing or something empty is no condition, a list its
      items, a dictionary its keys, a text its characters; a number or True cannot be gone through. */
  lemma ChildrenMean(v: Json)
    ensures Empty(v) ==> Children(v) == Some([])
    ensures v.Arr? ==> Children(v) == Some(v.items)
    ensures v.Obj? ==>
      && Children(v).Some? && |Children(v).value| == |v.entries|
      && forall k :: 0 <= k < |v.entries| ==> Children(v).value[k] == Str(v.entries[k].key)
    ensures v.Str? ==>
      && Children(v).Some? && |Children(v).value| == |v.s|
      && forall k :: 0 <= k < |v.s| ==> Children(v).value[k] == Str([v.s[k]])
    ensures Children(v).None? <==> !Empty(v) && (v.Num? || v.Bool?)
  {
    TruthyMeans(v);
  }

  /** A node that no operator can be read from raises at once, on every context. */
  lemma BrokenNodeRaises(node: Json, ctx: Context, parse: Parser, depth: nat)
    requires depth <= MAX_DEPTH
    ensures var o := Evaluate(node, ctx, parse, depth);
            && (!node.Obj? ==> o == Raise(BadValue))
            && (node.Obj? ==>
                  var op, children := Field(node.entries, "op"), Children(Field(node.entries, "conditions"));
                  && (op.Arr? || op.Obj? ==> o == Raise(BadType))
                  && (op in {Str("and"), Str("or")} && children.None? ==> o == Raise(BadType))
                  && (op == Str("not") && Field(node.entries, "condition").Null? ==> o == Raise(BadValue))
                  && (op.Str? && op.s in LEAF_OPS && !Field(node.entries, "field").Str? ==> o == Raise(BadValue))
                  && (!op.Str? && !op.Arr? && !op.Obj? ==> o == Raise(BadValue))
                  && (op.Str? && op.s !in LEAF_OPS + {"always_true", "always_false", "and", "or", "not"} ==>
                        o == Raise(BadValue)))
  {
  }

  /** Child n is the first that does not say "go on". */
  ghost predicate FirstToStop(stop: bool, children: seq<Json>, ctx: Context, parse: Parser, depth: nat, n: nat) {
    && n <= |children|
    && (forall k :: 0 <= k < n ==> Evaluate(children[k], ctx, parse, depth) == Val(!stop))
    && (n < |children| ==> Evaluate(children[n], ctx, parse, depth) != Val(!stop))
  }

  /** Raising or not, the first condition that does not say "go on" answers for all of them, and if there is
      none the list says "go on". */
  lemma {:induction false} FirstDecides(stop: bool, children: seq<Json>, ctx: Context, parse: Parser, depth: nat,
                                        n: nat)
    requires FirstToStop(stop, children, ctx, parse, depth, n)
    ensures EvaluateUntil(stop, children, ctx, parse, depth)
            == if n < |children| then Evaluate(children[n], ctx, parse, depth) else Val(!stop)
    decreases |children|
  {
    if n > 0 {
      assert forall k :: 0 <= k < |children[1..]| ==> children[1..][k] == children[k + 1];
      FirstDecides(stop, children[1..], ctx, parse, depth, n - 1);
    }
  }

  // ------------------------------------------------------------------- the save-time walk

  /** The expressions directly inside a node, whatever its operator. */
  function Inner(node: Json): seq<Json> {
    if !node.Obj? then []
    else
      var condition := Field(node.entries, "condition");
      Children(Field(node.entries, "conditions")).Or([]) + if condition.Null? then [] else [condition]
  }

  /** node lies n levels inside expr. */
  ghost predicate Inside(expr: Json, node: Json, n: nat)
    decreases n
  {
    if n == 0 then node == expr else exists e :: e in Inner(expr) && Inside(e, node, n - 1)
  }

  /** No list or dictionary for an operator, no arithmetic on a severity, conditions that can be gone through. */
  predicate NodeOk(node: Json) {
    node.Obj? ==>
      var op := Field(node.entries, "op");
      && !op.Arr? && !op.Obj?
      && !(op.Str? && op.s in NUMERIC_OPS && Field(node.entries, "field") == Str("severity"))
      && Children(Field(node.entries, "conditions")).Some?
  }

  ghost predicate AllOk(expr: Json, depth: nat) {
    forall node, n: nat :: Inside(expr, node, n) ==> NodeOk(node) && depth + n <= MAX_DEPTH
  }

  lemma AllOkStep(expr: Json, depth: nat)
    ensures AllOk(expr, depth)
            <==> depth <= MAX_DEPTH && NodeOk(expr) && forall e :: e in Inner(expr) ==> AllOk(e, depth + 1)
  {
    assert Inside(expr, expr, 0);
    if AllOk(expr, depth) {
      forall e, node, n: nat | e in Inner(expr) && Inside(e, node, n)
        ensures NodeOk(node) && depth + 1 + n <= MAX_DEPTH
      {
        assert Inside(expr, node, n + 1);
      }
    }
    if depth <= MAX_DEPTH && NodeOk(expr) && forall e :: e in Inner(expr) ==> AllOk(e, depth + 1) {
      forall node, n: nat | Inside(expr, node, n) ensures NodeOk(node) && depth + n <= MAX_DEPTH {
        if n > 0 {
          var e :| e in Inner(expr) && Inside(e, node, n - 1);
          assert AllOk(e, depth + 1);
        }
      }
    }
  }

  /** The save-time walk finds nothing if and only if every expression inside the policy, in a place its
      operator evaluates or not, has a usable operator, compares no severity as a number, and lies within the
      depth cap. */
  lemma {:induction false} WalkFindsNothingIff(expr: Json, depth: nat)
    ensures Misuse(expr, depth).None? <==> AllOk(expr, depth)
    decreases MAX_DEPTH + 1 - depth, 0, expr
  {
    AllOkStep(expr, depth);
    if depth <= MAX_DEPTH && expr.Obj? && NodeOk(expr) {
      var children := Children(Field(expr.entries, "conditions")).value;
      var inner := Field(expr.entries, "condition");
      WalkStep(expr, depth, children, inner);
      WalkOfAnyIff(children, depth + 1);
      if !inner.Null? { WalkFindsNothingIff(inner, depth + 1); }
    } else {
      WalkStops(expr, depth);
    }
  }

  lemma WalkStep(expr: Json, depth: nat, children: seq<Json>, inner: Json)
    requires depth <= MAX_DEPTH && expr.Obj? && NodeOk(expr)
    requires Children(Field(expr.entries, "conditions")) == Some(children) && Field(expr.entries, "condition") == inner
    ensures Misuse(expr, depth).None?
            <==> MisuseOfAny(children, depth + 1).None? && (inner.Null? || Misuse(inner, depth + 1).None?)
    ensures forall e :: e in Inner(expr) <==> e in children || (!inner.Null? && e == inner)
  {
  }

  lemma WalkStops(expr: Json, depth: nat)
    requires depth > MAX_DEPTH || !expr.Obj? || !NodeOk(expr)
    ensures Misuse(expr, depth).None? <==> depth <= MAX_DEPTH && !expr.Obj?
    ensures !expr.Obj? ==> NodeOk(expr) && Inner(expr) == []
  {
  }

  lemma {:induction false} WalkOfAnyIff(children: seq<Json>, depth: nat)
    ensures MisuseOfAny(children, depth).None? <==> forall e :: e in children ==> AllOk(e, depth)
    decreases MAX_DEPTH + 1 - depth, |children|
  {
    if children != [] {
      WalkFindsNothingIff(children[0], depth);
      WalkOfAnyIff(children[1..], depth);
      assert forall e :: e in children <==> e == children[0] || e in children[1..];
    }
  }

  /** A policy of one leaf is accepted if and only if it compares no severity as a number and does not raise on
      the trial context. */
  lemma AcceptedLeafIff(op: string, field: string, value: Json, parse: Parser)
    requires op in LEAF_OPS
    ensures Accepted(LeafExpr(op, field, value), parse)
            <==> !(op in NUMERIC_OPS && field == "severity")
                 && LeafFault(op, Lookup(VALIDATION_CTX, field), value).None?
  {
    var a, b, c := Entry("op", Str(op)), Entry("field", Str(field)), Entry("value", value);
    GetOfThree(a, b, c, "op");
    GetOfThree(a, b, c, "field");
    GetOfThree(a, b, c, "value");
    GetOfThree(a, b, c, "conditions");
    GetOfThree(a, b, c, "condition");
    LeafMeans(op, field, value, VALIDATION_CTX, parse);
    LeafNodeWalked(LeafExpr(op, field, value), op, field);
    LeafNodeTried(LeafExpr(op, field, value), op, field, value, VALIDATION_CTX, parse, 0);
  }

  lemma LeafNodeWalked(leaf: Json, op: string, field: string)
    requires leaf.Obj? && Field(leaf.entries, "op") == Str(op) && Field(leaf.entries, "field") == Str(field)
    requires Field(leaf.entries, "conditions").Null? && Field(leaf.entries, "condition").Null?
    ensures Misuse(leaf, 0).None? <==> !(op in NUMERIC_OPS && field == "severity")
  {
  }

  lemma LeafNodeTried(leaf: Json, op: string, field: string, value: Json, ctx: Context, parse: Parser, depth: nat)
    requires depth <= MAX_DEPTH && op in LEAF_OPS && leaf.Obj? && Field(leaf.entries, "op") == Str(op)
    requires Field(leaf.entries, "field") == Str(field) && Field(leaf.entries, "value") == value
    ensures Evaluate(leaf, ctx, parse, depth) == Leaf(op, field, value, ctx, parse)
  {
  }

  /** So an accepted policy nowhere compares a severity as a number. */
  lemma AcceptedRanksSeverities(expr: Json, parse: Parser, node: Json, n: nat)
    requires Accepted(expr, parse) && Inside(expr, node, n) && node.Obj?
    requires Field(node.entries, "field") == Str("severity")
    ensures Field(node.entries, "op").Str? ==> Field(node.entries, "op").s !in NUMERIC_OPS
  {
    WalkFindsNothingIff(expr, 0);
    assert AllOk(expr, 0);
  }
}
