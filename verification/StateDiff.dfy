/** The replay view's structural diff of two JSON states. */
module StateDiff {
  import opened Common
  import opened Json

  /** One step of a path: an array index or an object key. */
  datatype Step = Idx(i: nat) | Key(k: string)

  type Path = seq<Step>

  datatype DiffEntry =
    | Added(path: Path, after: Json)
    | Removed(path: Path, before: Json)
    | Changed(path: Path, before: Json, after: Json)

  // -------------------------------------------------------------- values as trees

  function Child(j: Json, s: Step): (c: Option<Json>)
    ensures c.Some? ==> c.value < j
  {
    match j
    case Arr(items) => if s.Idx? && s.i < |items| then Some(items[s.i]) else None
    case Obj(entries) => if s.Key? then ValueIsInside(entries, s.k); Get(entries, s.k) else None
    case _ => None
  }

  lemma {:induction false} ValueIsInside(entries: seq<Entry>, key: string)
    ensures Get(entries, key).Some? ==> Get(entries, key).value < Obj(entries)
  {
    GetIsEntry(entries, key);
    if Get(entries, key).Some? {
      var k :| 0 <= k < |entries| && entries[k] == Entry(key, Get(entries, key).value);
      assert entries[k].value < Obj(entries);
    }
  }

  /** typeof, Array.isArray and the null test agree. */
  predicate SameKind(a: Json, b: Json) {
    && a.Null? == b.Null? && a.Bool? == b.Bool? && a.Num? == b.Num?
    && a.Str? == b.Str? && a.Arr? == b.Arr? && a.Obj? == b.Obj?
  }

  predicate Container(j: Json) { j.Arr? || j.Obj? }

  /** Equal as trees: the order of an object's keys does not count. */
  ghost predicate SameValue(a: Json, b: Json)
    decreases a, 1
  {
    && SameKind(a, b)
    && (!Container(a) ==> a == b)
    && (Container(a) ==> forall s: Step :: SameChild(Child(a, s), Child(b, s), a))
  }

  ghost predicate SameChild(a: Option<Json>, b: Option<Json>, parent: Json)
    requires a.Some? ==> a.value < parent
    decreases parent, 0
  {
    a.Some? == b.Some? && (a.Some? ==> SameValue(a.value, b.value))
  }

  // ------------------------------------------------------------------ the specification

  function KeysOf(entries: seq<Entry>): seq<string> {
    if entries == [] then [] else [entries[0].key] + KeysOf(entries[1..])
  }

  /** A Set built from a list: first occurrences, in order. */
  function Unique(keys: seq<string>): seq<string> {
    if keys == [] then []
    else
      var init, last := Unique(keys[..|keys| - 1]), keys[|keys| - 1];
      if last in init then init else init + [last]
  }

  function KeySteps(keys: seq<string>): (steps: seq<Step>)
    ensures |steps| == |keys| && forall k :: 0 <= k < |steps| ==> steps[k] == Key(keys[k])
  {
    if keys == [] then [] else [Key(keys[0])] + KeySteps(keys[1..])
  }

  function IdxSteps(n: nat): (steps: seq<Step>)
    ensures |steps| == n && forall k :: 0 <= k < n ==> steps[k] == Idx(k)
  {
    seq(n, (k: nat) => Idx(k))
  }

  /** The children the diff looks at, in order. */
  function Steps(a: Json, b: Json): seq<Step> {
    match (a, b)
    case (Arr(xs), Arr(ys)) => IdxSteps(Max(|xs|, |ys|))
    case (Obj(es), Obj(fs)) => KeySteps(Unique(KeysOf(es) + KeysOf(fs)))
    case _ => []
  }

  function Diff(before: Json, after: Json, path: Path): seq<DiffEntry>
    decreases before, 2
  {
    if !SameKind(before, after) then [Changed(path, before, after)]
    else if Container(before) then DiffSteps(before, after, path, Steps(before, after))
    else if before == after then []
    else [Changed(path, before, after)]
  }

  function DiffSteps(before: Json, after: Json, path: Path, steps: seq<Step>): seq<DiffEntry>
    decreases before, 1, |steps|
  {
    if steps == [] then []
    else DiffAt(before, after, path, steps[0]) + DiffSteps(before, after, path, steps[1..])
  }

  function DiffAt(before: Json, after: Json, path: Path, s: Step): seq<DiffEntry>
    decreases before, 0
  {
    match (Child(before, s), Child(after, s))
    case (None, None) => []
    case (None, Some(v)) => [Added(path + [s], v)]
    case (Some(u), None) => [Removed(path + [s], u)]
    case (Some(u), Some(v)) => Diff(u, v, path + [s])
  }

  // ---------------------------------------------------------- the accumulator version

  class Accumulator {
    var entries: seq<DiffEntry>

    constructor ()
      ensures entries == []
    {
      entries := [];
    }

    method Push(e: DiffEntry)
      modifies this
      ensures entries == old(entries) + [e]
    {
      entries := entries + [e];
    }
  }

  method UniqueKeys(keys: seq<string>) returns (unique: seq<string>)
    ensures unique == Unique(keys)
  {
    unique := [];
    for i := 0 to |keys|
      invariant unique == Unique(keys[..i])
    {
      assert keys[..i + 1][..i] == keys[..i];
      if keys[i] !in unique { unique := unique + [keys[i]]; }
    }
    assert keys[..|keys|] == keys;
  }

  /** diffValues: pushes every difference onto the shared accumulator, in walk order. */
  method DiffValues(before: Json, after: Json, path: Path, acc: Accumulator)
    modifies acc
    ensures acc.entries == old(acc.entries) + Diff(before, after, path)
    decreases before
  {
    ghost var all := Diff(before, after, path);
    if !SameKind(before, after) {
      acc.Push(Changed(path, before, after));
    } else if before.Arr? {
      var max := Max(|before.items|, |after.items|);
      ghost var steps := IdxSteps(max);
      assert steps[0..] == steps;
      for i := 0 to max
        invariant acc.entries + DiffSteps(before, after, path, steps[i..]) == old(acc.entries) + all
      {
        DiffStepsStep(before, after, path, steps, i, acc.entries);
        if i >= |before.items| {
          acc.Push(Added(path + [Idx(i)], after.items[i]));
        } else if i >= |after.items| {
          acc.Push(Removed(path + [Idx(i)], before.items[i]));
        } else {
          DiffValues(before.items[i], after.items[i], path + [Idx(i)], acc);
        }
      }
    } else if before.Obj? {
      var keys := UniqueKeys(KeysOf(before.entries) + KeysOf(after.entries));
      ghost var steps := KeySteps(keys);
      assert steps[0..] == steps;
      for i := 0 to |keys|
        invariant acc.entries + DiffSteps(before, after, path, steps[i..]) == old(acc.entries) + all
      {
        var k := keys[i];
        DiffStepsStep(before, after, path, steps, i, acc.entries);
        var u, v := Get(before.entries, k), Get(after.entries, k);
        UniqueKeysArePresent(before.entries, after.entries, k);
        if u.None? {
          acc.Push(Added(path + [Key(k)], v.value));
        } else if v.None? {
          acc.Push(Removed(path + [Key(k)], u.value));
        } else {
          ValueIsInside(before.entries, k);
          DiffValues(u.value, v.value, path + [Key(k)], acc);
        }
      }
    } else if before != after {
      acc.Push(Changed(path, before, after));
    }
  }

  lemma DiffStepsStep(before: Json, after: Json, path: Path, steps: seq<Step>, i: nat, done: seq<DiffEntry>)
    requires i < |steps|
    ensures done + DiffSteps(before, after, path, steps[i..])
            == done + DiffAt(before, after, path, steps[i]) + DiffSteps(before, after, path, steps[i + 1..])
  {
    assert steps[i..][1..] == steps[i + 1..];
  }

  // ------------------------------------------------------------------- about the steps

  lemma {:induction false} UniqueIsSet(keys: seq<string>)
    ensures forall k :: k in Unique(keys) <==> k in keys
    ensures forall i, j :: 0 <= i < j < |Unique(keys)| ==> Unique(keys)[i] != Unique(keys)[j]
  {
    if keys != [] {
      var n := |keys| - 1;
      UniqueIsSet(keys[..n]);
      assert keys == keys[..n] + [keys[n]];
    }
  }

  lemma {:induction false} KeysOfHasKeys(entries: seq<Entry>, key: string)
    ensures key in KeysOf(entries) <==> Get(entries, key).Some?
  {
    if entries != [] { KeysOfHasKeys(entries[1..], key); }
  }

  lemma UniqueKeysArePresent(a: seq<Entry>, b: seq<Entry>, key: string)
    ensures key in Unique(KeysOf(a) + KeysOf(b)) <==> Get(a, key).Some? || Get(b, key).Some?
  {
    UniqueIsSet(KeysOf(a) + KeysOf(b));
    KeysOfHasKeys(a, key);
    KeysOfHasKeys(b, key);
  }

  ghost predicate Distinct(steps: seq<Step>) {
    forall i, j :: 0 <= i < j < |steps| ==> steps[i] != steps[j]
  }

  /** The steps name every child of either value, and each once. */
  lemma StepsAreTheChildren(a: Json, b: Json)
    requires SameKind(a, b) && Container(a)
    ensures Distinct(Steps(a, b))
    ensures forall s :: s in Steps(a, b) <==> Child(a, s).Some? || Child(b, s).Some?
  {
    if a.Obj? {
      var keys := Unique(KeysOf(a.entries) + KeysOf(b.entries));
      UniqueIsSet(KeysOf(a.entries) + KeysOf(b.entries));
      forall s ensures s in Steps(a, b) <==> Child(a, s).Some? || Child(b, s).Some? {
        if s.Key? {
          UniqueKeysArePresent(a.entries, b.entries, s.k);
          if s.k in keys {
            var i :| 0 <= i < |keys| && keys[i] == s.k;
            assert Steps(a, b)[i] == s;
          }
        }
      }
    } else {
      forall s ensures s in Steps(a, b) <==> Child(a, s).Some? || Child(b, s).Some? {
        if s.Idx? && s.i < |Steps(a, b)| { assert Steps(a, b)[s.i] == s; }
      }
    }
  }

  // ----------------------------------------------------------- empty exactly on equality

  lemma {:induction false} DiffStepsEmpty(a: Json, b: Json, path: Path, steps: seq<Step>)
    ensures DiffSteps(a, b, path, steps) == [] <==> forall s :: s in steps ==> DiffAt(a, b, path, s) == []
  {
    if steps != [] {
      DiffStepsEmpty(a, b, path, steps[1..]);
      var head, tail := DiffAt(a, b, path, steps[0]), DiffSteps(a, b, path, steps[1..]);
      assert |DiffSteps(a, b, path, steps)| == |head| + |tail|;
      if head != [] {
        assert steps[0] in steps;
      } else if tail != [] {
        var s :| s in steps[1..] && DiffAt(a, b, path, s) != [];
        assert s in steps;
      } else {
        forall s | s in steps ensures DiffAt(a, b, path, s) == [] {
          if s != steps[0] { assert s in steps[1..]; }
        }
      }
    }
  }

  /** diffValues reports nothing exactly when the two values are equal. */
  lemma {:induction false} EmptyIffSameValue(a: Json, b: Json, path: Path)
    ensures Diff(a, b, path) == [] <==> SameValue(a, b)
    decreases a
  {
    if SameKind(a, b) && Container(a) {
      StepsAreTheChildren(a, b);
      DiffStepsEmpty(a, b, path, Steps(a, b));
      forall s: Step ensures DiffAt(a, b, path, s) == [] <==> SameChild(Child(a, s), Child(b, s), a) {
        var u, v := Child(a, s), Child(b, s);
        if u.Some? && v.Some? { EmptyIffSameValue(u.value, v.value, path + [s]); }
      }
    }
  }

  // ------------------------------------------------------------------- paths

  /** Every entry of a diff lies at or below the path it started from. */
  ghost predicate AllUnder(entries: seq<DiffEntry>, path: Path) {
    forall k :: 0 <= k < |entries| ==> path <= entries[k].path
  }

  /** No entry's path is a prefix of another entry's. */
  ghost predicate PrefixFree(entries: seq<DiffEntry>) {
    forall i, j :: 0 <= i < |entries| && 0 <= j < |entries| && i != j ==> !(entries[i].path <= entries[j].path)
  }

  /** The entry's path goes on from `path` by one of the steps. */
  predicate Through(e: DiffEntry, path: Path, steps: seq<Step>) {
    path < e.path && e.path[|path|] in steps
  }

  lemma {:induction false} DiffIsUnder(a: Json, b: Json, path: Path)
    ensures AllUnder(Diff(a, b, path), path)
    decreases a, 2
  {
    if SameKind(a, b) && Container(a) {
      DiffStepsUnder(a, b, path, Steps(a, b));
      var d := DiffSteps(a, b, path, Steps(a, b));
      assert forall k :: 0 <= k < |d| ==> (Through(d[k], path, Steps(a, b)) ==> path <= d[k].path);
    }
  }

  lemma {:induction false} DiffAtUnder(a: Json, b: Json, path: Path, s: Step)
    ensures AllUnder(DiffAt(a, b, path, s), path + [s])
    decreases a, 0
  {
    if Child(a, s).Some? && Child(b, s).Some? { DiffIsUnder(Child(a, s).value, Child(b, s).value, path + [s]); }
  }

  /** Entries found through a list of steps lie below one of them. */
  lemma {:induction false} DiffStepsUnder(a: Json, b: Json, path: Path, steps: seq<Step>)
    ensures forall e :: e in DiffSteps(a, b, path, steps) ==> Through(e, path, steps)
    decreases a, 1, |steps|
  {
    if steps != [] {
      var s := steps[0];
      DiffAtUnder(a, b, path, s);
      DiffStepsUnder(a, b, path, steps[1..]);
      forall e | e in DiffSteps(a, b, path, steps) ensures Through(e, path, steps) {
        if e in DiffAt(a, b, path, s) {
          assert path + [s] <= e.path;
          assert e.path[|path|] == (path + [s])[|path|];
        } else {
          assert Through(e, path, steps[1..]);
        }
      }
    }
  }

  /** No reported path is a prefix of another: the reported changes never overlap. */
  lemma {:induction false} ReportedPathsArePrefixFree(a: Json, b: Json, path: Path)
    ensures PrefixFree(Diff(a, b, path))
    decreases a, 2
  {
    if SameKind(a, b) && Container(a) {
      StepsAreTheChildren(a, b);
      DiffStepsPrefixFree(a, b, path, Steps(a, b));
    }
  }

  lemma {:induction false} DiffStepsPrefixFree(a: Json, b: Json, path: Path, steps: seq<Step>)
    requires Distinct(steps)
    ensures PrefixFree(DiffSteps(a, b, path, steps))
    decreases a, 1, |steps|
  {
    if steps != [] {
      var s := steps[0];
      var head, tail := DiffAt(a, b, path, s), DiffSteps(a, b, path, steps[1..]);
      if Child(a, s).Some? && Child(b, s).Some? {
        ReportedPathsArePrefixFree(Child(a, s).value, Child(b, s).value, path + [s]);
      }
      DiffStepsPrefixFree(a, b, path, steps[1..]);
      DiffAtUnder(a, b, path, s);
      DiffStepsUnder(a, b, path, steps[1..]);
      ApartIsPrefixFree(head, tail, path, s, steps[1..]);
    }
  }

  lemma ApartIsPrefixFree(head: seq<DiffEntry>, tail: seq<DiffEntry>, path: Path, s: Step, others: seq<Step>)
    requires PrefixFree(head) && PrefixFree(tail) && AllUnder(head, path + [s])
    requires s !in others && forall e :: e in tail ==> Through(e, path, others)
    ensures PrefixFree(head + tail)
  {
    forall i, j | 0 <= i < |head| && 0 <= j < |tail|
      ensures !(head[i].path <= tail[j].path) && !(tail[j].path <= head[i].path)
    {
      assert head[i].path[|path|] == (path + [s])[|path|] == s;
      assert Through(tail[j], path, others);
    }
  }

  // --------------------------------------------------------------- the order of the report

  /** The key's first occurrence is at p. */
  predicate IsFirst(keys: seq<string>, key: string, p: nat) {
    p < |keys| && keys[p] == key && key !in keys[..p]
  }

  /** A Set keeps its elements in the order of their first occurrences. */
  lemma {:induction false} UniqueKeepsOrder(keys: seq<string>, i: nat, j: nat, p: nat, q: nat)
    requires i < j < |Unique(keys)| && IsFirst(keys, Unique(keys)[i], p) && IsFirst(keys, Unique(keys)[j], q)
    ensures p < q
  {
    var n := |keys| - 1;
    UniqueIsSet(keys[..n]);
    assert forall m :: 0 <= m <= n ==> keys[..n][..m] == keys[..m];
    if j < |Unique(keys[..n])| {
      assert Unique(keys)[i] in keys[..n] && Unique(keys)[j] in keys[..n];
      FirstIsEarly(keys, Unique(keys)[i], p);
      FirstIsEarly(keys, Unique(keys)[j], q);
      UniqueKeepsOrder(keys[..n], i, j, p, q);
    } else {
      assert Unique(keys)[i] in keys[..n];
      FirstIsEarly(keys, Unique(keys)[i], p);
      forall m | 0 <= m < n ensures keys[m] != keys[n] { assert keys[m] in keys[..n]; }
    }
  }

  lemma FirstIsEarly(keys: seq<string>, key: string, p: nat)
    requires IsFirst(keys, key, p) && key in keys[..|keys| - 1]
    ensures p < |keys| - 1 && IsFirst(keys[..|keys| - 1], key, p)
  {
    assert p < |keys| - 1 ==> keys[..|keys| - 1][..p] == keys[..p];
  }

  /** Step s of a pair of containers is looked at before step t: smaller indices first; among keys, in the
      order in which the two objects, before and after, name them first. */
  ghost predicate Comes(a: Json, b: Json, s: Step, t: Step) {
    || (a.Arr? && s.Idx? && t.Idx? && s.i < t.i)
    || (a.Obj? && b.Obj? && s.Key? && t.Key?
        && exists p: nat, q: nat :: p < q && IsFirst(KeysOf(a.entries) + KeysOf(b.entries), s.k, p)
                                    && IsFirst(KeysOf(a.entries) + KeysOf(b.entries), t.k, q))
  }

  lemma {:induction false} HasFirst(keys: seq<string>, key: string) returns (p: nat)
    requires key in keys
    ensures IsFirst(keys, key, p)
  {
    var n := |keys| - 1;
    if key in keys[..n] {
      p := HasFirst(keys[..n], key);
      assert keys[..n][..p] == keys[..p];
    } else {
      p := n;
      assert keys == keys[..n] + [keys[n]];
    }
  }

  lemma StepsCome(a: Json, b: Json, i: nat, j: nat)
    requires SameKind(a, b) && Container(a) && i < j < |Steps(a, b)|
    ensures Comes(a, b, Steps(a, b)[i], Steps(a, b)[j])
  {
    if a.Obj? {
      var all := KeysOf(a.entries) + KeysOf(b.entries);
      var keys := Unique(all);
      UniqueIsSet(all);
      assert keys[i] in all && keys[j] in all;
      var p := HasFirst(all, keys[i]);
      var q := HasFirst(all, keys[j]);
      UniqueKeepsOrder(all, i, j, p, q);
    }
  }

  /** Path p leads to a place of the two values that is visited before the place of q. */
  ghost predicate Earlier(a: Json, b: Json, p: Path, q: Path)
    decreases |p|
  {
    && p != [] && q != []
    && if p[0] != q[0] then Comes(a, b, p[0], q[0])
       else Child(a, p[0]).Some? && Child(b, p[0]).Some?
            && Earlier(Child(a, p[0]).value, Child(b, p[0]).value, p[1..], q[1..])
  }

  ghost predicate Reported(a: Json, b: Json, path: Path, e: DiffEntry, f: DiffEntry) {
    path <= e.path && path <= f.path && Earlier(a, b, e.path[|path|..], f.path[|path|..])
  }

  ghost predicate InOrder(a: Json, b: Json, path: Path, entries: seq<DiffEntry>) {
    forall i, j :: 0 <= i < j < |entries| ==> Reported(a, b, path, entries[i], entries[j])
  }

  /** The report follows the values: at every level its entries come in the order of indices and keys. */
  lemma {:induction false} ReportIsInOrder(a: Json, b: Json, path: Path)
    ensures InOrder(a, b, path, Diff(a, b, path))
    decreases a, 2
  {
    if SameKind(a, b) && Container(a) {
      StepsAreTheChildren(a, b);
      forall i, j | 0 <= i < j < |Steps(a, b)| ensures Comes(a, b, Steps(a, b)[i], Steps(a, b)[j]) {
        StepsCome(a, b, i, j);
      }
      StepsInOrder(a, b, path, Steps(a, b));
    }
  }

  lemma {:induction false} StepsInOrder(a: Json, b: Json, path: Path, steps: seq<Step>)
    requires Distinct(steps) && forall i, j :: 0 <= i < j < |steps| ==> Comes(a, b, steps[i], steps[j])
    ensures InOrder(a, b, path, DiffSteps(a, b, path, steps))
    decreases a, 1, |steps|
  {
    if steps != [] {
      var s, rest := steps[0], steps[1..];
      assert forall t :: t in rest ==> s != t && Comes(a, b, s, t);
      EntriesInOrder(a, b, path, s);
      StepsInOrder(a, b, path, rest);
      DiffAtUnder(a, b, path, s);
      DiffStepsUnder(a, b, path, rest);
      HeadComesFirst(a, b, path, s, rest, DiffAt(a, b, path, s), DiffSteps(a, b, path, rest));
    }
  }

  lemma HeadComesFirst(a: Json, b: Json, path: Path, s: Step, rest: seq<Step>, head: seq<DiffEntry>,
                       tail: seq<DiffEntry>)
    requires forall t :: t in rest ==> s != t && Comes(a, b, s, t)
    requires AllUnder(head, path + [s]) && forall e :: e in tail ==> Through(e, path, rest)
    requires InOrder(a, b, path, head) && InOrder(a, b, path, tail)
    ensures InOrder(a, b, path, head + tail)
  {
    forall i, j | 0 <= i < |head| && 0 <= j < |tail| ensures Reported(a, b, path, head[i], tail[j]) {
      assert path + [s] <= head[i].path && head[i].path[|path|] == (path + [s])[|path|] == s;
      assert path == (path + [s])[..|path|];
      assert Through(tail[j], path, rest);
    }
    forall i, j | 0 <= i < j < |head + tail| ensures Reported(a, b, path, (head + tail)[i], (head + tail)[j]) {
      if j < |head| {
        assert Reported(a, b, path, head[i], head[j]);
      } else if i < |head| {
        assert Reported(a, b, path, head[i], tail[j - |head|]);
      } else {
        assert Reported(a, b, path, tail[i - |head|], tail[j - |head|]);
      }
    }
  }

  lemma EntriesInOrder(a: Json, b: Json, path: Path, s: Step)
    ensures InOrder(a, b, path, DiffAt(a, b, path, s))
    decreases a, 0
  {
    var u, v := Child(a, s), Child(b, s);
    if u.Some? && v.Some? {
      ReportIsInOrder(u.value, v.value, path + [s]);
      var d := Diff(u.value, v.value, path + [s]);
      forall i, j | 0 <= i < j < |d| ensures Reported(a, b, path, d[i], d[j]) {
        assert Reported(u.value, v.value, path + [s], d[i], d[j]);
        ReportedBelow(a, b, path, s, d[i], d[j]);
      }
    }
  }

  lemma ReportedBelow(a: Json, b: Json, path: Path, s: Step, e: DiffEntry, f: DiffEntry)
    requires Child(a, s).Some? && Child(b, s).Some?
    requires Reported(Child(a, s).value, Child(b, s).value, path + [s], e, f)
    ensures Reported(a, b, path, e, f)
  {
    assert path == (path + [s])[..|path|];
    assert e.path[|path|] == (path + [s])[|path|] == s && f.path[|path|] == (path + [s])[|path|];
    assert e.path[|path|..][1..] == e.path[|path + [s]|..] && f.path[|path|..][1..] == f.path[|path + [s]|..];
  }

  // --------------------------------------------------------------- the entries are true

  /** The value a path leads to, if any. */
  function Lookup(j: Json, path: Path): Option<Json>
    decreases |path|
  {
    if path == [] then Some(j)
    else
      var c := Child(j, path[0]);
      if c.None? then None else Lookup(c.value, path[1..])
  }

  /** The entry says what the two values really hold at its path. */
  predicate True(e: DiffEntry, before: Json, after: Json, path: Path)
    requires path <= e.path
  {
    var u, v := Lookup(before, e.path[|path|..]), Lookup(after, e.path[|path|..]);
    match e
    case Added(_, x) => u.None? && v == Some(x)
    case Removed(_, x) => u == Some(x) && v.None?
    case Changed(_, x, y) => u == Some(x) && v == Some(y) && x != y
  }

  ghost predicate AllTrue(entries: seq<DiffEntry>, before: Json, after: Json, path: Path) {
    forall e :: e in entries ==> path <= e.path && True(e, before, after, path)
  }

  lemma TrueBelow(e: DiffEntry, before: Json, after: Json, path: Path, s: Step)
    requires Child(before, s).Some? && Child(after, s).Some? && path + [s] <= e.path
    requires True(e, Child(before, s).value, Child(after, s).value, path + [s])
    ensures path <= e.path && True(e, before, after, path)
  {
    assert path + [s] <= e.path;
    assert e.path[..|path|] == path && e.path[|path|] == s;
    assert e.path[|path|..][1..] == e.path[|path| + 1..];
    assert e.path[|path + [s]|..] == e.path[|path| + 1..];
  }

  /** Every reported entry is true: added values exist only after, removed ones only before, and changed
      ones in both, with the values given. */
  lemma {:induction false} ReportedEntriesAreTrue(before: Json, after: Json, path: Path)
    ensures AllTrue(Diff(before, after, path), before, after, path)
    decreases before, 2
  {
    if SameKind(before, after) && Container(before) {
      StepEntriesAreTrue(before, after, path, Steps(before, after));
    } else {
      assert path[|path|..] == [];
    }
  }

  lemma {:induction false} StepEntriesAreTrue(before: Json, after: Json, path: Path, steps: seq<Step>)
    ensures AllTrue(DiffSteps(before, after, path, steps), before, after, path)
    decreases before, 1, |steps|
  {
    if steps != [] {
      EntriesAtAreTrue(before, after, path, steps[0]);
      StepEntriesAreTrue(before, after, path, steps[1..]);
    }
  }

  lemma EntriesAtAreTrue(before: Json, after: Json, path: Path, s: Step)
    ensures AllTrue(DiffAt(before, after, path, s), before, after, path)
    decreases before, 0
  {
    var u, v := Child(before, s), Child(after, s);
    if u.Some? && v.Some? {
      ReportedEntriesAreTrue(u.value, v.value, path + [s]);
      forall e | e in DiffAt(before, after, path, s) ensures path <= e.path && True(e, before, after, path) {
        TrueBelow(e, before, after, path, s);
      }
    } else {
      assert (path + [s])[|path|..] == [s];
      LookupOne(before, s);
      LookupOne(after, s);
    }
  }

  lemma LookupOne(j: Json, s: Step)
    ensures Lookup(j, [s]) == Child(j, s)
  {
    var rest := [s][1..];
    assert rest == [];
    if Child(j, s).Some? { assert Lookup(Child(j, s).value, rest) == Child(j, s); }
  }

  // ------------------------------------------------------- before and the diff give after

  /** The entries at or below a path, in order. */
  function Under(entries: seq<DiffEntry>, path: Path): seq<DiffEntry> {
    if entries == [] then []
    else (if path <= entries[0].path then [entries[0]] else []) + Under(entries[1..], path)
  }

  lemma {:induction false} UnderConcat(a: seq<DiffEntry>, b: seq<DiffEntry>, path: Path)
    ensures Under(a + b, path) == Under(a, path) + Under(b, path)
  {
    if a == [] {
      assert a + b == b;
    } else {
      assert (a + b)[1..] == a[1..] + b;
      UnderConcat(a[1..], b, path);
    }
  }

  lemma {:induction false} UnderAll(entries: seq<DiffEntry>, path: Path)
    requires AllUnder(entries, path)
    ensures Under(entries, path) == entries
  {
    if entries != [] { UnderAll(entries[1..], path); }
  }

  lemma {:induction false} UnderNone(entries: seq<DiffEntry>, path: Path)
    requires forall e :: e in entries ==> !(path <= e.path)
    ensures Under(entries, path) == []
  {
    if entries != [] {
      assert entries[0] in entries;
      UnderNone(entries[1..], path);
    }
  }

  /** The part of a container's diff below one step is what that step contributed. */
  lemma {:induction false} UnderOfSteps(a: Json, b: Json, path: Path, steps: seq<Step>, s: Step)
    requires Distinct(steps)
    ensures Under(DiffSteps(a, b, path, steps), path + [s]) == if s in steps then DiffAt(a, b, path, s) else []
    decreases |steps|
  {
    if steps != [] {
      var head, tail := DiffAt(a, b, path, steps[0]), DiffSteps(a, b, path, steps[1..]);
      UnderConcat(head, tail, path + [s]);
      UnderOfSteps(a, b, path, steps[1..], s);
      DiffAtUnder(a, b, path, steps[0]);
      if s == steps[0] {
        UnderAll(head, path + [s]);
        assert s !in steps[1..];
      } else {
        forall e | e in head ensures !(path + [s] <= e.path) {
          assert path + [steps[0]] <= e.path;
          assert (path + [steps[0]])[|path|] == steps[0] && (path + [s])[|path|] == s;
        }
        UnderNone(head, path + [s]);
      }
    }
  }

  lemma ChildDiff(a: Json, b: Json, path: Path, s: Step)
    requires SameKind(a, b) && Container(a)
    ensures Under(Diff(a, b, path), path + [s]) == DiffAt(a, b, path, s)
  {
    StepsAreTheChildren(a, b);
    UnderOfSteps(a, b, path, Steps(a, b), s);
  }

  /** A diff has an entry at its own starting path exactly when it is that one Changed entry. */
  lemma TopEntry(a: Json, b: Json, path: Path)
    ensures var d := Diff(a, b, path);
            if d != [] && d[0].path == path
            then d == [Changed(path, a, b)] && (SameKind(a, b) ==> !Container(a))
            else SameKind(a, b) && (Container(a) || a == b)
  {
    if SameKind(a, b) && Container(a) {
      DiffStepsUnder(a, b, path, Steps(a, b));
      var d := Diff(a, b, path);
      if d != [] { assert Through(d[0], path, Steps(a, b)); }
    }
  }

  lemma {:induction false} SameValueReflexive(a: Json)
    ensures SameValue(a, a)
    decreases a
  {
    if Container(a) {
      forall s: Step ensures SameChild(Child(a, s), Child(a, s), a) {
        if Child(a, s).Some? { SameValueReflexive(Child(a, s).value); }
      }
    }
  }

  /** Two states whose diffs from the same `before` coincide are equal: the diff loses nothing. */
  lemma {:induction false} DiffDeterminesAfter(before: Json, after: Json, other: Json, path: Path)
    requires Diff(before, after, path) == Diff(before, other, path)
    ensures SameValue(after, other)
    decreases before, 1
  {
    TopEntry(before, after, path);
    TopEntry(before, other, path);
    SameValueReflexive(after);
    if SameKind(before, after) && Container(before) {
      forall s: Step ensures SameChild(Child(after, s), Child(other, s), after) {
        ChildDiff(before, after, path, s);
        ChildDiff(before, other, path, s);
        ChildDetermined(before, after, other, path, s);
      }
    }
  }

  lemma ChildDetermined(before: Json, after: Json, other: Json, path: Path, s: Step)
    requires DiffAt(before, after, path, s) == DiffAt(before, other, path, s)
    ensures SameChild(Child(after, s), Child(other, s), after)
    decreases before, 0
  {
    var u, v, w := Child(before, s), Child(after, s), Child(other, s);
    if u.None? {
      if v.Some? { SameValueReflexive(v.value); }
    } else if v.Some? && w.Some? {
      DiffDeterminesAfter(u.value, v.value, w.value, path + [s]);
    } else if v.Some? {
      TopEntry(u.value, v.value, path + [s]);
    } else if w.Some? {
      TopEntry(u.value, w.value, path + [s]);
    }
  }
}
