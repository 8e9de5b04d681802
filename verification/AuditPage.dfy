/** The paged audit view: integrity is checked inside the page only, bucket by bucket. */
module AuditPage {
  import opened Common
  import opened AuditChain

  function ScopeOf(r: Row): string { r.columns.scope.Or("") }

  /** The rows that share a bucket (`hash_scope or ""`), in the given order. */
  function Bucket(rows: seq<Row>, scope: string): seq<Row> {
    if rows == [] then []
    else
      var n := |rows| - 1;
      Bucket(rows[..n], scope) + if ScopeOf(rows[n]) == scope then [rows[n]] else []
  }

  function LastContent(rows: seq<Row>): string {
    if rows == [] then "" else rows[|rows| - 1].Content()
  }

  /** Row i judged against the nearest earlier row of its bucket. */
  predicate LocalOk(h: string -> string, rows: seq<Row>, i: nat)
    requires i < |rows|
  {
    && rows[i].Content() == h(RowPayload(rows[i]))
    && rows[i].Previous() == LastContent(Bucket(rows[..i], ScopeOf(rows[i])))
  }

  ghost predicate IdsIncrease(rows: seq<Row>) {
    forall i, j :: 0 <= i < j < |rows| ==> rows[i].id < rows[j].id
  }

  /** Where row i of a table stands in its bucket. */
  function Pos(rows: seq<Row>, i: nat): nat
    requires i < |rows|
  {
    |Bucket(rows[..i], ScopeOf(rows[i]))|
  }

  lemma {:induction false} BucketConcat(a: seq<Row>, b: seq<Row>, scope: string)
    ensures Bucket(a + b, scope) == Bucket(a, scope) + Bucket(b, scope)
  {
    if b == [] {
      assert a + b == a;
    } else {
      assert (a + b)[..|a| + |b| - 1] == a + b[..|b| - 1];
      BucketConcat(a, b[..|b| - 1], scope);
    }
  }

  lemma BucketAt(rows: seq<Row>, i: nat)
    requires i < |rows|
    ensures var b := Bucket(rows, ScopeOf(rows[i]));
            && Pos(rows, i) < |b| && b[Pos(rows, i)] == rows[i]
            && b[..Pos(rows, i)] == Bucket(rows[..i], ScopeOf(rows[i]))
  {
    var sc := ScopeOf(rows[i]);
    assert rows == rows[..i] + rows[i..] && rows[i..] == [rows[i]] + rows[i + 1..];
    BucketConcat(rows[..i], rows[i..], sc);
    BucketConcat([rows[i]], rows[i + 1..], sc);
    assert [rows[i]][..0] == [];
    assert Bucket([rows[i]], sc) == [rows[i]];
  }

  lemma {:induction false} BucketIndex(rows: seq<Row>, scope: string, p: nat) returns (i: nat)
    requires p < |Bucket(rows, scope)|
    ensures i < |rows| && ScopeOf(rows[i]) == scope && Pos(rows, i) == p
  {
    var n := |rows| - 1;
    if p < |Bucket(rows[..n], scope)| {
      i := BucketIndex(rows[..n], scope, p);
      assert rows[..n][..i] == rows[..i];
    } else {
      i := n;
    }
  }

  /** A bucket's walk gives each row its local verdict. */
  lemma WalkIsLocal(h: string -> string, rows: seq<Row>, i: nat)
    requires i < |rows|
    ensures Pos(rows, i) < |Bucket(rows, ScopeOf(rows[i]))|
    ensures RowOk(h, Bucket(rows, ScopeOf(rows[i])), Pos(rows, i)) == LocalOk(h, rows, i)
  {
    BucketAt(rows, i);
    var b := Bucket(rows, ScopeOf(rows[i]));
    var p := Pos(rows, i);
    if p > 0 { assert b[p - 1] == b[..p][p - 1]; }
  }

  /** The rows of a page grouped into a dictionary of buckets. */
  method GroupByScope(page: seq<Row>) returns (byScope: map<string, seq<Row>>)
    ensures forall sc :: sc in byScope <==> Bucket(page, sc) != []
    ensures forall sc :: sc in byScope ==> byScope[sc] == Bucket(page, sc)
  {
    byScope := map[];
    for n := 0 to |page|
      invariant forall sc :: sc in byScope <==> Bucket(page[..n], sc) != []
      invariant forall sc :: sc in byScope ==> byScope[sc] == Bucket(page[..n], sc)
    {
      var sc := ScopeOf(page[n]);
      assert page[..n + 1][..n] == page[..n];
      byScope := byScope[sc := (if sc in byScope then byScope[sc] else []) + [page[n]]];
    }
    assert page[..|page|] == page;
  }

  /** Row i of the page has its local verdict recorded. */
  predicate Marked(h: string -> string, page: seq<Row>, ok: map<int, bool>, i: nat)
    requires i < |page|
  {
    page[i].id in ok && ok[page[i].id] == LocalOk(h, page, i)
  }

  lemma OtherIdsDiffer(page: seq<Row>, at: nat)
    requires IdsIncrease(page) && at < |page|
    ensures forall i :: 0 <= i < |page| && i != at ==> page[i].id != page[at].id
  {
  }

  lemma SamePlace(page: seq<Row>, i: nat, at: nat)
    requires i < |page| && at < |page| && ScopeOf(page[i]) == ScopeOf(page[at]) && Pos(page, i) == Pos(page, at)
    requires IdsIncrease(page)
    ensures i == at
  {
    BucketAt(page, i);
    BucketAt(page, at);
    OtherIdsDiffer(page, at);
  }

  lemma MarkedAfter(h: string -> string, page: seq<Row>, ok: map<int, bool>, at: nat, verdict: bool)
    requires IdsIncrease(page) && at < |page| && verdict == LocalOk(h, page, at)
    ensures var ok' := ok[page[at].id := verdict];
            && Marked(h, page, ok', at)
            && forall i :: 0 <= i < |page| && Marked(h, page, ok, i) ==> Marked(h, page, ok', i)
  {
    OtherIdsDiffer(page, at);
  }

  /** One bucket walked: its rows are marked, and no other row loses its mark. */
  method MarkBucket(h: string -> string, page: seq<Row>, sc: string, bucket: seq<Row>, before: map<int, bool>)
    returns (ok: map<int, bool>)
    requires IdsIncrease(page) && bucket == Bucket(page, sc)
    ensures forall i :: 0 <= i < |page| && ScopeOf(page[i]) == sc ==> Marked(h, page, ok, i)
    ensures forall i :: 0 <= i < |page| && Marked(h, page, before, i) ==> Marked(h, page, ok, i)
  {
    ok := before;
    var verification := VerifyChain(h, bucket);
    for p := 0 to |verification.rows|
      invariant forall i :: 0 <= i < |page| && Marked(h, page, before, i) ==> Marked(h, page, ok, i)
      invariant forall i :: 0 <= i < |page| && ScopeOf(page[i]) == sc && Pos(page, i) < p ==> Marked(h, page, ok, i)
    {
      var vrow := verification.rows[p];
      ghost var at := BucketIndex(page, sc, p);
      BucketAt(page, at);
      WalkIsLocal(h, page, at);
      MarkedAfter(h, page, ok, at, vrow.ok);
      ok := ok[vrow.rowId := vrow.ok];
      forall i | 0 <= i < |page| && ScopeOf(page[i]) == sc && Pos(page, i) == p ensures i == at {
        SamePlace(page, i, at);
      }
    }
    forall i | 0 <= i < |page| && ScopeOf(page[i]) == sc ensures Pos(page, i) < |verification.rows| {
      BucketAt(page, i);
    }
  }

  /** The page's inline check: every row shown gets its verdict against the rows of its bucket on the page. */
  method ChainOkById(h: string -> string, page: seq<Row>) returns (ok: map<int, bool>)
    requires IdsIncrease(page)
    ensures forall i :: 0 <= i < |page| ==> page[i].id in ok && ok[page[i].id] == LocalOk(h, page, i)
  {
    var byScope := GroupByScope(page);
    forall i | 0 <= i < |page| ensures ScopeOf(page[i]) in byScope { BucketAt(page, i); }
    ok := map[];
    var todo := byScope.Keys;
    while todo != {}
      invariant todo <= byScope.Keys
      invariant forall i :: 0 <= i < |page| && ScopeOf(page[i]) !in todo ==> Marked(h, page, ok, i)
      decreases todo
    {
      var sc :| sc in todo;
      ok := MarkBucket(h, page, sc, byScope[sc], ok);
      todo := todo - {sc};
    }
    assert forall i :: 0 <= i < |page| ==> Marked(h, page, ok, i);
  }

  lemma PageBefore(table: seq<Row>, a: nat, b: nat, i: nat, scope: string)
    requires a <= b <= |table| && i < b - a
    ensures Bucket(table[..a + i], scope) == Bucket(table[..a], scope) + Bucket(table[a..b][..i], scope)
  {
    assert table[..a + i] == table[..a] + table[a..b][..i];
    BucketConcat(table[..a], table[a..b][..i], scope);
  }

  /** What the walk over row j's whole bucket says about it. */
  predicate FullVerdict(h: string -> string, table: seq<Row>, j: nat)
    requires j < |table|
  {
    BucketAt(table, j);
    RowOk(h, Bucket(table, ScopeOf(table[j])), Pos(table, j))
  }

  /** On a contiguous page, a row with an earlier row of its bucket on the page gets the verdict
      that the walk over the whole bucket gives it. */
  lemma PageVerdictIsFullVerdict(h: string -> string, table: seq<Row>, a: nat, b: nat, i: nat)
    requires a <= b <= |table| && i < b - a
    requires Bucket(table[a..b][..i], ScopeOf(table[a + i])) != []
    ensures LocalOk(h, table[a..b], i) == FullVerdict(h, table, a + i)
  {
    var sc := ScopeOf(table[a + i]);
    WalkIsLocal(h, table, a + i);
    PageBefore(table, a, b, i, sc);
    assert LastContent(Bucket(table[..a + i], sc)) == LastContent(Bucket(table[a..b][..i], sc));
    assert table[a..b][i] == table[a + i];
  }

  /** On an intact table a page flags exactly the rows whose bucket began before the page and
      has no earlier row on it. */
  lemma IntactPageFlags(h: string -> string, table: seq<Row>, a: nat, b: nat, i: nat)
    requires HashOk(h) && a <= b <= |table| && i < b - a
    requires forall j :: 0 <= j < |table| ==> FullVerdict(h, table, j)
    ensures var sc := ScopeOf(table[a + i]);
            !LocalOk(h, table[a..b], i)
            <==> Bucket(table[a..b][..i], sc) == [] && Bucket(table[..a], sc) != []
  {
    var sc := ScopeOf(table[a + i]);
    WalkIsLocal(h, table, a + i);
    PageBefore(table, a, b, i, sc);
    assert FullVerdict(h, table, a + i);
    if Bucket(table[..a], sc) != [] { IntactBefore(h, table, a, sc); }
  }

  /** On an intact table the last row of a bucket has a content hash. */
  lemma IntactBefore(h: string -> string, table: seq<Row>, a: nat, scope: string)
    requires HashOk(h) && a <= |table| && Bucket(table[..a], scope) != []
    requires forall j :: 0 <= j < |table| ==> FullVerdict(h, table, j)
    ensures LastContent(Bucket(table[..a], scope)) != ""
  {
    var off := Bucket(table[..a], scope);
    var j := BucketIndex(table[..a], scope, |off| - 1);
    BucketAt(table[..a], j);
    assert table[..a][..j] == table[..j];
    WalkIsLocal(h, table, j);
    assert FullVerdict(h, table, j);
    assert LastContent(off) == table[j].Content();
  }
}
