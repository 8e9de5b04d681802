/** The per-scope hash chain: what a row's digest covers and how a reader walks it. */
module AuditChain {
  import opened Common

  /** The digested columns, in digest order, as their text casts (NULL is None). */
  datatype Columns = Columns(
    scope: Option<string>, tenantId: Option<string>, investigationId: Option<string>,
    actor: Option<string>, action: Option<string>, details: Option<string>, createdAt: Option<string>)

  datatype Row = Row(id: int, columns: Columns, contentHash: Option<string>, previousHash: Option<string>) {
    function Content(): string { contentHash.Or("") }
    function Previous(): string { previousHash.Or("") }
  }

  function Texts(c: Columns): seq<string> {
    [c.scope.Or(""), c.tenantId.Or(""), c.investigationId.Or(""), c.actor.Or(""),
     c.action.Or(""), c.details.Or(""), c.createdAt.Or("")]
  }

  function Joined(parts: seq<string>): string {
    if |parts| == 0 then ""
    else if |parts| == 1 then parts[0]
    else Joined(parts[..|parts| - 1]) + "|" + parts[|parts| - 1]
  }

  function Head(c: Columns): string { Joined(Texts(c)) }

  /** The digested text: the columns joined by an unescaped bar, then the previous hash. */
  function Payload(c: Columns, previous: string): string {
    Head(c) + "|" + previous
  }

  function RowPayload(r: Row): string { Payload(r.columns, r.Previous()) }

  /** The digest is idealised: collision free, and its text is non-empty and bar free (it is hex). */
  ghost predicate HashOk(h: string -> string) {
    && (forall x, y :: h(x) == h(y) ==> x == y)
    && (forall x :: h(x) != "" && '|' !in h(x))
  }

  function ExpectedPrevious(rows: seq<Row>, i: nat): string
    requires i < |rows|
  {
    if i == 0 then "" else rows[i - 1].Content()
  }

  predicate RowOk(h: string -> string, rows: seq<Row>, i: nat)
    requires i < |rows|
  {
    && rows[i].Content() == h(RowPayload(rows[i]))
    && rows[i].Previous() == ExpectedPrevious(rows, i)
  }

  ghost predicate Verified(h: string -> string, rows: seq<Row>) {
    forall i :: 0 <= i < |rows| ==> RowOk(h, rows, i)
  }

  datatype RowVerification = RowVerification(
    rowId: int, expectedHash: string, storedHash: string,
    expectedPrevious: string, storedPrevious: string, ok: bool)

  datatype ChainVerification = ChainVerification(
    totalRows: nat, valid: bool, firstInvalidRowId: Option<int>, rows: seq<RowVerification>)

  /** What a reader is shown for row i. */
  function Judge(h: string -> string, rows: seq<Row>, i: nat): RowVerification
    requires i < |rows|
  {
    RowVerification(rows[i].id, h(RowPayload(rows[i])), rows[i].Content(),
                    ExpectedPrevious(rows, i), rows[i].Previous(), RowOk(h, rows, i))
  }

  /** Row i is the first broken one. */
  ghost predicate FirstBroken(h: string -> string, rows: seq<Row>, i: nat) {
    && i < |rows|
    && !RowOk(h, rows, i)
    && forall j :: 0 <= j < i ==> RowOk(h, rows, j)
  }

  /** The walk over one scope's rows: each row is judged against the row before it as stored,
      whatever the verdict on that row, and only the first failure is remembered. */
  method VerifyChain(h: string -> string, rows: seq<Row>) returns (v: ChainVerification)
    ensures v.totalRows == |rows| == |v.rows|
    ensures forall i :: 0 <= i < |rows| ==> v.rows[i] == Judge(h, rows, i)
    ensures v.valid <==> Verified(h, rows)
    ensures v.valid <==> v.firstInvalidRowId.None?
    ensures !v.valid ==> exists i: nat :: FirstBroken(h, rows, i) && v.firstInvalidRowId == Some(rows[i].id)
  {
    var results: seq<RowVerification> := [];
    var priorHash := "";
    var valid := true;
    var firstInvalid: Option<int> := None;
    ghost var broken := 0;
    for n := 0 to |rows|
      invariant priorHash == if n == 0 then "" else rows[n - 1].Content()
      invariant |results| == n
      invariant forall i :: 0 <= i < n ==> results[i] == Judge(h, rows, i)
      invariant valid ==> firstInvalid.None? && forall i :: 0 <= i < n ==> RowOk(h, rows, i)
      invariant !valid ==> FirstBroken(h, rows, broken) && firstInvalid == Some(rows[broken].id)
    {
      var row := rows[n];
      var storedPrev := row.Previous();
      var expected := h(Payload(row.columns, storedPrev));
      var stored := row.Content();
      var rowOk := expected == stored && storedPrev == priorHash;
      assert rowOk == RowOk(h, rows, n);
      if !rowOk && firstInvalid.None? {
        valid := false;
        firstInvalid := Some(row.id);
        broken := n;
      }
      var shown := RowVerification(row.id, expected, stored, priorHash, storedPrev, rowOk);
      assert shown == Judge(h, rows, n);
      results := results + [shown];
      priorHash := stored;
    }
    v := ChainVerification(|rows|, valid, firstInvalid, results);
  }

  /** What a reader is shown of a row explains its verdict: the row is ok exactly when the shown hashes agree
      pairwise; the stored ones are the row's own, NULL as empty; the expected content hash is the digest
      over the row as stored; the expected previous hash is what was shown as stored one row earlier. */
  lemma VerdictIsShown(h: string -> string, rows: seq<Row>, i: nat)
    requires i < |rows|
    ensures var v, c := Judge(h, rows, i), rows[i].columns;
            && v.rowId == rows[i].id
            && (v.ok <==> v.expectedHash == v.storedHash && v.expectedPrevious == v.storedPrevious)
            && rows[i].contentHash in {Some(v.storedHash), if v.storedHash == "" then None else Some(v.storedHash)}
            && rows[i].previousHash in {Some(v.storedPrevious),
                                        if v.storedPrevious == "" then None else Some(v.storedPrevious)}
            && v.expectedHash
               == h(c.scope.Or("") + "|" + c.tenantId.Or("") + "|" + c.investigationId.Or("") + "|" + c.actor.Or("")
                    + "|" + c.action.Or("") + "|" + c.details.Or("") + "|" + c.createdAt.Or("")
                    + "|" + v.storedPrevious)
            && v.expectedPrevious == if i == 0 then "" else Judge(h, rows, i - 1).storedHash
  {
    HeadOf(rows[i].columns);
  }

  /** The seven texts in digest order, with a bar between neighbours. */
  lemma HeadOf(c: Columns)
    ensures Head(c) == c.scope.Or("") + "|" + c.tenantId.Or("") + "|" + c.investigationId.Or("") + "|" + c.actor.Or("")
                       + "|" + c.action.Or("") + "|" + c.details.Or("") + "|" + c.createdAt.Or("")
  {
    var t := Texts(c);
    assert t[..6][..5] == t[..5] && t[..5][..4] == t[..4] && t[..4][..3] == t[..3] && t[..3][..2] == t[..2];
    assert t[..2][..1] == t[..1];
    assert Joined(t[..1]) == t[0];
    assert Joined(t[..3]) == t[0] + "|" + t[1] + "|" + t[2];
    assert Joined(t[..5]) == Joined(t[..3]) + "|" + t[3] + "|" + t[4];
  }

  /** A text with a bar-free end splits at its last bar. */
  lemma SplitAtLastBar(a: string, x: string, b: string, y: string)
    requires a + "|" + x == b + "|" + y && '|' !in x && '|' !in y
    ensures a == b && x == y
  {
    var t := a + "|" + x;
    assert t[|a|] == '|' && t[|b|] == '|';
    assert forall k :: |a| < k < |t| ==> t[k] == x[k - |a| - 1];
    assert forall k :: |b| < k < |t| ==> t[k] == y[k - |b| - 1];
    assert |a| == |b|;
    assert a == t[..|a|] && b == t[..|b|] && x == t[|a| + 1..] && y == t[|b| + 1..];
  }

  /** A payload text splits in one way into its head and a bar-free previous hash. */
  lemma PayloadSplits(c1: Columns, p1: string, c2: Columns, p2: string)
    requires Payload(c1, p1) == Payload(c2, p2)
    requires '|' !in p1 && '|' !in p2
    ensures p1 == p2 && Head(c1) == Head(c2)
  {
    SplitAtLastBar(Head(c1), p1, Head(c2), p2);
  }

  lemma PreviousIsBarFree(h: string -> string, rows: seq<Row>, i: nat)
    requires HashOk(h) && Verified(h, rows) && i < |rows|
    ensures '|' !in rows[i].Previous()
  {
    assert RowOk(h, rows, i);
    if i > 0 {
      assert RowOk(h, rows, i - 1);
    }
  }

  /** Equal content hashes mean equal payloads, and predecessors whose content hashes are equal again. */
  lemma EqualHashStep(h: string -> string, a: seq<Row>, b: seq<Row>, i: nat, j: nat)
    requires HashOk(h) && Verified(h, a) && Verified(h, b)
    requires i < |a| && j < |b| && a[i].Content() == b[j].Content()
    ensures RowPayload(a[i]) == RowPayload(b[j]) && (i == 0 <==> j == 0)
    ensures i > 0 && j > 0 ==> a[i - 1].Content() == b[j - 1].Content()
  {
    assert RowOk(h, a, i) && RowOk(h, b, j);
    PreviousIsBarFree(h, a, i);
    PreviousIsBarFree(h, b, j);
    PayloadSplits(a[i].columns, a[i].Previous(), b[j].columns, b[j].Previous());
    if i > 0 { assert RowOk(h, a, i - 1); }
    if j > 0 { assert RowOk(h, b, j - 1); }
  }

  /** The payloads and content hashes of the first n rows agree. */
  ghost predicate SameHistory(a: seq<Row>, b: seq<Row>, n: nat)
    requires n <= |a| && n <= |b|
  {
    forall k :: 0 <= k < n ==> RowPayload(a[k]) == RowPayload(b[k]) && a[k].Content() == b[k].Content()
  }

  /** Equal content hashes at two places of verified chains force the whole histories to agree. */
  lemma {:induction false} EqualHashEqualHistory(h: string -> string, a: seq<Row>, b: seq<Row>, i: nat, j: nat)
    requires HashOk(h) && Verified(h, a) && Verified(h, b)
    requires i < |a| && j < |b| && a[i].Content() == b[j].Content()
    ensures i == j && SameHistory(a, b, i + 1)
    decreases i
  {
    EqualHashStep(h, a, b, i, j);
    if i > 0 { EqualHashEqualHistory(h, a, b, i - 1, j - 1); }
  }

  /** The tip's content hash pins the length and every payload text of a verified chain. */
  lemma SameTipSameChain(h: string -> string, a: seq<Row>, b: seq<Row>)
    requires HashOk(h) && Verified(h, a) && Verified(h, b)
    requires a != [] && b != [] && a[|a| - 1].Content() == b[|b| - 1].Content()
    ensures |a| == |b| && SameHistory(a, b, |a|)
  {
    EqualHashEqualHistory(h, a, b, |a| - 1, |b| - 1);
  }

  // ----------------------------------------------------------------- which columns are pinned

  function Bars(s: string): nat {
    if s == "" then 0 else Bars(s[..|s| - 1]) + if s[|s| - 1] == '|' then 1 else 0
  }

  lemma {:induction false} BarsConcat(s: string, t: string)
    ensures Bars(s + t) == Bars(s) + Bars(t)
  {
    if t == "" {
      assert s + t == s;
    } else {
      assert (s + t)[..|s + t| - 1] == s + t[..|t| - 1];
      BarsConcat(s, t[..|t| - 1]);
    }
  }

  lemma {:induction false} NoBars(s: string)
    ensures Bars(s) == 0 <==> '|' !in s
  {
    if s != "" {
      var n := |s| - 1;
      NoBars(s[..n]);
      assert s == s[..n] + [s[n]];
    }
  }

  function BarsOf(parts: seq<string>): nat {
    if parts == [] then 0 else BarsOf(parts[..|parts| - 1]) + Bars(parts[|parts| - 1])
  }

  ghost predicate BarFree(parts: seq<string>) {
    forall k :: 0 <= k < |parts| ==> '|' !in parts[k]
  }

  lemma {:induction false} NoBarsOf(parts: seq<string>)
    ensures BarsOf(parts) == 0 <==> BarFree(parts)
  {
    if parts != [] {
      var n := |parts| - 1;
      NoBarsOf(parts[..n]);
      NoBars(parts[n]);
      assert parts == parts[..n] + [parts[n]];
    }
  }

  /** A joined text has its parts' bars and one between neighbours. */
  lemma {:induction false} BarsOfJoined(parts: seq<string>)
    requires parts != []
    ensures Bars(Joined(parts)) == BarsOf(parts) + |parts| - 1
  {
    var n := |parts| - 1;
    if n == 0 {
      assert BarsOf(parts[..0]) == 0;
    } else {
      BarsOfJoined(parts[..n]);
      BarsConcat(Joined(parts[..n]), "|");
      BarsConcat(Joined(parts[..n]) + "|", parts[n]);
      assert Bars("|") == 1 by { assert "|"[..0] == ""; }
    }
  }

  /** Bar-free parts can be read back from the joined text. */
  lemma {:induction false} JoinedIsInjective(p: seq<string>, q: seq<string>)
    requires |p| == |q| > 0 && BarFree(p) && BarFree(q) && Joined(p) == Joined(q)
    ensures p == q
  {
    var n := |p| - 1;
    if n > 0 {
      SplitAtLastBar(Joined(p[..n]), p[n], Joined(q[..n]), q[n]);
      JoinedIsInjective(p[..n], q[..n]);
      assert p == p[..n] + [p[n]] && q == q[..n] + [q[n]];
    }
  }

  lemma {:induction false} JoinedExtends(p: seq<string>, q: seq<string>, more: seq<string>)
    requires p != [] && q != [] && Joined(p) == Joined(q)
    ensures Joined(p + more) == Joined(q + more)
  {
    if more == [] {
      assert p + more == p && q + more == q;
    } else {
      var n := |more| - 1;
      JoinedExtends(p, q, more[..n]);
      assert (p + more)[..|p| + n] == p + more[..n] && (q + more)[..|q| + n] == q + more[..n];
    }
  }

  /** Moving a bar's right-hand text from one part to the front of the next, or its left-hand text to the
      end of the one before, leaves the joined text alone. */
  lemma JoinedShifts(before: seq<string>, u: string, v: string, w: string)
    ensures Joined(before + [u + "|" + v, w]) == Joined(before + [u, v + "|" + w])
  {
    var p, q := before + [u + "|" + v, w], before + [u, v + "|" + w];
    var n := |before|;
    assert p[..n + 1] == before + [u + "|" + v] && q[..n + 1] == before + [u];
    assert (before + [u + "|" + v])[..n] == before && (before + [u])[..n] == before;
    if n == 0 {
      assert Joined(p) == u + "|" + v + "|" + w == Joined(q);
    } else {
      assert Joined(p) == Joined(before) + "|" + (u + "|" + v) + "|" + w;
      assert Joined(q) == Joined(before) + "|" + u + "|" + (v + "|" + w);
      assert Joined(p) == Joined(q);
    }
  }

  function FromTexts(t: seq<string>): Columns
    requires |t| == 7
  {
    Columns(Some(t[0]), Some(t[1]), Some(t[2]), Some(t[3]), Some(t[4]), Some(t[5]), Some(t[6]))
  }

  lemma TextsOfFromTexts(t: seq<string>)
    requires |t| == 7
    ensures Texts(FromTexts(t)) == t
  {
  }

  /** Another column record with the same joined text, if some text holds a bar. */
  lemma ShiftedColumns(c: Columns, k: nat) returns (c2: Columns)
    requires k < 7 && '|' in Texts(c)[k]
    ensures Head(c2) == Head(c) && Texts(c2) != Texts(c)
  {
    var t := Texts(c);
    var b :| 0 <= b < |t[k]| && t[k][b] == '|';
    assert t[k] == t[k][..b] + "|" + t[k][b + 1..];
    var t2 := if k < 6 then ShiftedRight(t, k, t[k][..b], t[k][b + 1..]) else ShiftedLeft(t, t[k][..b], t[k][b + 1..]);
    c2 := FromTexts(t2);
    TextsOfFromTexts(t2);
  }

  function ShiftedRight(t: seq<string>, k: nat, u: string, v: string): (t2: seq<string>)
    requires |t| == 7 && k < 6 && t[k] == u + "|" + v
    ensures |t2| == 7 && t2[k] != t[k] && Joined(t2) == Joined(t)
  {
    JoinedShifts(t[..k], u, v, t[k + 1]);
    JoinedExtends(t[..k] + [t[k], t[k + 1]], t[..k] + [u, v + "|" + t[k + 1]], t[k + 2..]);
    assert t == t[..k] + [t[k], t[k + 1]] + t[k + 2..];
    t[..k] + [u, v + "|" + t[k + 1]] + t[k + 2..]
  }

  function ShiftedLeft(t: seq<string>, u: string, v: string): (t2: seq<string>)
    requires |t| == 7 && t[6] == u + "|" + v
    ensures |t2| == 7 && t2[6] != t[6] && Joined(t2) == Joined(t)
  {
    JoinedShifts(t[..5], t[5], u, v);
    assert t == t[..5] + [t[5], u + "|" + v];
    t[..5] + [t[5] + "|" + u, v]
  }

  /** The joined text pins these columns: no other column texts give it. */
  ghost predicate Pinned(c: Columns) {
    forall c2: Columns :: Head(c2) == Head(c) ==> Texts(c2) == Texts(c)
  }

  /** A row's column texts are determined by its payload exactly when none of them holds a bar. */
  lemma PinnedIffBarFree(c: Columns)
    ensures Pinned(c) <==> BarFree(Texts(c))
  {
    if BarFree(Texts(c)) {
      forall c2: Columns | Head(c2) == Head(c) ensures Texts(c2) == Texts(c) {
        BarsOfJoined(Texts(c));
        BarsOfJoined(Texts(c2));
        NoBarsOf(Texts(c));
        NoBarsOf(Texts(c2));
        JoinedIsInjective(Texts(c), Texts(c2));
      }
    } else {
      var k :| 0 <= k < |Texts(c)| && '|' in Texts(c)[k];
      var c2 := ShiftedColumns(c, k);
      assert !Pinned(c);
    }
  }

  /** Tamper evidence for columns: a verified chain whose texts hold no bar is determined, column by column,
      by its last content hash, against every verified chain there is. */
  lemma SameTipSameColumns(h: string -> string, a: seq<Row>, b: seq<Row>)
    requires HashOk(h) && Verified(h, a) && Verified(h, b)
    requires a != [] && b != [] && a[|a| - 1].Content() == b[|b| - 1].Content()
    requires forall k :: 0 <= k < |a| ==> BarFree(Texts(a[k].columns))
    ensures |a| == |b| && forall k :: 0 <= k < |a| ==> Texts(a[k].columns) == Texts(b[k].columns)
  {
    SameTipSameChain(h, a, b);
    forall k | 0 <= k < |a| ensures Texts(a[k].columns) == Texts(b[k].columns) {
      PreviousIsBarFree(h, a, k);
      PreviousIsBarFree(h, b, k);
      PayloadSplits(a[k].columns, a[k].Previous(), b[k].columns, b[k].Previous());
      PinnedIffBarFree(a[k].columns);
    }
  }

  /** A single row, verified. */
  function FirstRow(h: string -> string, c: Columns): Row {
    Row(1, c, Some(h(Payload(c, ""))), Some(""))
  }

  /** And only then: any first row with a bar in a column has a verified double with the same content hash
      and other columns. */
  lemma ColumnsAreNotPinned(h: string -> string, c: Columns) returns (b: Row)
    requires !BarFree(Texts(c))
    ensures Verified(h, [FirstRow(h, c)]) && Verified(h, [b])
    ensures b.Content() == FirstRow(h, c).Content() && Texts(b.columns) != Texts(c)
  {
    var k :| 0 <= k < |Texts(c)| && '|' in Texts(c)[k];
    var c2 := ShiftedColumns(c, k);
    b := FirstRow(h, c2);
    assert RowOk(h, [FirstRow(h, c)], 0) && RowOk(h, [b], 0);
  }

  /** In a verified chain no two rows share a content hash, and no two share a previous hash. */
  lemma NoForks(h: string -> string, rows: seq<Row>, i: nat, j: nat)
    requires HashOk(h) && Verified(h, rows) && i < j < |rows|
    ensures rows[i].Content() != rows[j].Content()
    ensures rows[i].Previous() != rows[j].Previous()
  {
    if rows[i].Content() == rows[j].Content() {
      EqualHashEqualHistory(h, rows, rows, i, j);
    }
    assert RowOk(h, rows, i) && RowOk(h, rows, j) && RowOk(h, rows, j - 1);
    if i > 0 && rows[i - 1].Content() == rows[j - 1].Content() {
      EqualHashEqualHistory(h, rows, rows, i - 1, j - 1);
    }
  }

  /** Two stretches verify together exactly if the first verifies and each row of the second continues
      it: a verified chain's prefixes verify, and a walk cut short at a row limit vouches for its rows. */
  lemma VerifiedSplits(h: string -> string, rows: seq<Row>, n: nat)
    requires n <= |rows|
    ensures Verified(h, rows) <==> Verified(h, rows[..n]) && forall i :: n <= i < |rows| ==> RowOk(h, rows, i)
  {
    forall i | 0 <= i < n ensures RowOk(h, rows[..n], i) <==> RowOk(h, rows, i) {
      if i > 0 { assert rows[..n][i - 1] == rows[i - 1]; }
    }
    if Verified(h, rows) {
      forall i | 0 <= i < n ensures RowOk(h, rows[..n], i) { assert RowOk(h, rows, i); }
    }
    if Verified(h, rows[..n]) && forall i :: n <= i < |rows| ==> RowOk(h, rows, i) {
      forall i | 0 <= i < |rows| ensures RowOk(h, rows, i) {
        if i < n { assert RowOk(h, rows[..n], i); }
      }
    }
  }
}
