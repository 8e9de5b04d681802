/** The usage ledger and the running totals kept beside it on the investigation row. */
module Ledger {
  import opened Common

  datatype Status = Success | TimedOut | ServerError | ValidationFail | RateLimited

  /** A parsed provider response; the cost is the provider's decimal, possibly finer than a micro-dollar. */
  datatype Response = Response(
    content: string, modelUsed: string, inputTokens: int, outputTokens: int, cachedTokens: int, cost: Option<real>)

  /** One `usage` row; the cost column is NUMERIC(14,6), held here in micro-dollars. */
  datatype UsageRow = UsageRow(
    investigation: Option<int>, role: string, attemptNum: nat, retrySeq: nat,
    modelRequested: string, modelUsed: Option<string>, status: Status,
    inputTokens: Option<int>, outputTokens: Option<int>, cachedTokens: Option<int>, costMicros: Option<int>)

  /** The three accumulator columns of an investigation row. */
  datatype Totals = Totals(inputTokens: int, outputTokens: int, costMicros: int) {
    function Plus(t: Totals): Totals {
      Totals(inputTokens + t.inputTokens, outputTokens + t.outputTokens, costMicros + t.costMicros)
    }
    function Tokens(): int { inputTokens + outputTokens }
    predicate AtMost(t: Totals) {
      inputTokens <= t.inputTokens && outputTokens <= t.outputTokens && costMicros <= t.costMicros
    }
  }

  const ZERO := Totals(0, 0, 0)

  /** The two tables a router touches: the ledger, and the totals of each investigation row. */
  datatype Db = Db(ledger: seq<UsageRow>, totals: map<int, Totals>)

  // --------------------------------------------------------------- rounding

  /** Assignment of a decimal to a NUMERIC(14,6) column: half away from zero, in micro-dollars. */
  function Micros(x: real): int {
    if x >= 0.0 then (x * 1000000.0 + 0.5).Floor else -((-x * 1000000.0 + 0.5).Floor)
  }

  function Dollars(micros: int): real { micros as real / 1000000.0 }

  function PositivePart(x: Option<real>): real {
    if x.Some? && x.value > 0.0 then x.value else 0.0
  }

  function Counted(x: Option<int>): int {
    if x.Some? && x.value > 0 then x.value else 0
  }

  function MicrosOf(cost: Option<real>): Option<int> {
    if cost.Some? then Some(Micros(cost.value)) else None
  }

  lemma FloorShift(t: int, x: real)
    ensures (t as real + x).Floor == t + x.Floor
  {
  }

  /** Rounding the running total commutes with rounding each stored cost, clamping included. */
  lemma RoundingCommutes(total: nat, cost: Option<real>)
    ensures Micros(Dollars(total) + PositivePart(cost)) == total + Counted(MicrosOf(cost))
  {
    var x := PositivePart(cost);
    assert Dollars(total) * 1000000.0 == total as real;
    assert (Dollars(total) + x) * 1000000.0 + 0.5 == total as real + (x * 1000000.0 + 0.5);
    FloorShift(total, x * 1000000.0 + 0.5);
  }

  /** Whole micro-dollars are stored exactly. */
  lemma ExactCost(n: nat) returns (cost: real)
    ensures MicrosOf(Some(cost)) == Some(n)
  {
    cost := Dollars(n);
    RoundingCommutes(n, None);
    assert Dollars(n) + PositivePart(None) == Dollars(n);
  }

  // ------------------------------------------------------- what the rows say

  /** What one row adds to its investigation: the non-negative part, NULL as zero. */
  function Spend(r: UsageRow): Totals {
    Totals(Counted(r.inputTokens), Counted(r.outputTokens), Counted(r.costMicros))
  }

  function Spent(rows: seq<UsageRow>, inv: int): Totals {
    if rows == [] then ZERO
    else
      var n := |rows| - 1;
      var before := Spent(rows[..n], inv);
      if rows[n].investigation == Some(inv) then before.Plus(Spend(rows[n])) else before
  }

  /** Appending rows and adding each row's spend to its investigation's totals. */
  function Post(db: Db, rows: seq<UsageRow>): Db {
    if rows == [] then db
    else
      var n := |rows| - 1;
      PostOne(Post(db, rows[..n]), rows[n])
  }

  function PostOne(db: Db, r: UsageRow): Db {
    Db(db.ledger + [r],
       if r.investigation.Some? && r.investigation.value in db.totals
       then db.totals[r.investigation.value := db.totals[r.investigation.value].Plus(Spend(r))]
       else db.totals)
  }

  /** Every investigation's accumulators equal the sum over its ledger rows. */
  ghost predicate Conserved(db: Db) {
    forall inv :: inv in db.totals ==> db.totals[inv] == Spent(db.ledger, inv)
  }

  lemma {:induction false} SpentNonNegative(rows: seq<UsageRow>, inv: int)
    ensures ZERO.AtMost(Spent(rows, inv))
  {
    if rows != [] { SpentNonNegative(rows[..|rows| - 1], inv); }
  }

  lemma PostOneConserves(db: Db, r: UsageRow)
    requires Conserved(db)
    ensures Conserved(PostOne(db, r))
  {
    assert (db.ledger + [r])[..|db.ledger|] == db.ledger;
  }

  lemma {:induction false} PostConserves(db: Db, rows: seq<UsageRow>)
    requires Conserved(db)
    ensures Conserved(Post(db, rows))
  {
    if rows != [] {
      var n := |rows| - 1;
      PostConserves(db, rows[..n]);
      PostOneConserves(Post(db, rows[..n]), rows[n]);
    }
  }

  /** Posting appends the rows and creates no investigation. */
  lemma {:induction false} PostAppends(db: Db, rows: seq<UsageRow>)
    ensures Post(db, rows).ledger == db.ledger + rows
    ensures Post(db, rows).totals.Keys == db.totals.Keys
  {
    if rows == [] {
      assert db.ledger + rows == db.ledger;
    } else {
      PostAppends(db, rows[..|rows| - 1]);
      assert rows == rows[..|rows| - 1] + [rows[|rows| - 1]];
    }
  }

  lemma {:induction false} PostConcat(db: Db, a: seq<UsageRow>, b: seq<UsageRow>)
    ensures Post(db, a + b) == Post(Post(db, a), b)
  {
    if b == [] {
      assert a + b == a;
    } else {
      assert (a + b)[..|a| + |b| - 1] == a + b[..|b| - 1];
      PostConcat(db, a, b[..|b| - 1]);
    }
  }

  /** Posting rows adds what they spend. */
  lemma {:induction false} PostTotals(db: Db, rows: seq<UsageRow>, inv: int)
    requires inv in db.totals
    ensures inv in Post(db, rows).totals && Post(db, rows).totals[inv] == db.totals[inv].Plus(Spent(rows, inv))
  {
    if rows != [] { PostTotals(db, rows[..|rows| - 1], inv); }
  }

  // ------------------------------------------------------------ the live tables

  /** The tables behind one connection. */
  class UsageDb {
    var ledger: seq<UsageRow>
    var totals: map<int, Totals>

    function State(): Db
      reads this
    {
      Db(ledger, totals)
    }

    /** The accumulator columns never go negative. */
    ghost predicate Valid()
      reads this
    {
      forall inv :: inv in totals ==> ZERO.AtMost(totals[inv])
    }

    constructor (db: Db)
      ensures State() == db
    {
      ledger, totals := db.ledger, db.totals;
    }

    method LogUsageAttempt(row: UsageRow)
      modifies this`ledger
      ensures ledger == old(ledger) + [row]
    {
      ledger := ledger + [row];
    }

    /** The clamped in-place increments; a missing investigation row is left alone, and the
        cost column rounds the new sum. */
    method UpdateInvestigationTotals(inv: int, inputTokens: Option<int>, outputTokens: Option<int>, cost: Option<real>)
      requires Valid()
      modifies this`totals
      ensures Valid()
      ensures totals == if inv in old(totals)
        then old(totals)[inv := old(totals[inv]).Plus(
               Totals(Counted(inputTokens), Counted(outputTokens), Counted(MicrosOf(cost))))]
        else old(totals)
    {
      if inv in totals {
        var t := totals[inv];
        RoundingCommutes(t.costMicros, cost);
        totals := totals[inv := Totals(t.inputTokens + Counted(inputTokens), t.outputTokens + Counted(outputTokens),
                                       Micros(Dollars(t.costMicros) + PositivePart(cost)))];
      }
    }
  }

  // ----------------------------------------------------------- the manifest

  /** The manifest's token sums: success rows only, NULL as zero, no clamp. */
  datatype TokenUsage = TokenUsage(input: int, output: int, cached: int)

  function SuccessTokens(rows: seq<UsageRow>, inv: int): TokenUsage {
    if rows == [] then TokenUsage(0, 0, 0)
    else
      var n := |rows| - 1;
      var t := SuccessTokens(rows[..n], inv);
      if rows[n].investigation == Some(inv) && rows[n].status.Success?
      then TokenUsage(t.input + rows[n].inputTokens.Or(0), t.output + rows[n].outputTokens.Or(0),
                      t.cached + rows[n].cachedTokens.Or(0))
      else t
  }

  function RowsOf(rows: seq<UsageRow>, inv: int): seq<UsageRow> {
    if rows == [] then []
    else
      var n := |rows| - 1;
      RowsOf(rows[..n], inv) + if rows[n].investigation == Some(inv) then [rows[n]] else []
  }

  method LoadUsageSummary(rows: seq<UsageRow>, inv: int) returns (usage: TokenUsage, attempts: seq<UsageRow>)
    ensures usage == SuccessTokens(rows, inv)
    ensures attempts == RowsOf(rows, inv)
  {
    var totalIn, totalOut, totalCached := 0, 0, 0;
    attempts := [];
    for n := 0 to |rows|
      invariant TokenUsage(totalIn, totalOut, totalCached) == SuccessTokens(rows[..n], inv)
      invariant attempts == RowsOf(rows[..n], inv)
    {
      assert rows[..n + 1][..n] == rows[..n];
      if rows[n].investigation == Some(inv) {
        if rows[n].status.Success? {
          totalIn := totalIn + rows[n].inputTokens.Or(0);
          totalOut := totalOut + rows[n].outputTokens.Or(0);
          totalCached := totalCached + rows[n].cachedTokens.Or(0);
        }
        attempts := attempts + [rows[n]];
      }
    }
    assert rows[..|rows|] == rows;
    usage := TokenUsage(totalIn, totalOut, totalCached);
  }

  lemma {:induction false} SuccessTokensBelowSpent(rows: seq<UsageRow>, inv: int)
    ensures SuccessTokens(rows, inv).input <= Spent(rows, inv).inputTokens
    ensures SuccessTokens(rows, inv).output <= Spent(rows, inv).outputTokens
  {
    if rows != [] { SuccessTokensBelowSpent(rows[..|rows| - 1], inv); }
  }

  /** A row the manifest counts as the totals do: not negative on success, nothing spent otherwise. */
  predicate Agrees(success: bool, tokens: Option<int>) {
    if success then tokens.Or(0) >= 0 else tokens.Or(0) <= 0
  }

  ghost predicate InputsAgree(rows: seq<UsageRow>, inv: int) {
    forall r :: r in rows && r.investigation == Some(inv) ==> Agrees(r.status.Success?, r.inputTokens)
  }

  ghost predicate OutputsAgree(rows: seq<UsageRow>, inv: int) {
    forall r :: r in rows && r.investigation == Some(inv) ==> Agrees(r.status.Success?, r.outputTokens)
  }

  lemma AgreesSnoc(rows: seq<UsageRow>, inv: int)
    requires rows != []
    ensures var n := |rows| - 1;
            var mine := rows[n].investigation == Some(inv);
            var success := rows[n].status.Success?;
            && (InputsAgree(rows, inv)
                <==> InputsAgree(rows[..n], inv) && (mine ==> Agrees(success, rows[n].inputTokens)))
            && (OutputsAgree(rows, inv)
                <==> OutputsAgree(rows[..n], inv) && (mine ==> Agrees(success, rows[n].outputTokens)))
  {
    var n := |rows| - 1;
    assert rows == rows[..n] + [rows[n]];
    assert forall r :: r in rows <==> r in rows[..n] || r == rows[n];
  }

  /** The manifest's token sums are the totals exactly when every success row of the investigation counts
      no negative tokens and every other row of it counts none: a rejected response with tokens breaks it. */
  lemma {:induction false} SuccessTokensAreSpentIff(rows: seq<UsageRow>, inv: int)
    ensures SuccessTokens(rows, inv).input == Spent(rows, inv).inputTokens <==> InputsAgree(rows, inv)
    ensures SuccessTokens(rows, inv).output == Spent(rows, inv).outputTokens <==> OutputsAgree(rows, inv)
  {
    if rows != [] {
      var n := |rows| - 1;
      SuccessTokensAreSpentIff(rows[..n], inv);
      SuccessTokensBelowSpent(rows[..n], inv);
      AgreesSnoc(rows, inv);
    }
  }

  /** The ledger of a schema retry that worked: a rejected response, then an accepted one. */
  function RetriedLedger(rejected: UsageRow, accepted: UsageRow): seq<UsageRow> { [rejected, accepted] }

  /** Such a ledger holds more tokens than its manifest says, by exactly the rejected response. */
  lemma RetryIsMissingFromManifest(rejected: UsageRow, accepted: UsageRow, inv: int)
    requires rejected.investigation == accepted.investigation == Some(inv)
    requires rejected.status == ValidationFail && accepted.status == Success
    requires rejected.inputTokens == Some(100) && accepted.inputTokens == Some(120)
    ensures SuccessTokens(RetriedLedger(rejected, accepted), inv).input == 120
    ensures Spent(RetriedLedger(rejected, accepted), inv).inputTokens == 220
  {
    var rows := RetriedLedger(rejected, accepted);
    assert rows[..1] == [rejected] && [rejected][..0] == [];
    assert SuccessTokens([rejected], inv).input == 0 && Spent([rejected], inv).inputTokens == 100;
  }
}
