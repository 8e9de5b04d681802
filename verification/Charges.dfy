/** What a call costs its investigation, read off the provider's own answers; when the budget gate closes;
    and how a call ends. */
module Charges {
  import opened Common
  import opened Ledger
  import opened Router
  import opened RouterLaws

  // --------------------------------------------------------------------- the money

  /** A stored cost is the nearest whole number of micro-dollars, halves away from zero. */
  lemma MicrosIsNearest(x: real)
    ensures x >= 0.0 ==> Micros(x) as real - 0.5 <= x * 1000000.0 < Micros(x) as real + 0.5
    ensures x < 0.0 ==> Micros(x) as real - 0.5 < x * 1000000.0 <= Micros(x) as real + 0.5
  {
  }

  function NonNegative(n: int): nat { if n < 0 then 0 else n }

  /** What one answer costs: a response its tokens and its price, negative counts as zero; anything else
      nothing. */
  function Charge(reply: Reply): Totals {
    match reply
    case Ok(x) =>
      Totals(NonNegative(x.inputTokens), NonNegative(x.outputTokens),
             match x.cost case None => 0 case Some(price) => NonNegative(Micros(price)))
    case _ => ZERO
  }

  /** The cost of the answer to each request. */
  type Prices = (nat, nat) -> Totals

  function PricesOf(p: Provider): Prices { (n: nat, retry: nat) => Charge(p(n, retry)) }

  /** What the answers to these requests cost together. */
  function Charged(prices: Prices, requests: seq<(nat, nat)>): Totals {
    if requests == [] then ZERO
    else
      var n := |requests| - 1;
      Charged(prices, requests[..n]).Plus(prices(requests[n].0, requests[n].1))
  }

  lemma {:induction false} ChargedConcat(prices: Prices, a: seq<(nat, nat)>, b: seq<(nat, nat)>)
    ensures Charged(prices, a + b) == Charged(prices, a).Plus(Charged(prices, b))
    decreases |b|
  {
    if b == [] {
      assert a + b == a;
    } else {
      var init, last := b[..|b| - 1], b[|b| - 1];
      assert (a + b)[..|a| + |b| - 1] == a + init;
      ChargedConcat(prices, a, init);
      PlusAssociates(Charged(prices, a), Charged(prices, init), prices(last.0, last.1));
    }
  }

  lemma PlusAssociates(a: Totals, b: Totals, c: Totals)
    ensures a.Plus(b).Plus(c) == a.Plus(b.Plus(c)) && a.Plus(ZERO) == a && ZERO.Plus(a) == a
  {
  }

  lemma SpentLast(rows: seq<UsageRow>, r: UsageRow, inv: int)
    ensures Spent(rows + [r], inv)
            == if r.investigation == Some(inv) then Spent(rows, inv).Plus(Spend(r)) else Spent(rows, inv)
  {
    assert (rows + [r])[..|rows|] == rows;
  }

  lemma {:induction false} SpentConcat(a: seq<UsageRow>, b: seq<UsageRow>, inv: int)
    ensures Spent(a + b, inv) == Spent(a, inv).Plus(Spent(b, inv))
    decreases |b|
  {
    if b == [] {
      assert a + b == a;
    } else {
      var init, last := b[..|b| - 1], b[|b| - 1];
      assert a + b == a + init + [last] && b == init + [last];
      SpentConcat(a, init, inv);
      SpentLast(a + init, last, inv);
      SpentLast(init, last, inv);
      PlusAssociates(Spent(a, inv), Spent(init, inv), Spend(last));
    }
  }

  lemma ChargedOne(prices: Prices, id: (nat, nat))
    ensures Charged(prices, [id]) == prices(id.0, id.1)
  {
    assert [id][..0] == [];
    PlusAssociates(prices(id.0, id.1), ZERO, ZERO);
  }

  lemma RowSpend(req: Request, n: nat, retry: nat, model: string, reply: Reply)
    ensures var rows := RequestRow(req, n, retry, model, reply);
            if rows == [] then Charge(reply) == ZERO
            else |rows| == 1 && rows[0].investigation == req.investigation && Spend(rows[0]) == Charge(reply)
  {
  }

  lemma SpentOfFew(rows: seq<UsageRow>, charge: Totals, inv: int)
    requires if rows == [] then charge == ZERO
             else |rows| == 1 && rows[0].investigation == Some(inv) && Spend(rows[0]) == charge
    ensures Spent(rows, inv) == charge
  {
    if rows != [] {
      assert rows[..0] == [];
      PlusAssociates(Spend(rows[0]), ZERO, ZERO);
    }
  }

  /** One request's own row spends what its answer costs. */
  lemma RowCharge(c: Context, p: Provider, n: nat, retry: nat, model: string, inv: int)
    requires c.req.investigation == Some(inv)
    ensures Spent(RequestRow(c.req, n, retry, model, p(n, retry)), inv) == Charged(PricesOf(p), [(n, retry)])
  {
    var rows := RequestRow(c.req, n, retry, model, p(n, retry));
    RowSpend(c.req, n, retry, model, p(n, retry));
    SpentOfFew(rows, PricesOf(p)(n, retry), inv);
    ChargedOne(PricesOf(p), (n, retry));
  }

  lemma AttemptCharge(c: Context, p: Provider, i: nat, inv: int)
    requires i < |c.models| && c.req.investigation == Some(inv)
    ensures Spent(AttemptRows(c, p, i), inv) == Charged(PricesOf(p), AttemptRequests(c, p, i))
  {
    var first := RequestRow(c.req, i + 1, 0, c.models[i], p(i + 1, 0));
    var second := RequestRow(c.req, i + 1, 1, c.models[i], p(i + 1, 1));
    RowCharge(c, p, i + 1, 0, c.models[i], inv);
    RowCharge(c, p, i + 1, 1, c.models[i], inv);
    TwoCharges(PricesOf(p), i + 1, first, second, inv);
    AttemptShape(c, p, i, first, second);
  }

  lemma AttemptShape(c: Context, p: Provider, i: nat, first: seq<UsageRow>, second: seq<UsageRow>)
    requires i < |c.models|
    requires first == RequestRow(c.req, i + 1, 0, c.models[i], p(i + 1, 0))
    requires second == RequestRow(c.req, i + 1, 1, c.models[i], p(i + 1, 1))
    ensures var rows, requests := AttemptRows(c, p, i), AttemptRequests(c, p, i);
            || (rows == [] && requests == [])
            || (rows == first && requests == [(i + 1, 0)])
            || (rows == first + second && requests == [(i + 1, 0)] + [(i + 1, 1)])
  {
    assert first + [] == first && [(i + 1, 0)] + [] == [(i + 1, 0)];
  }

  lemma TwoCharges(prices: Prices, n: nat, first: seq<UsageRow>, second: seq<UsageRow>, inv: int)
    requires Spent(first, inv) == Charged(prices, [(n, 0)]) && Spent(second, inv) == Charged(prices, [(n, 1)])
    ensures Spent(first + second, inv) == Charged(prices, [(n, 0)] + [(n, 1)])
  {
    SpentConcat(first, second, inv);
    ChargedConcat(prices, [(n, 0)], [(n, 1)]);
  }

  /** Each attempt's rows spend what its requests cost. */
  ghost predicate Priced(c: Context, p: Provider, prices: Prices, inv: int) {
    forall i :: 0 <= i < |c.models| ==> Spent(AttemptRows(c, p, i), inv) == Charged(prices, AttemptRequests(c, p, i))
  }

  lemma AttemptsArePriced(c: Context, p: Provider, inv: int)
    requires c.req.investigation == Some(inv)
    ensures Priced(c, p, PricesOf(p), inv)
  {
    forall i | 0 <= i < |c.models|
      ensures Spent(AttemptRows(c, p, i), inv) == Charged(PricesOf(p), AttemptRequests(c, p, i))
    {
      AttemptCharge(c, p, i, inv);
    }
  }

  /** A turn's requests and rows come before those of the turns after it, if it falls. */
  lemma TurnFirst(c: Context, p: Provider, db: Db, i: nat) returns (requests: seq<(nat, nat)>, rows: seq<UsageRow>)
    requires i < |c.models| && !GateClosed(c, db)
    ensures From(c, p, db, i).requests == AttemptRequests(c, p, i) + requests
    ensures From(c, p, db, i).rows == AttemptRows(c, p, i) + rows
    ensures var rest := From(c, p, Post(db, AttemptRows(c, p, i)), i + 1);
            if Falls(c, p, i) then requests == rest.requests && rows == rest.rows else requests == [] && rows == []
  {
    FromStep(c, p, db, i);
    FateMeans(c, p, i);
    var rest := From(c, p, Post(db, AttemptRows(c, p, i)), i + 1);
    requests, rows := if Falls(c, p, i) then rest.requests else [], if Falls(c, p, i) then rest.rows else [];
    assert AttemptRequests(c, p, i) + [] == AttemptRequests(c, p, i);
    assert AttemptRows(c, p, i) + [] == AttemptRows(c, p, i);
  }

  lemma SpendsMore(prices: Prices, requests: seq<(nat, nat)>, rows: seq<UsageRow>, more: seq<(nat, nat)>,
                   moreRows: seq<UsageRow>, inv: int)
    requires Spent(rows, inv) == Charged(prices, requests) && Spent(moreRows, inv) == Charged(prices, more)
    ensures Spent(rows + moreRows, inv) == Charged(prices, requests + more)
  {
    SpentConcat(rows, moreRows, inv);
    ChargedConcat(prices, requests, more);
  }

  lemma {:induction false} CallSpends(c: Context, p: Provider, prices: Prices, db: Db, i: nat, inv: int)
    requires i <= |c.models| && Priced(c, p, prices, inv)
    ensures var t := From(c, p, db, i); Spent(t.rows, inv) == Charged(prices, t.requests)
    decreases |c.models| - i
  {
    if i < |c.models| && !GateClosed(c, db) {
      var more, moreRows := TurnFirst(c, p, db, i);
      if Falls(c, p, i) { CallSpends(c, p, prices, Post(db, AttemptRows(c, p, i)), i + 1, inv); }
      SpendsMore(prices, AttemptRequests(c, p, i), AttemptRows(c, p, i), more, moreRows, inv);
    }
  }

  /** A call raises the totals of its own investigation by exactly what the provider's answers to the
      requests it sent cost, rejected responses included, and no other investigation's. */
  lemma CallCharges(c: Context, p: Provider, db: Db, inv: int)
    requires inv in db.totals
    ensures var t := From(c, p, db, 0);
            && inv in Post(db, t.rows).totals
            && Post(db, t.rows).totals[inv]
               == if c.req.investigation == Some(inv) then db.totals[inv].Plus(Charged(PricesOf(p), t.requests))
                  else db.totals[inv]
  {
    var rows := From(c, p, db, 0).rows;
    PostTotals(db, rows, inv);
    if c.req.investigation == Some(inv) {
      AttemptsArePriced(c, p, inv);
      CallSpends(c, p, PricesOf(p), db, 0, inv);
    } else {
      RowsOrdered(c, p, db, 0);
      PostOthers(db, rows, inv);
    }
  }

  // ---------------------------------------------------------------------- the gate

  /** Some cap that is set and positive is reached by these totals. */
  predicate Met(caps: Caps, t: Totals) {
    || (caps.tokens.Some? && 0 < caps.tokens.value <= t.inputTokens + t.outputTokens)
    || (caps.usdMicros.Some? && 0 < caps.usdMicros.value <= t.costMicros)
  }

  /** The requests of the first n models, if the loop gets past them. */
  function RequestsBefore(c: Context, p: Provider, n: nat): seq<(nat, nat)>
    requires n <= |c.models|
  {
    if n == 0 then [] else RequestsBefore(c, p, n - 1) + AttemptRequests(c, p, n - 1)
  }

  lemma {:induction false} TotalsBefore(c: Context, p: Provider, prices: Prices, db: Db, n: nat, inv: int)
    requires n <= |c.models| && Priced(c, p, prices, inv) && inv in db.totals
    ensures inv in At(c, p, db, n).totals
    ensures At(c, p, db, n).totals[inv] == db.totals[inv].Plus(Charged(prices, RequestsBefore(c, p, n)))
  {
    if n == 0 {
      PlusAssociates(db.totals[inv], ZERO, ZERO);
    } else {
      TotalsBefore(c, p, prices, db, n - 1, inv);
      MoreTotals(At(c, p, db, n - 1), AttemptRows(c, p, n - 1), prices, db.totals[inv], RequestsBefore(c, p, n - 1),
                 AttemptRequests(c, p, n - 1), inv);
    }
  }

  lemma MoreTotals(db: Db, rows: seq<UsageRow>, prices: Prices, start: Totals, before: seq<(nat, nat)>,
                   requests: seq<(nat, nat)>, inv: int)
    requires inv in db.totals && db.totals[inv] == start.Plus(Charged(prices, before))
    requires Spent(rows, inv) == Charged(prices, requests)
    ensures inv in Post(db, rows).totals
    ensures Post(db, rows).totals[inv] == start.Plus(Charged(prices, before + requests))
  {
    PostTotals(db, rows, inv);
    ChargedConcat(prices, before, requests);
    PlusAssociates(start, Charged(prices, before), Charged(prices, requests));
  }

  /** The gate in front of a model is closed if and only if the investigation's row exists and its totals at
      the start of the call, plus the cost of the answers so far, reach an active cap. */
  lemma GateReadsCharges(c: Context, p: Provider, db: Db, n: nat)
    requires n <= |c.models|
    ensures !Open(c, p, db, n) <==>
      && c.req.investigation.Some? && c.req.investigation.value in db.totals
      && Met(c.caps, db.totals[c.req.investigation.value].Plus(Charged(PricesOf(p), RequestsBefore(c, p, n))))
  {
    if c.req.investigation.Some? {
      var inv := c.req.investigation.value;
      AttemptsArePriced(c, p, inv);
      if inv in db.totals { TotalsBefore(c, p, PricesOf(p), db, n, inv); } else { StillAbsent(c, p, db, n, inv); }
    }
  }

  lemma {:induction false} StillAbsent(c: Context, p: Provider, db: Db, n: nat, inv: int)
    requires n <= |c.models| && inv !in db.totals
    ensures inv !in At(c, p, db, n).totals
  {
    if n > 0 {
      StillAbsent(c, p, db, n - 1, inv);
      PostAppends(At(c, p, db, n - 1), AttemptRows(c, p, n - 1));
    }
  }

  // ------------------------------------------------------------------ how a call ends

  /** Every model before index n fell with its gate open. */
  ghost predicate GetsTo(c: Context, p: Provider, db: Db, i: nat, n: nat) {
    i <= n <= |c.models| && forall j :: i <= j < n ==> Falls(c, p, j) && Open(c, p, db, j)
  }

  predicate Fatal(reply: Reply) { reply == Fault || reply == HttpError(401) || reply == HttpError(403) }

  /** The turn of model index i raises out of the call: no key, or a fatal answer to one of its requests. */
  predicate Raises(c: Context, p: Provider, i: nat)
    requires i < |c.models|
  {
    || !c.hasKey(c.models[i])
    || Fatal(p(i + 1, 0))
    || (p(i + 1, 0).Ok? && !Accepts(c.req, p(i + 1, 0).response) && Fatal(p(i + 1, 1)))
  }

  ghost predicate Closes(c: Context, p: Provider, db: Db, i: nat) {
    exists n: nat :: GetsTo(c, p, db, i, n) && n < |c.models| && !Open(c, p, db, n)
  }

  ghost predicate Faults(c: Context, p: Provider, db: Db, i: nat) {
    exists n: nat :: GetsTo(c, p, db, i, n) && n < |c.models| && Open(c, p, db, n) && Raises(c, p, n)
  }

  lemma GetsToStep(c: Context, p: Provider, db: Db, i: nat, n: nat)
    requires i < |c.models|
    ensures GetsTo(c, p, db, i, n)
            <==> (i == n || (Falls(c, p, i) && Open(c, p, db, i) && GetsTo(c, p, db, i + 1, n)))
  {
  }

  lemma ClosesStep(c: Context, p: Provider, db: Db, i: nat)
    requires i < |c.models|
    ensures Closes(c, p, db, i) <==> !Open(c, p, db, i) || (Falls(c, p, i) && Closes(c, p, db, i + 1))
  {
    forall n: nat ensures GetsTo(c, p, db, i, n)
                          <==> (i == n || (Falls(c, p, i) && Open(c, p, db, i) && GetsTo(c, p, db, i + 1, n)))
    {
      GetsToStep(c, p, db, i, n);
    }
  }

  lemma FaultsStep(c: Context, p: Provider, db: Db, i: nat)
    requires i < |c.models|
    ensures Faults(c, p, db, i)
            <==> Open(c, p, db, i) && (Raises(c, p, i) || (Falls(c, p, i) && Faults(c, p, db, i + 1)))
  {
    forall n: nat ensures GetsTo(c, p, db, i, n)
                          <==> (i == n || (Falls(c, p, i) && Open(c, p, db, i) && GetsTo(c, p, db, i + 1, n)))
    {
      GetsToStep(c, p, db, i, n);
    }
  }

  lemma TurnEnds(c: Context, p: Provider, db: Db, i: nat)
    requires i < |c.models|
    ensures var r := From(c, p, At(c, p, db, i), i).result;
            && (!Open(c, p, db, i) ==> r == BudgetExceeded)
            && (Open(c, p, db, i) && Falls(c, p, i) ==> r == From(c, p, At(c, p, db, i + 1), i + 1).result)
            && (Open(c, p, db, i) && !Falls(c, p, i) ==> if Raises(c, p, i) then r == Raised else r.Returned?)
    ensures Falls(c, p, i) ==> !Raises(c, p, i)
  {
    FateMeans(c, p, i);
    if Open(c, p, db, i) { FromStep(c, p, At(c, p, db, i), i); }
  }

  ghost predicate EndsRight(c: Context, p: Provider, db: Db, i: nat)
    requires i <= |c.models|
  {
    var r := From(c, p, At(c, p, db, i), i).result;
    && (r == BudgetExceeded <==> Closes(c, p, db, i))
    && (r == Raised <==> Faults(c, p, db, i))
    && (r == Exhausted <==> GetsTo(c, p, db, i, |c.models|))
  }

  lemma FallenEnds(c: Context, p: Provider, db: Db, i: nat)
    requires i < |c.models| && Open(c, p, db, i) && Falls(c, p, i) && EndsRight(c, p, db, i + 1)
    ensures EndsRight(c, p, db, i)
  {
    TurnEnds(c, p, db, i);
    ClosesStep(c, p, db, i);
    FaultsStep(c, p, db, i);
    GetsToStep(c, p, db, i, |c.models|);
  }

  lemma LastEnds(c: Context, p: Provider, db: Db, i: nat)
    requires i < |c.models| && !(Open(c, p, db, i) && Falls(c, p, i))
    ensures EndsRight(c, p, db, i)
  {
    TurnEnds(c, p, db, i);
    ClosesStep(c, p, db, i);
    FaultsStep(c, p, db, i);
    GetsToStep(c, p, db, i, |c.models|);
  }

  lemma {:induction false} EndsFrom(c: Context, p: Provider, db: Db, i: nat)
    requires i <= |c.models|
    ensures EndsRight(c, p, db, i)
    decreases |c.models| - i
  {
    if i < |c.models| {
      if Open(c, p, db, i) && Falls(c, p, i) {
        EndsFrom(c, p, db, i + 1);
        FallenEnds(c, p, db, i);
      } else {
        LastEnds(c, p, db, i);
      }
    }
  }

  /** The three ways a call ends without a response: it meets a closed gate behind models that all fell; it
      reaches a model without a key or with a fatal answer; or every model falls behind an open gate. */
  lemma CallEndsIff(c: Context, p: Provider, db: Db)
    ensures var r := From(c, p, db, 0).result;
            && (r == BudgetExceeded <==> Closes(c, p, db, 0))
            && (r == Raised <==> Faults(c, p, db, 0))
            && (r == Exhausted <==> GetsTo(c, p, db, 0, |c.models|))
  {
    EndsFrom(c, p, db, 0);
  }

  // -------------------------------------------------------------------- the manifest

  lemma {:induction false} SuccessTokensConcat(a: seq<UsageRow>, b: seq<UsageRow>, inv: int)
    ensures var x, y, z := SuccessTokens(a, inv), SuccessTokens(b, inv), SuccessTokens(a + b, inv);
            z == TokenUsage(x.input + y.input, x.output + y.output, x.cached + y.cached)
  {
    if b == [] {
      assert a + b == a;
    } else {
      assert (a + b)[..|a| + |b| - 1] == a + b[..|b| - 1];
      SuccessTokensConcat(a, b[..|b| - 1], inv);
    }
  }

  lemma {:induction false} NoSuccessNoTokens(rows: seq<UsageRow>, inv: int)
    requires NoSuccess(rows)
    ensures SuccessTokens(rows, inv) == TokenUsage(0, 0, 0)
  {
    if rows != [] { NoSuccessNoTokens(rows[..|rows| - 1], inv); }
  }

  lemma {:induction false} AttemptsGrow(ledger: seq<UsageRow>, rows: seq<UsageRow>, inv: int, own: bool)
    requires forall r :: r in rows ==> (r.investigation == Some(inv) <==> own)
    ensures RowsOf(ledger + rows, inv) == RowsOf(ledger, inv) + if own then rows else []
  {
    if rows == [] {
      assert ledger + rows == ledger;
    } else {
      var n := |rows| - 1;
      assert (ledger + rows)[..|ledger| + n] == ledger + rows[..n] && rows == rows[..n] + [rows[n]];
      AttemptsGrow(ledger, rows[..n], inv, own);
    }
  }

  /** A call adds to its investigation's manifest the response it returned, if any, and nothing else, and
      lists its rows behind the earlier ones; other manifests stay as they are. */
  lemma ManifestGrows(c: Context, p: Provider, db: Db, inv: int)
    ensures var t := From(c, p, db, 0);
            var before, after := SuccessTokens(db.ledger, inv), SuccessTokens(Post(db, t.rows).ledger, inv);
            var own := c.req.investigation == Some(inv);
            && RowsOf(Post(db, t.rows).ledger, inv) == RowsOf(db.ledger, inv) + (if own then t.rows else [])
            && after == if own && t.result.Returned? then
                          var x := t.result.response;
                          TokenUsage(before.input + x.inputTokens, before.output + x.outputTokens,
                                     before.cached + x.cachedTokens)
                        else before
  {
    var t := From(c, p, db, 0);
    PostAppends(db, t.rows);
    RowsOrdered(c, p, db, 0);
    SuccessRowIsLast(c, p, db, 0);
    AttemptsGrow(db.ledger, t.rows, inv, c.req.investigation == Some(inv));
    SuccessTokensConcat(db.ledger, t.rows, inv);
    if c.req.investigation != Some(inv) {
      OthersCountNothing(t.rows, inv);
    } else if t.result.Returned? {
      NoSuccessNoTokens(t.rows[..|t.rows| - 1], inv);
    } else {
      NoSuccessNoTokens(t.rows, inv);
    }
  }

  lemma {:induction false} OthersCountNothing(rows: seq<UsageRow>, inv: int)
    requires forall k :: 0 <= k < |rows| ==> rows[k].investigation != Some(inv)
    ensures SuccessTokens(rows, inv) == TokenUsage(0, 0, 0)
  {
    if rows != [] { OthersCountNothing(rows[..|rows| - 1], inv); }
  }
}
