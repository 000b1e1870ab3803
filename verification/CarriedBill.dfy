/**
 * What a session costs, key by key, told from its requests and sets (priceCarriedSession in
 * dash/adapttools.go): which set each request carried, and which rate and column its tokens bill in.
 */
module CarriedBill {
  import opened Lists
  import opened CarriedSets
  import opened CarriedPrice
  import opened Prices

  // ---- Which set a request carried ---------------------------------------------------------------------------------

  ghost predicate SameCount(sets: Sets, r: Req, dg: string) {
    dg in sets && sets[dg].ntools == r.tools
  }

  // The recorded set; without one, of the sets of as many tools, the latest first seen by then, else the earliest.
  ghost predicate IsCarried(sets: Sets, r: Req, dg: string) {
    if r.digest in sets then dg == r.digest
    else
      && SameCount(sets, r, dg)
      && forall other :: SameCount(sets, r, other) ==>
        if sets[dg].first <= r.ts then sets[other].first <= r.ts ==> sets[other].first <= sets[dg].first
        else r.ts < sets[dg].first <= sets[other].first
  }

  lemma {:induction false} ChosenIsCarried(sets: Sets, byCount: ByCount, r: Req)
    requires Grouped(sets, byCount) && forall i :: 0 <= i < |CandsFor(sets, byCount, r)| ==> CandsFor(sets, byCount, r)[i] in sets
    ensures var dg := Chosen(sets, byCount, r);
      && (dg.None? <==> r.digest !in sets && forall other :: !SameCount(sets, r, other))
      && (dg.Some? ==> IsCarried(sets, r, dg.value))
  {
    var cands := CandsFor(sets, byCount, r);
    assert GroupRight(sets, CandsAt(byCount, r.tools), r.tools);
    if r.digest !in sets {
      if cands == [] {
        forall other ensures !SameCount(sets, r, other) { assert other in cands <==> SameCount(sets, r, other); }
      } else {
        var k := PickIn(sets, cands, r.ts, |cands|);
        assert cands[k] in cands && sets[cands[0]].first <= sets[cands[k]].first;
        PickIsLatest(sets, cands, r.ts, |cands|, 0);
        forall other | SameCount(sets, r, other)
          ensures if sets[cands[k]].first <= r.ts then sets[other].first <= r.ts ==> sets[other].first <= sets[cands[k]].first
                  else r.ts < sets[cands[k]].first <= sets[other].first
        {
          var i :| 0 <= i < |cands| && cands[i] == other;
          PickIsLatest(sets, cands, r.ts, |cands|, i);
        }
      }
    }
  }

  // ---- What its tokens cost ------------------------------------------------------------------------------------------

  datatype Column = ReadColumn | WriteColumn | InputColumn

  // What so many tokens of a declaration add to a column. A request that read the cache reads its declarations
  // there; one that only wrote it writes them, in the one-hour tier if it wrote any of that; any other pays input.
  function Part(p: Price, r: Req, tokens: int, column: Column): real {
    match column
    case ReadColumn => if r.cacheRead > 0 then tokens as real * p.cacheRead else 0.0
    case WriteColumn =>
      if r.cacheRead > 0 || r.cacheWrite == 0 then 0.0
      else if r.cacheWrite1h > 0 then tokens as real * p.cacheWrite1h else tokens as real * p.cacheWrite
    case InputColumn => if r.cacheRead == 0 && r.cacheWrite == 0 then tokens as real * p.input else 0.0
  }

  // One request as one key's bill sees it: nothing unless its accounting is complete and it carried a set. own is
  // what the key weighs in that set, least and most over the sets it could have carried.
  datatype Line = Blank | Line(carries: bool, own: int, price: Option<Price>, least: int, most: int)

  function LineOf(sets: Sets, byCount: ByCount, price: string -> Option<Price>, r: Req, key: nat): Line
    requires forall i :: 0 <= i < |CandsFor(sets, byCount, r)| ==> CandsFor(sets, byCount, r)[i] in sets
  {
    var dg, cands := Chosen(sets, byCount, r), CandsAt(byCount, r.tools);
    if dg.None? || !r.complete then Blank
    else
      var items := sets[dg.value].items;
      var own, known := Weigh(items, key), r.digest in sets || |cands| < 2;
      Line(Carries(items, key), own, if r.model == "" then None else price(r.model),
           if known then own else Lo(sets, cands, key, |cands|), if known then own else Hi(sets, cands, key, |cands|))
  }

  function InColumns(p: Price, r: Req, tokens: int): real {
    Part(p, r, tokens, ReadColumn) + Part(p, r, tokens, WriteColumn) + Part(p, r, tokens, InputColumn)
  }

  // What a line adds to a key's figures.
  ghost predicate Adds(c: Carried, after: Carried, r: Req, line: Line) {
    if line.Blank? then after == c
    else
      && after.requests == c.requests + (if line.carries then 1 else 0)
      && after.tokenReads == c.tokenReads + line.own
      && (after.unpriced <==> c.unpriced || (line.carries && line.price.None?))
      && (if line.price.None? then after.read == c.read && after.write == c.write && after.input == c.input
                                   && after.low == c.low && after.high == c.high
          else
            && after.read == c.read + Part(line.price.value, r, line.own, ReadColumn)
            && after.write == c.write + Part(line.price.value, r, line.own, WriteColumn)
            && after.input == c.input + Part(line.price.value, r, line.own, InputColumn)
            && after.low == c.low + InColumns(line.price.value, r, line.least)
            && after.high == c.high + InColumns(line.price.value, r, line.most))
  }

  lemma {:induction false} RateIsColumns(p: Price, r: Req, tokens: int)
    ensures Cost(tokens, RateOf(p, r)) == InColumns(p, r, tokens)
    ensures tokens == 0 ==> Cost(tokens, RateOf(p, r)) == 0.0
  {
  }

  lemma {:induction false} NoneCarries(sets: Sets, cands: seq<string>, key: nat, n: nat)
    requires n <= |cands| && !AnyCarries(sets, cands, key)
    ensures Hi(sets, cands, key, n) == 0
  {
    if n > 0 {
      NoneCarries(sets, cands, key, n - 1);
      if cands[n - 1] in sets { CarriesOrNothing(sets[cands[n - 1]].items, key); }
    }
  }

  lemma {:induction false} NoneWeighs(sets: Sets, cands: seq<string>, key: nat)
    requires !AnyCarries(sets, cands, key) && cands != []
    ensures Lo(sets, cands, key, |cands|) == 0 && Hi(sets, cands, key, |cands|) == 0
  {
    NoneCarries(sets, cands, key, |cands|);
    Between(sets, cands, key, |cands|, 0);
    var i := LoAttained(sets, cands, key, |cands|);
    WeightSome(sets, cands, i, key);
  }

  lemma {:induction false} ShareAddsLine(c: Carried, r: Req, own: int, p: Option<Price>, many: bool)
    ensures var after := Shared(c, r, own, p, many);
      && after.requests == c.requests + 1 && after.tokenReads == c.tokenReads + own
      && (after.unpriced <==> c.unpriced || p.None?)
      && (p.None? ==> after == c.(requests := after.requests, tokenReads := after.tokenReads, unpriced := true))
      && (p.Some? ==>
        && after.read == c.read + Part(p.value, r, own, ReadColumn)
        && after.write == c.write + Part(p.value, r, own, WriteColumn)
        && after.input == c.input + Part(p.value, r, own, InputColumn)
        && after.low == c.low + (if many then 0.0 else InColumns(p.value, r, own))
        && after.high == c.high + (if many then 0.0 else InColumns(p.value, r, own)))
  {
    if p.Some? { RateIsColumns(p.value, r, own); }
  }

  lemma {:induction false} ChargeAddsLine(sets: Sets, cands: seq<string>, c: Carried, r: Req, p: Option<Price>, dg: string, key: nat)
    requires dg in sets
    ensures var own, many := Weigh(sets[dg].items, key), |cands| >= 2;
      Adds(c, Charged(c, r, p, OwnOf(sets, dg, key), BoundOf(sets, cands, key), many), r,
           Line(Carries(sets[dg].items, key), own, p,
                if many then Lo(sets, cands, key, |cands|) else own, if many then Hi(sets, cands, key, |cands|) else own))
  {
    var own, many := Weigh(sets[dg].items, key), |cands| >= 2;
    CarriesOrNothing(sets[dg].items, key);
    ShareAddsLine(c, r, own, p, many);
    if p.Some? {
      RateIsColumns(p.value, r, own);
      if many {
        RateIsColumns(p.value, r, Lo(sets, cands, key, |cands|));
        RateIsColumns(p.value, r, Hi(sets, cands, key, |cands|));
        if !AnyCarries(sets, cands, key) { NoneWeighs(sets, cands, key); }
      }
    }
  }

  // One request adds its line and nothing else.
  lemma {:induction false} RequestAddsLine(sets: Sets, byCount: ByCount, price: string -> Option<Price>, c: Carried, r: Req, key: nat)
    requires forall i :: 0 <= i < |CandsFor(sets, byCount, r)| ==> CandsFor(sets, byCount, r)[i] in sets
    ensures Adds(c, AfterReq(sets, byCount, price, c, r, key), r, LineOf(sets, byCount, price, r, key))
  {
    var dg, cands := Chosen(sets, byCount, r), CandsFor(sets, byCount, r);
    if dg.Some? && r.complete { ChargeAddsLine(sets, cands, c, r, PriceFor(price, r), dg.value, key); }
  }

  // ---- The whole bill ------------------------------------------------------------------------------------------------

  datatype Totals = Totals(read: real, write: real, input: real, low: real, high: real, tokenReads: int, requests: nat, unpriced: bool)

  // The columns, bounds and counts of the first n requests, summed line by line.
  ghost function BillOf(sets: Sets, byCount: ByCount, price: string -> Option<Price>, list: seq<Req>, key: nat, n: nat): Totals
    requires Grouped(sets, byCount) && n <= |list|
  {
    if n == 0 then Totals(0.0, 0.0, 0.0, 0.0, 0.0, 0, 0, false)
    else
      var t, r := BillOf(sets, byCount, price, list, key, n - 1), list[n - 1];
      assert forall i :: 0 <= i < |CandsFor(sets, byCount, r)| ==> CandsFor(sets, byCount, r)[i] in sets by {
        forall i | 0 <= i < |CandsFor(sets, byCount, r)| ensures CandsFor(sets, byCount, r)[i] in sets { GroupedCands(sets, byCount, r, i); }
      }
      var line := LineOf(sets, byCount, price, r, key);
      if line.Blank? then t
      else
        var counted := t.(tokenReads := t.tokenReads + line.own, requests := t.requests + (if line.carries then 1 else 0));
        if line.price.None? then counted.(unpriced := t.unpriced || line.carries)
        else
          var p := line.price.value;
          counted.(read := t.read + Part(p, r, line.own, ReadColumn), write := t.write + Part(p, r, line.own, WriteColumn),
                   input := t.input + Part(p, r, line.own, InputColumn),
                   low := t.low + InColumns(p, r, line.least), high := t.high + InColumns(p, r, line.most))
  }

  // The figures are those before the session and the session's bill.
  ghost predicate IsBill(c: Carried, t: Totals, after: Carried) {
    && after.read == c.read + t.read && after.write == c.write + t.write && after.input == c.input + t.input
    && after.low == c.low + t.low && after.high == c.high + t.high
    && after.tokenReads == c.tokenReads + t.tokenReads && after.requests == c.requests + t.requests
    && (after.unpriced <==> c.unpriced || t.unpriced)
  }

  /**
   * A session's requests add to each key exactly its bill: the read column over the requests that read the
   * cache, the write column in the tier they wrote, the input column over the rest, and no request without
   * complete accounting, a set or a price.
   */
  lemma {:induction false} FiguresAreTheBill(sets: Sets, byCount: ByCount, price: string -> Option<Price>, c: Carried, list: seq<Req>, key: nat, n: nat)
    requires Grouped(sets, byCount) && n <= |list|
    ensures IsBill(c, BillOf(sets, byCount, price, list, key, n), AfterReqs(sets, byCount, price, c, list, key, n))
  {
    if n > 0 {
      FiguresAreTheBill(sets, byCount, price, c, list, key, n - 1);
      var r := list[n - 1];
      forall i | 0 <= i < |CandsFor(sets, byCount, r)| ensures CandsFor(sets, byCount, r)[i] in sets { GroupedCands(sets, byCount, r, i); }
      RequestAddsLine(sets, byCount, price, AfterReqs(sets, byCount, price, c, list, key, n - 1), r, key);
    }
  }
}
