/**
 * What each declared tool cost on the requests that carried it (priceCarriedSession and
 * adaptToolsPick in dash/adapttools.go): the reported bounds bracket the figure.
 */
module CarriedPrice {
  import opened Lists
  import opened CarriedSets
  import opened Prices

  // complete: the request's token accounting is.
  datatype Req = Req(ts: nat, model: string, complete: bool, digest: string, tools: nat,
                     cacheRead: nat, cacheWrite: nat, cacheWrite1h: nat)

  type Sets = map<string, DeclSet>

  // One key's figures so far.
  datatype Carried = Carried(read: real, write: real, input: real, low: real, high: real,
                             tokenReads: int, requests: nat, unpriced: bool)

  const NOTHING := Carried(0.0, 0.0, 0.0, 0.0, 0.0, 0, 0, false)

  function Usd(c: Carried): real {
    c.read + c.write + c.input
  }

  function RateOf(p: Price, r: Req): real {
    if r.cacheRead > 0 then p.cacheRead
    else if r.cacheWrite > 0 then (if r.cacheWrite1h > 0 then p.cacheWrite1h else p.cacheWrite)
    else p.input
  }

  // ---- The set a request carried ------------------------------------------------------------------------------------

  ghost predicate Sorted(sets: Sets, cands: seq<string>) {
    && (forall i :: 0 <= i < |cands| ==> cands[i] in sets)
    && (forall i, j :: 0 <= i < j < |cands| ==> sets[cands[i]].first <= sets[cands[j]].first)
  }

  // adaptToolsPick's loop over the first n candidates.
  function PickIn(sets: Sets, cands: seq<string>, ts: nat, n: nat): (k: nat)
    requires 0 < n <= |cands| && forall i :: 0 <= i < |cands| ==> cands[i] in sets
    ensures k < n
  {
    if n == 1 then 0 else if sets[cands[n - 1]].first <= ts then n - 1 else PickIn(sets, cands, ts, n - 1)
  }

  method Pick(sets: Sets, cands: seq<string>, ts: nat) returns (best: Option<string>)
    requires forall i :: 0 <= i < |cands| ==> cands[i] in sets
    ensures best == if cands == [] then None else Some(cands[PickIn(sets, cands, ts, |cands|)])
  {
    if cands == [] { return None; }
    var k := 0;
    for i := 1 to |cands|
      invariant k == PickIn(sets, cands, ts, i)
    {
      if sets[cands[i]].first <= ts { k := i; }
    }
    return Some(cands[k]);
  }

  // The latest set first seen at or before the request, else the earliest.
  lemma {:induction false} PickIsLatest(sets: Sets, cands: seq<string>, ts: nat, n: nat, i: nat)
    requires Sorted(sets, cands) && i < n <= |cands|
    ensures var best := sets[cands[PickIn(sets, cands, ts, n)]].first;
      if sets[cands[0]].first <= ts then best <= ts && (sets[cands[i]].first <= ts ==> sets[cands[i]].first <= best)
      else best <= sets[cands[i]].first
  {
    if i < n - 1 {
      PickIsLatest(sets, cands, ts, n - 1, i);
    } else if n > 1 {
      PickIsLatest(sets, cands, ts, n - 1, 0);
    }
  }

  // ---- The bounds over the candidates ---------------------------------------------------------------------------------

  predicate AnyCarries(sets: Sets, cands: seq<string>, key: nat) {
    exists i :: 0 <= i < |cands| && cands[i] in sets && Carries(sets[cands[i]].items, key)
  }

  function WeightAt(sets: Sets, cands: seq<string>, i: nat, key: nat): int
    requires i < |cands|
  {
    if cands[i] in sets then Weigh(sets[cands[i]].items, key) else 0
  }

  function Hi(sets: Sets, cands: seq<string>, key: nat, n: nat): int
    requires n <= |cands|
  {
    if n == 0 then 0
    else
      var h, w := Hi(sets, cands, key, n - 1), WeightAt(sets, cands, n - 1, key);
      if w > h then w else h
  }

  function Lo(sets: Sets, cands: seq<string>, key: nat, n: nat): int
    requires n <= |cands|
  {
    if n == 0 then Hi(sets, cands, key, |cands|)
    else
      var l, w := Lo(sets, cands, key, n - 1), WeightAt(sets, cands, n - 1, key);
      if w < l then w else l
  }

  lemma {:induction false} Between(sets: Sets, cands: seq<string>, key: nat, n: nat, i: nat)
    requires i < n <= |cands|
    ensures Lo(sets, cands, key, n) <= WeightAt(sets, cands, i, key) <= Hi(sets, cands, key, n)
  {
    if i < n - 1 { Between(sets, cands, key, n - 1, i); }
  }

  // Both bounds are what some candidate weighs.
  lemma {:induction false} HiAttained(sets: Sets, cands: seq<string>, key: nat, n: nat) returns (i: nat)
    requires 0 < n <= |cands|
    ensures i < n && WeightAt(sets, cands, i, key) == Hi(sets, cands, key, n)
  {
    WeightSome(sets, cands, n - 1, key);
    if n == 1 {
      i := 0;
    } else {
      i := HiAttained(sets, cands, key, n - 1);
      if WeightAt(sets, cands, n - 1, key) > Hi(sets, cands, key, n - 1) { i := n - 1; }
    }
  }

  lemma {:induction false} LoAttained(sets: Sets, cands: seq<string>, key: nat, n: nat) returns (i: nat)
    requires n <= |cands| && cands != []
    ensures i < |cands| && WeightAt(sets, cands, i, key) == Lo(sets, cands, key, n)
  {
    if n == 0 {
      i := HiAttained(sets, cands, key, |cands|);
    } else {
      i := LoAttained(sets, cands, key, n - 1);
      if WeightAt(sets, cands, n - 1, key) < Lo(sets, cands, key, n - 1) { i := n - 1; }
    }
  }

  lemma {:induction false} WeightSome(sets: Sets, cands: seq<string>, i: nat, key: nat)
    requires i < |cands|
    ensures WeightAt(sets, cands, i, key) >= 0
  {
    if cands[i] in sets { CarriesOrNothing(sets[cands[i]].items, key); }
  }

  lemma {:induction false} WeighsSome(items: seq<Item>, key: nat, n: nat)
    requires n <= |items|
    ensures SumOf(IdTokens(key), items, n) >= 0
  {
    if n > 0 { WeighsSome(items, key, n - 1); }
  }

  lemma {:induction false} CarriesOrNothing(items: seq<Item>, key: nat)
    ensures Weigh(items, key) >= 0 && (!Carries(items, key) ==> Weigh(items, key) == 0)
  {
    WeighsSome(items, key, |items|);
    if !Carries(items, key) {
      forall i | 0 <= i < |items| ensures IdTokens(key)(items[i]) == 0 {
      }
      TotalZero(IdTokens(key), items, |items|);
    }
  }

  // The bounds per key, over the candidates' summed sets.
  method BoundsFor(sets: Sets, sums: map<string, map<nat, (int, int)>>, cands: seq<string>) returns (b: map<nat, (int, int)>)
    requires SumsOf(sets, sums) && forall i :: 0 <= i < |cands| ==> cands[i] in sets
    ensures forall key: nat :: key in b <==> AnyCarries(sets, cands, key)
    ensures forall key: nat :: key in b ==> b[key] == (Lo(sets, cands, key, |cands|), Hi(sets, cands, key, |cands|))
  {
    var tops := Tops(sets, sums, cands);
    b := map[];
    var left := tops.Keys;
    while left != {}
      invariant left <= tops.Keys && b.Keys == tops.Keys - left
      invariant forall key: nat :: key in b ==> b[key] == (Lo(sets, cands, key, |cands|), Hi(sets, cands, key, |cands|))
    {
      var key :| key in left;
      var lo := tops[key];
      for i := 0 to |cands|
        invariant lo == Lo(sets, cands, key, i)
      {
        var m := sums[cands[i]];
        SumsAt(sets, sums, cands[i], key);
        var w := if key in m then m[key].0 else 0;
        if w < lo { lo := w; }
      }
      b := b[key := (lo, tops[key])];
      left := left - {key};
    }
  }

  // Each set's fold by key.
  ghost predicate SumsOf(sets: Sets, sums: map<string, map<nat, (int, int)>>) {
    sums.Keys == sets.Keys && forall dg, key: nat :: dg in sets ==> SumAt(sets[dg].items, sums[dg], key)
  }

  ghost predicate SumAt(items: seq<Item>, m: map<nat, (int, int)>, key: nat) {
    (key in m <==> Carries(items, key)) && (key in m ==> m[key].0 == Weigh(items, key))
  }

  lemma {:induction false} SumsAt(sets: Sets, sums: map<string, map<nat, (int, int)>>, dg: string, key: nat)
    requires SumsOf(sets, sums) && dg in sets
    ensures dg in sums && (key in sums[dg] <==> Carries(sets[dg].items, key))
    ensures Weigh(sets[dg].items, key) == if key in sums[dg] then sums[dg][key].0 else 0
  {
    assert SumAt(sets[dg].items, sums[dg], key);
    CarriesOrNothing(sets[dg].items, key);
  }

  method Tops(sets: Sets, sums: map<string, map<nat, (int, int)>>, cands: seq<string>) returns (b: map<nat, int>)
    requires SumsOf(sets, sums) && forall i :: 0 <= i < |cands| ==> cands[i] in sets
    ensures forall key: nat :: key in b <==> AnyCarries(sets, cands, key)
    ensures forall key: nat :: key in b ==> b[key] == Hi(sets, cands, key, |cands|)
  {
    b := map[];
    for i := 0 to |cands|
      invariant forall key: nat :: key in b <==> exists j :: 0 <= j < i && Carries(sets[cands[j]].items, key)
      invariant forall key: nat :: (if key in b then b[key] else 0) == Hi(sets, cands, key, i)
    {
      ghost var before := b;
      b := Raise(b, sums[cands[i]]);
      forall key: nat
        ensures key in b <==> exists j :: 0 <= j < i + 1 && Carries(sets[cands[j]].items, key)
        ensures (if key in b then b[key] else 0) == Hi(sets, cands, key, i + 1)
      {
        SumsAt(sets, sums, cands[i], key);
        CarriesOrNothing(sets[cands[i]].items, key);
        HiIsSome(sets, cands, key, i);
      }
    }
  }

  lemma {:induction false} HiIsSome(sets: Sets, cands: seq<string>, key: nat, n: nat)
    requires n <= |cands|
    ensures Hi(sets, cands, key, n) >= 0
  {
    if n > 0 { HiIsSome(sets, cands, key, n - 1); }
  }

  method Raise(b: map<nat, int>, m: map<nat, (int, int)>) returns (out: map<nat, int>)
    ensures out.Keys == b.Keys + m.Keys
    ensures forall key :: key in out ==> out[key] == Top(b, m, key)
  {
    out := b;
    var left := m.Keys;
    while left != {}
      invariant left <= m.Keys && out.Keys == b.Keys + (m.Keys - left)
      invariant forall key :: key in out ==> out[key] == if key in left then b[key] else Top(b, m, key)
    {
      var key :| key in left;
      var x := if key in out then out[key] else 0;
      out := out[key := if m[key].0 > x then m[key].0 else x];
      left := left - {key};
    }
  }

  function Top(b: map<nat, int>, m: map<nat, (int, int)>, key: nat): int {
    var x := if key in b then b[key] else 0;
    if key in m && m[key].0 > x then m[key].0 else x
  }

  // ---- What one request adds ---------------------------------------------------------------------------------------

  type ByCount = map<nat, seq<string>>

  function CandsAt(byCount: ByCount, n: nat): seq<string> {
    if n in byCount then byCount[n] else []
  }

  ghost predicate Distinct(cands: seq<string>) {
    forall i, j :: 0 <= i < j < |cands| ==> cands[i] != cands[j]
  }

  // Each count lists exactly the sets of that many tools, each once, the earliest first.
  ghost predicate GroupRight(sets: Sets, cands: seq<string>, n: nat) {
    Sorted(sets, cands) && Distinct(cands) && forall dg :: dg in cands <==> dg in sets && sets[dg].ntools == n
  }

  ghost predicate Grouped(sets: Sets, byCount: ByCount) {
    forall n: nat :: GroupRight(sets, CandsAt(byCount, n), n)
  }

  // The same-count sets a request without a recorded digest could have carried.
  function CandsFor(sets: Sets, byCount: ByCount, r: Req): seq<string> {
    if r.digest in sets then [] else CandsAt(byCount, r.tools)
  }

  function Chosen(sets: Sets, byCount: ByCount, r: Req): (dg: Option<string>)
    requires forall i :: 0 <= i < |CandsFor(sets, byCount, r)| ==> CandsFor(sets, byCount, r)[i] in sets
    ensures dg.Some? ==> dg.value in sets
    ensures r.digest !in sets && dg.Some? ==> dg.value in CandsFor(sets, byCount, r)
  {
    var cands := CandsFor(sets, byCount, r);
    if r.digest in sets then Some(r.digest)
    else if cands == [] then None
    else Some(cands[PickIn(sets, cands, r.ts, |cands|)])
  }

  // The key's own share: w tokens at the rate, in the column its tier bills; with one candidate, in the bounds too.
  function Shared(c: Carried, r: Req, w: int, p: Option<Price>, many: bool): Carried {
    var base := c.(requests := c.requests + 1, tokenReads := c.tokenReads + w);
    if p.None? then base.(unpriced := true)
    else
      var x := Cost(w, RateOf(p.value, r));
      var paid := if r.cacheRead > 0 then base.(read := base.read + x)
                  else if r.cacheWrite > 0 then base.(write := base.write + x)
                  else base.(input := base.input + x);
      if many then paid else paid.(low := paid.low + x, high := paid.high + x)
  }

  function Widened(c: Carried, low: real, high: real): Carried {
    c.(low := c.low + low, high := c.high + high)
  }

  function Charged(c: Carried, r: Req, p: Option<Price>, own: Option<int>, bound: Option<(int, int)>, many: bool): Carried {
    var mine := if own.Some? then Shared(c, r, own.value, p, many) else c;
    if p.Some? && many && bound.Some? then Widened(mine, Cost(bound.value.0, RateOf(p.value, r)), Cost(bound.value.1, RateOf(p.value, r))) else mine
  }

  function OwnOf(sets: Sets, dg: string, key: nat): Option<int> {
    if dg in sets && Carries(sets[dg].items, key) then Some(Weigh(sets[dg].items, key)) else None
  }

  function BoundOf(sets: Sets, cands: seq<string>, key: nat): Option<(int, int)> {
    if AnyCarries(sets, cands, key) then Some((Lo(sets, cands, key, |cands|), Hi(sets, cands, key, |cands|))) else None
  }

  function PriceFor(price: string -> Option<Price>, r: Req): Option<Price> {
    if r.model == "" then None else price(r.model)
  }

  function AfterReq(sets: Sets, byCount: ByCount, price: string -> Option<Price>, c: Carried, r: Req, key: nat): Carried
    requires forall i :: 0 <= i < |CandsFor(sets, byCount, r)| ==> CandsFor(sets, byCount, r)[i] in sets
  {
    var cands, dg := CandsFor(sets, byCount, r), Chosen(sets, byCount, r);
    if dg.None? || !r.complete then c
    else Charged(c, r, PriceFor(price, r), OwnOf(sets, dg.value, key), BoundOf(sets, cands, key), |cands| >= 2)
  }

  lemma {:induction false} GroupedCands(sets: Sets, byCount: ByCount, r: Req, i: nat)
    requires Grouped(sets, byCount) && i < |CandsFor(sets, byCount, r)|
    ensures CandsFor(sets, byCount, r)[i] in sets
  {
    assert GroupRight(sets, CandsAt(byCount, r.tools), r.tools);
  }

  ghost function AfterReqs(sets: Sets, byCount: ByCount, price: string -> Option<Price>, c: Carried, list: seq<Req>, key: nat, n: nat): Carried
    requires Grouped(sets, byCount) && n <= |list|
  {
    if n == 0 then c
    else
      var r := list[n - 1];
      assert forall i :: 0 <= i < |CandsFor(sets, byCount, r)| ==> CandsFor(sets, byCount, r)[i] in sets by {
        forall i | 0 <= i < |CandsFor(sets, byCount, r)| ensures CandsFor(sets, byCount, r)[i] in sets { GroupedCands(sets, byCount, r, i); }
      }
      AfterReq(sets, byCount, price, AfterReqs(sets, byCount, price, c, list, key, n - 1), r, key)
  }

  // ---- The bounds bracket the figure ----------------------------------------------------------------------------------

  predicate Bracketed(c: Carried) {
    c.low <= Usd(c) <= c.high
  }

  predicate Exact(c: Carried) {
    c.low == Usd(c) == c.high
  }

  ghost predicate FairPrices(price: string -> Option<Price>) {
    forall model :: price(model).Some? ==> NonNegative(price(model).value)
  }

  lemma {:induction false} ShareAdds(c: Carried, r: Req, w: int, p: Option<Price>, many: bool)
    ensures var x, after := if p.Some? then Cost(w, RateOf(p.value, r)) else 0.0, Shared(c, r, w, p, many);
      && Usd(after) == Usd(c) + x
      && after.low == (if many then c.low else c.low + x) && after.high == (if many then c.high else c.high + x)
  {
  }

  lemma {:induction false} WidenBrackets(c: Carried, after: Carried, x: real, low: real, high: real)
    requires Bracketed(c) && Usd(after) == Usd(c) + x && after.low == c.low && after.high == c.high && low <= x <= high
    ensures Bracketed(Widened(after, low, high))
  {
  }

  // What a request adds to the figure lies between what it adds to the bounds.
  lemma {:induction false} ChargeBrackets(c: Carried, r: Req, p: Option<Price>, own: Option<int>, bound: Option<(int, int)>, many: bool)
    requires Bracketed(c) && (p.Some? ==> NonNegative(p.value))
    requires own.Some? && many ==> bound.Some? && bound.value.0 <= own.value <= bound.value.1
    requires own.None? && many && bound.Some? ==> bound.value.0 <= 0 <= bound.value.1
    ensures Bracketed(Charged(c, r, p, own, bound, many))
    ensures Exact(c) && (!many || p.None?) ==> Exact(Charged(c, r, p, own, bound, many))
  {
    if own.Some? { ShareAdds(c, r, own.value, p, many); }
    if p.Some? && many && bound.Some? {
      var rate := RateOf(p.value, r);
      var w := if own.Some? then own.value else 0;
      CostGrows(bound.value.0, w, rate);
      CostGrows(w, bound.value.1, rate);
      var mine := if own.Some? then Shared(c, r, own.value, p, many) else c;
      WidenBrackets(c, mine, Cost(w, rate), Cost(bound.value.0, rate), Cost(bound.value.1, rate));
    }
  }

  lemma {:induction false} ReqBrackets(sets: Sets, byCount: ByCount, price: string -> Option<Price>, c: Carried, r: Req, key: nat)
    requires Grouped(sets, byCount) && FairPrices(price) && Bracketed(c)
    requires forall i :: 0 <= i < |CandsFor(sets, byCount, r)| ==> CandsFor(sets, byCount, r)[i] in sets
    ensures Bracketed(AfterReq(sets, byCount, price, c, r, key))
    ensures Exact(c) && !Guessed(sets, byCount, price, r) ==> Exact(AfterReq(sets, byCount, price, c, r, key))
  {
    var cands, dg := CandsFor(sets, byCount, r), Chosen(sets, byCount, r);
    if dg.Some? && r.complete {
      CarriesOrNothing(sets[dg.value].items, key);
      if |cands| >= 2 {
        var i :| 0 <= i < |cands| && cands[i] == dg.value;
        Between(sets, cands, key, |cands|, i);
      }
      ChargeBrackets(c, r, PriceFor(price, r), OwnOf(sets, dg.value, key), BoundOf(sets, cands, key), |cands| >= 2);
    }
  }

  // A priced request that could have carried any of several same-count sets.
  predicate Guessed(sets: Sets, byCount: ByCount, price: string -> Option<Price>, r: Req) {
    r.complete && PriceFor(price, r).Some? && |CandsFor(sets, byCount, r)| >= 2
  }

  /**
   * For every session history and every key, USDLow <= USD <= USDHigh, and they are equal where no priced
   * request had two candidate sets.
   */
  lemma {:induction false} BoundsBracket(sets: Sets, byCount: ByCount, price: string -> Option<Price>, c: Carried, list: seq<Req>, key: nat, n: nat)
    requires Grouped(sets, byCount) && FairPrices(price) && Bracketed(c) && n <= |list|
    ensures Bracketed(AfterReqs(sets, byCount, price, c, list, key, n))
    ensures Exact(c) && (forall i :: 0 <= i < n ==> !Guessed(sets, byCount, price, list[i])) ==>
      Exact(AfterReqs(sets, byCount, price, c, list, key, n))
  {
    if n > 0 {
      BoundsBracket(sets, byCount, price, c, list, key, n - 1);
      var r := list[n - 1];
      forall i | 0 <= i < |CandsFor(sets, byCount, r)| ensures CandsFor(sets, byCount, r)[i] in sets { GroupedCands(sets, byCount, r, i); }
      ReqBrackets(sets, byCount, price, AfterReqs(sets, byCount, price, c, list, key, n - 1), r, key);
    }
  }
}
