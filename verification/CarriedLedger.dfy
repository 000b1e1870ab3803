/**
 * The pricing loops themselves (priceCarriedSession in dash/adapttools.go): one session after another
 * is added to the same ledger, and every key's bounds keep bracketing its figure.
 */
module CarriedLedger {
  import opened Lists
  import opened CarriedSets
  import opened CarriedPrice
  import opened CarriedBill
  import opened Prices

  type Sums = map<string, map<nat, (int, int)>>

  method SumAll(sets: Sets) returns (sums: Sums)
    ensures SumsOf(sets, sums)
  {
    sums := map[];
    var left := sets.Keys;
    while left != {}
      invariant left <= sets.Keys && sums.Keys == sets.Keys - left
      invariant forall dg, key: nat :: dg in sums ==> SumAt(sets[dg].items, sums[dg], key)
    {
      var dg :| dg in left;
      var m := Sum(sets[dg]);
      sums := sums[dg := m];
      left := left - {dg};
    }
  }

  // ---- Candidates by tool count ---------------------------------------------------------------------------------------

  lemma {:induction false} InsertKeepsOrder(sets: Sets, sorted: seq<string>, k: nat, dg: string)
    requires Sorted(sets, sorted) && k <= |sorted| && dg in sets
    requires forall i :: 0 <= i < k ==> sets[sorted[i]].first <= sets[dg].first
    requires forall i :: k <= i < |sorted| ==> sets[dg].first <= sets[sorted[i]].first
    requires Distinct(sorted) && dg !in sorted
    ensures Sorted(sets, sorted[..k] + [dg] + sorted[k..]) && Distinct(sorted[..k] + [dg] + sorted[k..])
  {
    var out := sorted[..k] + [dg] + sorted[k..];
    forall i, j | 0 <= i < j < |out| ensures sets[out[i]].first <= sets[out[j]].first && out[i] != out[j] {
      assert out[i] == if i < k then sorted[i] else if i == k then dg else sorted[i - 1];
      assert out[j] == if j < k then sorted[j] else if j == k then dg else sorted[j - 1];
    }
  }

  method SortByFirst(sets: Sets, ds: seq<string>) returns (out: seq<string>)
    requires Distinct(ds) && forall i :: 0 <= i < |ds| ==> ds[i] in sets
    ensures Sorted(sets, out) && Distinct(out) && forall dg :: dg in out <==> dg in ds
  {
    out := [];
    for i := 0 to |ds|
      invariant Sorted(sets, out) && Distinct(out) && forall dg :: dg in out <==> dg in ds[..i]
    {
      assert ds[i] !in ds[..i];
      var k := |out|;
      while k > 0 && sets[out[k - 1]].first > sets[ds[i]].first
        invariant 0 <= k <= |out|
        invariant forall j :: k <= j < |out| ==> sets[ds[i]].first <= sets[out[j]].first
      {
        k := k - 1;
      }
      InsertKeepsOrder(sets, out, k, ds[i]);
      InsertHas(out, k, ds, i);
      out := out[..k] + [ds[i]] + out[k..];
    }
    assert ds[..|ds|] == ds;
  }

  lemma {:induction false} InsertHas(sorted: seq<string>, k: nat, ds: seq<string>, i: nat)
    requires k <= |sorted| && i < |ds| && forall dg :: dg in sorted <==> dg in ds[..i]
    ensures forall dg :: dg in sorted[..k] + [ds[i]] + sorted[k..] <==> dg in ds[..i + 1]
  {
    assert sorted == sorted[..k] + sorted[k..];
    assert ds[..i + 1] == ds[..i] + [ds[i]];
  }

  ghost predicate Holds(sets: Sets, byCount: ByCount, done: set<string>, n: nat) {
    Distinct(CandsAt(byCount, n)) && forall dg :: dg in CandsAt(byCount, n) <==> dg in done && dg in sets && sets[dg].ntools == n
  }

  method Collect(sets: Sets) returns (byCount: ByCount)
    ensures forall n: nat :: Holds(sets, byCount, sets.Keys, n)
  {
    byCount := map[];
    var left := sets.Keys;
    while left != {}
      invariant left <= sets.Keys && forall n: nat :: Holds(sets, byCount, sets.Keys - left, n)
    {
      var dg :| dg in left;
      var k := sets[dg].ntools;
      ghost var before, waiting := byCount, left;
      byCount := byCount[k := CandsAt(byCount, k) + [dg]];
      left := left - {dg};
      forall n: nat ensures Holds(sets, byCount, sets.Keys - left, n) { assert Holds(sets, before, sets.Keys - waiting, n); }
    }
    assert sets.Keys - left == sets.Keys;
  }

  method GroupByCount(sets: Sets) returns (byCount: ByCount)
    ensures Grouped(sets, byCount)
  {
    var listed := Collect(sets);
    byCount := map[];
    var left := listed.Keys;
    while left != {}
      invariant left <= listed.Keys && byCount.Keys == listed.Keys - left
      invariant forall n: nat :: n in byCount ==> GroupRight(sets, byCount[n], n)
    {
      var n :| n in left;
      assert Holds(sets, listed, sets.Keys, n);
      var cands := SortByFirst(sets, listed[n]);
      byCount := byCount[n := cands];
      left := left - {n};
    }
    forall n: nat ensures GroupRight(sets, CandsAt(byCount, n), n) { assert Holds(sets, listed, sets.Keys, n); }
  }

  // ---- One request ------------------------------------------------------------------------------------------------------

  type Ids = map<nat, Carried>

  function OwnIn(m: map<nat, (int, int)>, key: nat): Option<int> {
    if key in m then Some(m[key].0) else None
  }

  function BoundIn(b: map<nat, (int, int)>, key: nat): Option<(int, int)> {
    if key in b then Some(b[key]) else None
  }

  // The loop over the chosen set's keys.
  method Share(byID: Ids, r: Req, m: map<nat, (int, int)>, p: Option<Price>, many: bool) returns (out: Ids)
    requires m.Keys <= byID.Keys
    ensures out.Keys == byID.Keys
    ensures forall key :: key in byID ==> out[key] == if key in m then Shared(byID[key], r, m[key].0, p, many) else byID[key]
  {
    out := byID;
    var left := m.Keys;
    while left != {}
      invariant left <= m.Keys && out.Keys == byID.Keys
      invariant forall key :: key in byID ==>
        out[key] == if key in m && key !in left then Shared(byID[key], r, m[key].0, p, many) else byID[key]
    {
      var key :| key in left;
      out := out[key := Shared(out[key], r, m[key].0, p, many)];
      left := left - {key};
    }
  }

  // The loop over the candidates' bounds.
  method Widen(byID: Ids, b: map<nat, (int, int)>, rate: real) returns (out: Ids)
    requires b.Keys <= byID.Keys
    ensures out.Keys == byID.Keys
    ensures forall key :: key in byID ==>
      out[key] == if key in b then Widened(byID[key], Cost(b[key].0, rate), Cost(b[key].1, rate)) else byID[key]
  {
    out := byID;
    var left := b.Keys;
    while left != {}
      invariant left <= b.Keys && out.Keys == byID.Keys
      invariant forall key :: key in byID ==>
        out[key] == if key in b && key !in left then Widened(byID[key], Cost(b[key].0, rate), Cost(b[key].1, rate)) else byID[key]
    {
      var key :| key in left;
      out := out[key := Widened(out[key], Cost(b[key].0, rate), Cost(b[key].1, rate))];
      left := left - {key};
    }
  }

  method Charge(byID: Ids, r: Req, m: map<nat, (int, int)>, p: Option<Price>, b: map<nat, (int, int)>, many: bool) returns (out: Ids)
    requires m.Keys <= byID.Keys && b.Keys <= byID.Keys
    ensures out.Keys == byID.Keys
    ensures forall key :: key in byID ==> out[key] == Charged(byID[key], r, p, OwnIn(m, key), BoundIn(b, key), many)
  {
    out := Share(byID, r, m, p, many);
    if p.Some? && many { out := Widen(out, b, RateOf(p.value, r)); }
  }

  // ---- One session --------------------------------------------------------------------------------------------------------

  predicate SessionCarries(sets: Sets, key: nat) {
    exists dg :: dg in sets && Carries(sets[dg].items, key)
  }

  function StartOf(byID: Ids, key: nat): Carried {
    if key in byID then byID[key] else NOTHING
  }

  // Every key of the session's sets gets an entry.
  method Open(byID: Ids, sets: Sets, sums: Sums) returns (out: Ids)
    requires SumsOf(sets, sums)
    ensures forall key: nat :: key in out <==> key in byID || SessionCarries(sets, key)
    ensures forall key: nat :: key in out ==> out[key] == StartOf(byID, key)
  {
    out := byID;
    var left := sets.Keys;
    while left != {}
      invariant left <= sets.Keys
      invariant forall key: nat :: key in out <==> key in byID || exists dg :: dg in sets && dg !in left && Carries(sets[dg].items, key)
      invariant forall key: nat :: key in out ==> out[key] == StartOf(byID, key)
    {
      var dg :| dg in left;
      ghost var before := out;
      var m := sums[dg];
      out := map key | key in out.Keys + m.Keys :: StartOf(byID, key);
      forall key: nat ensures key in m <==> Carries(sets[dg].items, key) { SumsAt(sets, sums, dg, key); }
      left := left - {dg};
    }
  }

  ghost predicate BoundsRight(sets: Sets, cands: seq<string>, b: map<nat, (int, int)>) {
    && (forall key: nat :: key in b <==> AnyCarries(sets, cands, key))
    && (forall key: nat :: key in b ==> b[key] == (Lo(sets, cands, key, |cands|), Hi(sets, cands, key, |cands|)))
  }

  lemma {:induction false} SameCharge(sets: Sets, sums: Sums, dg: string, cands: seq<string>, b: map<nat, (int, int)>, c: Carried, r: Req, p: Option<Price>, many: bool, key: nat)
    requires SumsOf(sets, sums) && dg in sets && (many ==> BoundsRight(sets, cands, b))
    ensures dg in sums
    ensures Charged(c, r, p, OwnIn(sums[dg], key), BoundIn(b, key), many) == Charged(c, r, p, OwnOf(sets, dg, key), BoundOf(sets, cands, key), many)
  {
    SumsAt(sets, sums, dg, key);
  }

  type Cache = map<nat, map<nat, (int, int)>>

  ghost predicate CacheRight(sets: Sets, byCount: ByCount, cache: Cache) {
    forall n: nat :: n in cache ==> BoundsRight(sets, CandsAt(byCount, n), cache[n])
  }

  // The bounds of a tool count, worked out once.
  method BoundsOnce(sets: Sets, sums: Sums, byCount: ByCount, n: nat, cache: Cache) returns (b: map<nat, (int, int)>, after: Cache)
    requires SumsOf(sets, sums) && Grouped(sets, byCount) && CacheRight(sets, byCount, cache)
    ensures BoundsRight(sets, CandsAt(byCount, n), b) && CacheRight(sets, byCount, after)
  {
    if n in cache { return cache[n], cache; }
    assert GroupRight(sets, CandsAt(byCount, n), n);
    b := BoundsFor(sets, sums, CandsAt(byCount, n));
    after := cache[n := b];
  }

  ghost predicate Opened(byID: Ids, sets: Sets) {
    forall key: nat :: SessionCarries(sets, key) ==> key in byID
  }

  lemma {:induction false} KeysOpened(byID: Ids, sets: Sets, sums: Sums, dg: string, cands: seq<string>, b: map<nat, (int, int)>)
    requires Opened(byID, sets) && SumsOf(sets, sums) && dg in sets
    requires b == map[] || BoundsRight(sets, cands, b)
    ensures dg in sums && sums[dg].Keys <= byID.Keys && b.Keys <= byID.Keys
  {
    forall key | key in sums[dg] ensures key in byID {
      SumsAt(sets, sums, dg, key);
      assert SessionCarries(sets, key);
    }
    forall key | key in b ensures key in byID {
      var i :| 0 <= i < |cands| && cands[i] in sets && Carries(sets[cands[i]].items, key);
      assert SessionCarries(sets, key);
    }
  }

  // One request of the session.
  method PriceRequest(byID: Ids, sets: Sets, sums: Sums, byCount: ByCount, price: string -> Option<Price>, r: Req, cache: Cache)
    returns (out: Ids, after: Cache)
    requires SumsOf(sets, sums) && Grouped(sets, byCount) && Opened(byID, sets) && CacheRight(sets, byCount, cache)
    ensures CacheRight(sets, byCount, after) && out.Keys == byID.Keys
    ensures forall i :: 0 <= i < |CandsFor(sets, byCount, r)| ==> CandsFor(sets, byCount, r)[i] in sets
    ensures forall key :: key in byID ==> out[key] == AfterReq(sets, byCount, price, byID[key], r, key)
    ensures forall key :: key in byID ==> Adds(byID[key], out[key], r, LineOf(sets, byCount, price, r, key))
  {
    out, after := byID, cache;
    var cands := CandsFor(sets, byCount, r);
    forall i | 0 <= i < |cands| ensures cands[i] in sets { GroupedCands(sets, byCount, r, i); }
    var dg := if r.digest in sets then Some(r.digest) else None;
    if r.digest !in sets { dg := Pick(sets, cands, r.ts); }
    assert dg == Chosen(sets, byCount, r);
    forall key | key in byID ensures Adds(byID[key], AfterReq(sets, byCount, price, byID[key], r, key), r, LineOf(sets, byCount, price, r, key)) {
      RequestAddsLine(sets, byCount, price, byID[key], r, key);
    }
    if dg.None? || !r.complete { return; }
    var b: map<nat, (int, int)> := map[];
    if |cands| >= 2 { b, after := BoundsOnce(sets, sums, byCount, r.tools, cache); }
    out := ChargeChosen(byID, sets, sums, dg.value, cands, b, r, PriceFor(price, r));
  }

  method ChargeChosen(byID: Ids, sets: Sets, sums: Sums, dg: string, cands: seq<string>, b: map<nat, (int, int)>, r: Req, p: Option<Price>)
    returns (out: Ids)
    requires SumsOf(sets, sums) && Opened(byID, sets) && dg in sets
    requires if |cands| >= 2 then BoundsRight(sets, cands, b) else b == map[]
    ensures out.Keys == byID.Keys
    ensures forall key :: key in byID ==>
      out[key] == Charged(byID[key], r, p, OwnOf(sets, dg, key), BoundOf(sets, cands, key), |cands| >= 2)
  {
    KeysOpened(byID, sets, sums, dg, cands, b);
    out := Charge(byID, r, sums[dg], p, b, |cands| >= 2);
    forall key | key in byID
      ensures out[key] == Charged(byID[key], r, p, OwnOf(sets, dg, key), BoundOf(sets, cands, key), |cands| >= 2)
    {
      SameCharge(sets, sums, dg, cands, b, byID[key], r, p, |cands| >= 2, key);
    }
  }

  // What the ledger must show for a key after n of the session's requests.
  ghost predicate Billed(byID: Ids, before: Ids, sets: Sets, byCount: ByCount, price: string -> Option<Price>, list: seq<Req>, n: nat, key: nat)
    requires Grouped(sets, byCount) && n <= |list|
  {
    && (key in byID <==> key in before || SessionCarries(sets, key))
    && (key in byID ==> byID[key] == AfterReqs(sets, byCount, price, StartOf(before, key), list, key, n))
  }

  class Ledger {
    var byID: Ids

    constructor ()
      ensures byID == map[]
    {
      byID := map[];
    }

    method PriceSession(sets: Sets, list: seq<Req>, price: string -> Option<Price>) returns (byCount: ByCount)
      modifies this
      ensures Grouped(sets, byCount)
      ensures forall key: nat :: Billed(byID, old(byID), sets, byCount, price, list, |list|, key)
      ensures forall key: nat :: key in byID ==>
        IsBill(StartOf(old(byID), key), BillOf(sets, byCount, price, list, key, |list|), byID[key])
    {
      ghost var before := byID;
      var sums := SumAll(sets);
      byID := Open(byID, sets, sums);
      byCount := GroupByCount(sets);
      var cache: Cache := map[];
      for i := 0 to |list|
        invariant Grouped(sets, byCount) && SumsOf(sets, sums) && CacheRight(sets, byCount, cache)
        invariant forall key: nat :: Billed(byID, before, sets, byCount, price, list, i, key)
      {
        forall key: nat | SessionCarries(sets, key) ensures key in byID { assert Billed(byID, before, sets, byCount, price, list, i, key); }
        ghost var was := byID;
        byID, cache := PriceRequest(byID, sets, sums, byCount, price, list[i], cache);
        ghost var n := i + 1;
        forall key: nat ensures Billed(byID, before, sets, byCount, price, list, n, key) {
          assert Billed(was, before, sets, byCount, price, list, i, key);
        }
      }
      forall key: nat | key in byID ensures IsBill(StartOf(before, key), BillOf(sets, byCount, price, list, key, |list|), byID[key]) {
        assert Billed(byID, before, sets, byCount, price, list, |list|, key);
        FiguresAreTheBill(sets, byCount, price, StartOf(before, key), list, key, |list|);
      }
    }
  }

  ghost predicate AllBracketed(byID: Ids) {
    forall key :: key in byID ==> Bracketed(byID[key])
  }

  // Session after session, every key's bounds keep bracketing its figure.
  lemma {:induction false} LedgerStaysBracketed(before: Ids, byID: Ids, sets: Sets, byCount: ByCount, price: string -> Option<Price>, list: seq<Req>)
    requires Grouped(sets, byCount) && FairPrices(price) && AllBracketed(before)
    requires forall key: nat :: Billed(byID, before, sets, byCount, price, list, |list|, key)
    ensures AllBracketed(byID)
  {
    forall key | key in byID ensures Bracketed(byID[key]) {
      assert Billed(byID, before, sets, byCount, price, list, |list|, key);
      BoundsBracket(sets, byCount, price, StartOf(before, key), list, key, |list|);
    }
  }
}
