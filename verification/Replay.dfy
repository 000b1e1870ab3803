/**
 * Pricing an arm of the compaction search against what was sent (adaptRates, priceAdaptReq,
 * replaySession, adaptDeclUSD and eval in dash/adaptcompaction.go).
 */
module Replay {
  import opened Prices

  // A stored block: what identifies it, and the size it was sent at.
  datatype Block = Block(key: string, sent: int)

  // inWindow is false on a session's lead-in.
  datatype Req = Req(uncached: nat, read: nat, write: nat, write1h: nat, price: Price, factor: real,
                     blocks: seq<Block>, inWindow: bool)

  datatype Seen = Seen(got: int, sent: int)

  datatype Rates = Rates(tail: real, again: real, write: real)

  // adaptRates: again is the rate of a re-sent block.
  function RatesOf(r: Req): Rates {
    var p := r.price;
    var write := if r.write > 0 && r.write1h > 0 then
                   (if r.write1h >= r.write then p.cacheWrite1h
                    else Blend(r.write1h as real / r.write as real, p.cacheWrite, p.cacheWrite1h))
                 else p.cacheWrite;
    var again := if r.read > 0 then p.cacheRead
                 else if r.write > 0 && r.write >= r.uncached then write
                 else p.input;
    var tail := if r.write > 0 && r.write >= r.uncached then (if r.write1h >= r.write then p.cacheWrite1h else p.cacheWrite) else p.input;
    Rates(tail, again, write)
  }

  function Blend(f: real, short: real, long: real): real {
    (1.0 - f) * short + f * long
  }

  // Each rate is a tier the model bills, the write rate between its two.
  lemma {:induction false} RatesAreTiers(r: Req)
    ensures var p, q := r.price, RatesOf(r);
      && q.tail in {p.input, p.cacheWrite, p.cacheWrite1h}
      && q.again in {p.input, p.cacheRead, q.write}
      && (p.cacheWrite <= p.cacheWrite1h ==> p.cacheWrite <= q.write <= p.cacheWrite1h)
      && (r.read == 0 && r.write == 0 ==> q.tail == q.again == p.input)
      && (r.write1h == 0 ==> q.write == p.cacheWrite)
  {
    var p := r.price;
    if p.cacheWrite <= p.cacheWrite1h && r.write > 0 && 0 < r.write1h < r.write {
      var f := r.write1h as real / r.write as real;
      assert 0.0 <= f <= 1.0;
      BlendBetween(f, p.cacheWrite, p.cacheWrite1h);
    }
  }

  lemma {:induction false} BlendBetween(f: real, short: real, long: real)
    requires 0.0 <= f <= 1.0 && short <= long
    ensures short <= Blend(f, short, long) <= long
  {
    var d := long - short;
    assert Blend(f, short, long) == short + f * d;
    assert 0.0 <= f * d <= d;
  }

  // ---- One request ----------------------------------------------------------------------------------------------------

  datatype Walk = Walk(delta: real, seen: map<string, Seen>, changed: bool)

  function WalkBlocks(blocks: seq<Block>, sizes: seq<int>, seen: map<string, Seen>, rates: Rates, n: nat): Walk
    requires n <= |blocks| == |sizes|
  {
    if n == 0 then Walk(0.0, seen, false)
    else
      var w, b, got := WalkBlocks(blocks, sizes, seen, rates, n - 1), blocks[n - 1], sizes[n - 1];
      var rate := if b.key in w.seen then rates.again else rates.tail;
      var edited := b.key in w.seen && w.seen[b.key].got != got && w.seen[b.key].sent == b.sent;
      Walk(w.delta + Cost(got - b.sent, rate), w.seen[b.key := Seen(got, b.sent)], w.changed || edited)
  }

  // The declaration's part: the tail rate on a session's first request, the re-sent rate after.
  function DeclPart(r: Req, first: bool, decl: int): real {
    Cost(decl, if first then RatesOf(r).tail else RatesOf(r).again) * r.factor
  }

  datatype Priced = Priced(delta: real, declUSD: real, bust: bool, seen: map<string, Seen>)

  function PricedReq(r: Req, sizes: seq<int>, seen: map<string, Seen>, first: bool, decl: int): Priced
    requires |sizes| == |r.blocks|
  {
    var rates := RatesOf(r);
    var w := WalkBlocks(r.blocks, sizes, seen, rates, |r.blocks|);
    var declUSD := if decl != 0 then DeclPart(r, first, decl) else 0.0;
    var bust := w.changed && r.read > 0;
    Priced(w.delta * r.factor + declUSD + (if bust then Cost(r.read, rates.write - r.price.cacheRead) else 0.0), declUSD, bust, w.seen)
  }

  method PriceReq(r: Req, sizes: seq<int>, seen: map<string, Seen>, first: bool, decl: int)
    returns (delta: real, declUSD: real, bust: bool, after: map<string, Seen>)
    requires |sizes| == |r.blocks|
    ensures Priced(delta, declUSD, bust, after) == PricedReq(r, sizes, seen, first, decl)
  {
    var rates := RatesOf(r);
    var changed := false;
    delta, declUSD, bust, after := 0.0, 0.0, false, seen;
    for k := 0 to |r.blocks|
      invariant Walk(delta, after, changed) == WalkBlocks(r.blocks, sizes, seen, rates, k)
    {
      var b, got, rate := r.blocks[k], sizes[k], rates.again;
      if b.key !in after {
        rate := rates.tail;
      } else if after[b.key].got != got && after[b.key].sent == b.sent {
        changed := true;
      }
      after := after[b.key := Seen(got, b.sent)];
      delta := delta + Cost(got - b.sent, rate);
    }
    if decl != 0 { declUSD := DeclPart(r, first, decl); }
    delta := delta * r.factor + declUSD;
    if changed && r.read > 0 {
      bust := true;
      delta := delta + Cost(r.read, rates.write - r.price.cacheRead);
    }
  }

  // ---- One session ----------------------------------------------------------------------------------------------------

  function Keys(r: Req): (ks: seq<string>)
    ensures |ks| == |r.blocks|
  {
    seq(|r.blocks|, k requires 0 <= k < |r.blocks| => r.blocks[k].key)
  }

  function KeySet(r: Req): set<string> {
    set k | 0 <= k < |r.blocks| :: r.blocks[k].key
  }

  // The sizes an arm gives a request's blocks, one per block. The session's store lets them depend on the
  // requests before it.
  datatype Arm = Arm(run: (seq<Req>, Req) -> seq<int>)

  function SizesOf(arm: Arm, past: seq<Req>, r: Req): (sizes: seq<int>)
    ensures |sizes| == |r.blocks|
  {
    if |arm.run(past, r)| == |r.blocks| then arm.run(past, r) else seq(|r.blocks|, _ => 0)
  }

  // Blocks the lead-in already sent count as re-sent, at the size they have now.
  function Seeded(blocks: seq<Block>, sizes: seq<int>, seen: map<string, Seen>, before: set<string>, n: nat): map<string, Seen>
    requires n <= |blocks| == |sizes|
  {
    if n == 0 then seen
    else
      var m, b := Seeded(blocks, sizes, seen, before, n - 1), blocks[n - 1];
      if b.key !in m && b.key in before then m[b.key := Seen(sizes[n - 1], b.sent)] else m
  }

  // What the replay carries from request to request; prev and last are the last run's blocks and sizes.
  datatype State = State(seen: map<string, Seen>, before: set<string>, prev: seq<string>, last: seq<int>,
                         delta: real, declUSD: real, busts: nat)

  const START := State(map[], {}, [], [], 0.0, 0.0, 0)

  // A request with the same blocks as the one before it keeps its sizes.
  function SizesAt(arm: Arm, past: seq<Req>, st: State, r: Req): (sizes: seq<int>)
    ensures |sizes| == |r.blocks|
  {
    if Keys(r) == st.prev && |st.last| == |r.blocks| then st.last else SizesOf(arm, past, r)
  }

  function Step(arm: Arm, past: seq<Req>, st: State, r: Req, first: bool, decl: int): State {
    if !r.inWindow then st.(before := st.before + KeySet(r))
    else
      var sizes := SizesAt(arm, past, st, r);
      var p := PricedReq(r, sizes, Seeded(r.blocks, sizes, st.seen, st.before, |r.blocks|), first, decl);
      State(p.seen, st.before, Keys(r), sizes, st.delta + p.delta, st.declUSD + p.declUSD, st.busts + if p.bust then 1 else 0)
  }

  function After(arm: Arm, reqs: seq<Req>, decl: int, n: nat): State
    requires n <= |reqs|
  {
    if n == 0 then START else Step(arm, reqs[..n - 1], After(arm, reqs, decl, n - 1), reqs[n - 1], n == 1, decl)
  }

  method SeedBlocks(r: Req, sizes: seq<int>, seen: map<string, Seen>, before: set<string>) returns (out: map<string, Seen>)
    requires |sizes| == |r.blocks|
    ensures out == Seeded(r.blocks, sizes, seen, before, |r.blocks|)
  {
    out := seen;
    for k := 0 to |r.blocks|
      invariant out == Seeded(r.blocks, sizes, seen, before, k)
    {
      if r.blocks[k].key !in out && r.blocks[k].key in before { out := out[r.blocks[k].key := Seen(sizes[k], r.blocks[k].sent)]; }
    }
  }

  method ReplaySession(arm: Arm, reqs: seq<Req>, decl: int) returns (st: State)
    ensures st == After(arm, reqs, decl, |reqs|)
  {
    st := START;
    for i := 0 to |reqs|
      invariant st == After(arm, reqs, decl, i)
    {
      var r := reqs[i];
      if !r.inWindow {
        st := st.(before := st.before + KeySet(r));
      } else {
        var sizes := if Keys(r) == st.prev && |st.last| == |r.blocks| then st.last else SizesOf(arm, reqs[..i], r);
        var seen := SeedBlocks(r, sizes, st.seen, st.before);
        var delta, declUSD, bust, after := PriceReq(r, sizes, seen, i == 0, decl);
        st := State(after, st.before, Keys(r), sizes, st.delta + delta, st.declUSD + declUSD, st.busts + if bust then 1 else 0);
      }
    }
  }

  // ---- All sessions, and the closed form --------------------------------------------------------------------------------

  datatype Eval = Eval(delta: real, declUSD: real, busts: nat)

  function Evaluated(arm: Arm, sessions: seq<seq<Req>>, decl: int, n: nat): Eval
    requires n <= |sessions|
  {
    if n == 0 then Eval(0.0, 0.0, 0)
    else
      var e, st := Evaluated(arm, sessions, decl, n - 1), After(arm, sessions[n - 1], decl, |sessions[n - 1]|);
      Eval(e.delta + st.delta, e.declUSD + st.declUSD, e.busts + st.busts)
  }

  function SessionDecl(reqs: seq<Req>, decl: int, n: nat): real
    requires n <= |reqs|
  {
    if n == 0 then 0.0
    else SessionDecl(reqs, decl, n - 1) + if reqs[n - 1].inWindow then DeclPart(reqs[n - 1], n == 1, decl) else 0.0
  }

  function DeclSum(sessions: seq<seq<Req>>, decl: int, n: nat): real
    requires n <= |sessions|
  {
    if n == 0 then 0.0 else DeclSum(sessions, decl, n - 1) + SessionDecl(sessions[n - 1], decl, |sessions[n - 1]|)
  }

  // adaptDeclUSD.
  method DeclUSD(sessions: seq<seq<Req>>, decl: int) returns (usd: real)
    ensures usd == DeclSum(sessions, decl, |sessions|)
  {
    usd := 0.0;
    for s := 0 to |sessions|
      invariant usd == DeclSum(sessions, decl, s)
    {
      var reqs := sessions[s];
      ghost var before := usd;
      for i := 0 to |reqs|
        invariant usd == before + SessionDecl(reqs, decl, i)
      {
        if reqs[i].inWindow {
          var rates := RatesOf(reqs[i]);
          usd := usd + Cost(decl, if i == 0 then rates.tail else rates.again) * reqs[i].factor;
        }
      }
    }
  }

  // ---- The declaration is one term apart ----------------------------------------------------------------------------------

  lemma {:induction false} DeclOnRequest(r: Req, sizes: seq<int>, seen: map<string, Seen>, first: bool, decl: int)
    requires |sizes| == |r.blocks|
    ensures var p, q := PricedReq(r, sizes, seen, first, decl), PricedReq(r, sizes, seen, first, 0);
      && p.delta == q.delta + DeclPart(r, first, decl) && p.declUSD == DeclPart(r, first, decl) && q.declUSD == 0.0
      && p.bust == q.bust && p.seen == q.seen
  {
    if decl == 0 { NothingCostsNothing(if first then RatesOf(r).tail else RatesOf(r).again); }
  }

  // The two replays walk in step; only the money differs, by the declaration's part.
  ghost predicate InStep(x: State, y: State, part: real) {
    && x.seen == y.seen && x.before == y.before && x.prev == y.prev && x.last == y.last && x.busts == y.busts
    && x.delta == y.delta + part && x.declUSD == y.declUSD + part && y.declUSD == 0.0
  }

  lemma {:induction false} DeclOnSession(arm: Arm, reqs: seq<Req>, decl: int, n: nat)
    requires n <= |reqs|
    ensures InStep(After(arm, reqs, decl, n), After(arm, reqs, 0, n), SessionDecl(reqs, decl, n))
  {
    if n > 0 {
      DeclOnSession(arm, reqs, decl, n - 1);
      var r, y := reqs[n - 1], After(arm, reqs, 0, n - 1);
      if r.inWindow {
        var sizes := SizesAt(arm, reqs[..n - 1], y, r);
        DeclOnRequest(r, sizes, Seeded(r.blocks, sizes, y.seen, y.before, |r.blocks|), n == 1, decl);
      }
    }
  }

  /**
   * For every set of sessions and every arm, replaying with decl more declaration tokens costs the replay
   * with none plus the closed form, and changes nothing else.
   */
  lemma {:induction false} DeclIsClosedForm(arm: Arm, sessions: seq<seq<Req>>, decl: int, n: nat)
    requires n <= |sessions|
    ensures var x, y := Evaluated(arm, sessions, decl, n), Evaluated(arm, sessions, 0, n);
      && x.delta == y.delta + DeclSum(sessions, decl, n)
      && x.declUSD == DeclSum(sessions, decl, n) && y.declUSD == 0.0
      && x.busts == y.busts
  {
    if n > 0 {
      DeclIsClosedForm(arm, sessions, decl, n - 1);
      DeclOnSession(arm, sessions[n - 1], decl, |sessions[n - 1]|);
    }
  }

  // ---- An arm that sends what was sent ----------------------------------------------------------------------------------------

  ghost predicate Unchanged(r: Req, sizes: seq<int>) {
    |sizes| == |r.blocks| && forall k :: 0 <= k < |r.blocks| ==> sizes[k] == r.blocks[k].sent
  }

  // Every block seen so far went out at the size it was sent at.
  ghost predicate Faithful(seen: map<string, Seen>) {
    forall key :: key in seen ==> seen[key].got == seen[key].sent
  }

  lemma {:induction false} UnchangedWalk(blocks: seq<Block>, sizes: seq<int>, seen: map<string, Seen>, rates: Rates, n: nat)
    requires n <= |blocks| == |sizes| && Faithful(seen) && forall k :: 0 <= k < |blocks| ==> sizes[k] == blocks[k].sent
    ensures var w := WalkBlocks(blocks, sizes, seen, rates, n); w.delta == 0.0 && !w.changed && Faithful(w.seen)
  {
    if n > 0 {
      UnchangedWalk(blocks, sizes, seen, rates, n - 1);
      NothingCostsNothing(rates.again);
      NothingCostsNothing(rates.tail);
    }
  }

  lemma {:induction false} SeedsFaithful(blocks: seq<Block>, sizes: seq<int>, seen: map<string, Seen>, before: set<string>, n: nat)
    requires n <= |blocks| == |sizes| && Faithful(seen) && forall k :: 0 <= k < |blocks| ==> sizes[k] == blocks[k].sent
    ensures Faithful(Seeded(blocks, sizes, seen, before, n))
  {
    if n > 0 { SeedsFaithful(blocks, sizes, seen, before, n - 1); }
  }

  ghost predicate SendsTheSame(arm: Arm, reqs: seq<Req>) {
    forall i :: 0 <= i < |reqs| && reqs[i].inWindow ==> Unchanged(reqs[i], SizesAt(arm, reqs[..i], After(arm, reqs, 0, i), reqs[i]))
  }

  lemma {:induction false} SameSessionCostsNothing(arm: Arm, reqs: seq<Req>, n: nat)
    requires n <= |reqs| && SendsTheSame(arm, reqs)
    ensures var st := After(arm, reqs, 0, n); st.delta == 0.0 && st.busts == 0 && Faithful(st.seen)
  {
    if n > 0 {
      SameSessionCostsNothing(arm, reqs, n - 1);
      var r, st := reqs[n - 1], After(arm, reqs, 0, n - 1);
      if r.inWindow {
        var sizes := SizesAt(arm, reqs[..n - 1], st, r);
        assert Unchanged(r, sizes);
        SeedsFaithful(r.blocks, sizes, st.seen, st.before, |r.blocks|);
        UnchangedWalk(r.blocks, sizes, Seeded(r.blocks, sizes, st.seen, st.before, |r.blocks|), RatesOf(r), |r.blocks|);
      }
    }
  }

  // An arm whose sizes are what was sent, on every request, costs nothing more and busts no cache.
  lemma {:induction false} SameSizesCostNothing(arm: Arm, sessions: seq<seq<Req>>, n: nat)
    requires n <= |sessions| && forall i :: 0 <= i < |sessions| ==> SendsTheSame(arm, sessions[i])
    ensures Evaluated(arm, sessions, 0, n).delta == 0.0 && Evaluated(arm, sessions, 0, n).busts == 0
  {
    if n > 0 {
      SameSizesCostNothing(arm, sessions, n - 1);
      SameSessionCostsNothing(arm, sessions[n - 1], |sessions[n - 1]|);
    }
  }

  // ---- An arm that only sends less ---------------------------------------------------------------------------------------------

  lemma {:induction false} BlendFair(f: real, short: real, long: real)
    requires 0.0 <= f <= 1.0 && short >= 0.0 && long >= 0.0
    ensures Blend(f, short, long) >= 0.0
  {
    assert (1.0 - f) * short >= 0.0;
    assert f * long >= 0.0;
  }

  lemma {:induction false} RatesFair(r: Req)
    requires NonNegative(r.price)
    ensures RatesOf(r).tail >= 0.0 && RatesOf(r).again >= 0.0
  {
    if r.write > 0 && 0 < r.write1h < r.write {
      var f := r.write1h as real / r.write as real;
      assert 0.0 <= f <= 1.0;
      BlendFair(f, r.price.cacheWrite, r.price.cacheWrite1h);
    }
  }

  ghost predicate NoLarger(r: Req, sizes: seq<int>) {
    |sizes| == |r.blocks| && forall k :: 0 <= k < |r.blocks| ==> sizes[k] <= r.blocks[k].sent
  }

  lemma {:induction false} SmallerWalk(blocks: seq<Block>, sizes: seq<int>, seen: map<string, Seen>, rates: Rates, n: nat)
    requires n <= |blocks| == |sizes| && rates.tail >= 0.0 && rates.again >= 0.0
    requires forall k :: 0 <= k < |blocks| ==> sizes[k] <= blocks[k].sent
    ensures WalkBlocks(blocks, sizes, seen, rates, n).delta <= 0.0
  {
    if n > 0 {
      SmallerWalk(blocks, sizes, seen, rates, n - 1);
      var d := sizes[n - 1] - blocks[n - 1].sent;
      CostGrows(d, 0, rates.again);
      CostGrows(d, 0, rates.tail);
      NothingCostsNothing(rates.again);
      NothingCostsNothing(rates.tail);
    }
  }

  ghost predicate SendsNoMore(arm: Arm, reqs: seq<Req>) {
    forall i :: 0 <= i < |reqs| && reqs[i].inWindow ==>
      NonNegative(reqs[i].price) && reqs[i].factor >= 0.0 && NoLarger(reqs[i], SizesAt(arm, reqs[..i], After(arm, reqs, 0, i), reqs[i]))
  }

  // An arm that only ever sends less, and edits no cached prefix, saves.
  lemma {:induction false} SmallerSavesUnlessItBusts(arm: Arm, reqs: seq<Req>, n: nat)
    requires n <= |reqs| && SendsNoMore(arm, reqs) && After(arm, reqs, 0, n).busts == 0
    ensures After(arm, reqs, 0, n).delta <= 0.0
  {
    if n > 0 {
      var r, st := reqs[n - 1], After(arm, reqs, 0, n - 1);
      SmallerSavesUnlessItBusts(arm, reqs, n - 1);
      if r.inWindow {
        var sizes := SizesAt(arm, reqs[..n - 1], st, r);
        var seeded := Seeded(r.blocks, sizes, st.seen, st.before, |r.blocks|);
        RatesFair(r);
        SmallerWalk(r.blocks, sizes, seeded, RatesOf(r), |r.blocks|);
        var d := WalkBlocks(r.blocks, sizes, seeded, RatesOf(r), |r.blocks|).delta;
        assert d * r.factor <= 0.0;
      }
    }
  }
}
