/**
 * What a replayed arm is charged, request by request, told from the requests and the sizes it gave them
 * (replaySession and priceAdaptReq in dash/adaptcompaction.go).
 */
module ReplayBill {
  import opened Lists
  import opened Prices
  import opened Replay

  // ---- The rates -----------------------------------------------------------------------------------------------------

  // A request that cached most of what it sent.
  predicate WroteMost(r: Req) {
    r.write > 0 && r.write >= r.uncached
  }

  /**
   * A new block pays the tier the request's tail was written in, or input where little was written. A re-sent
   * one pays the read rate where the cache was read, else the write rate or input in the same way. The write rate
   * shares out the tokens written in either tier.
   */
  lemma {:induction false} RatesAre(r: Req)
    ensures var p, q := r.price, RatesOf(r);
      && q.tail == (if !WroteMost(r) then p.input else if r.write1h >= r.write then p.cacheWrite1h else p.cacheWrite)
      && q.again == (if r.read > 0 then p.cacheRead else if WroteMost(r) then q.write else p.input)
      && (r.write == 0 || r.write1h == 0 ==> q.write == p.cacheWrite)
      && (0 < r.write <= r.write1h ==> q.write == p.cacheWrite1h)
      && (0 < r.write1h < r.write ==>
            q.write * r.write as real == (r.write - r.write1h) as real * p.cacheWrite + r.write1h as real * p.cacheWrite1h)
  {
    if 0 < r.write1h < r.write { BlendShares(r.write1h, r.write, r.price.cacheWrite, r.price.cacheWrite1h); }
  }

  lemma {:induction false} BlendShares(part: nat, all: nat, short: real, long: real)
    requires 0 < part < all
    ensures Blend(part as real / all as real, short, long) * all as real == (all - part) as real * short + part as real * long
  {
    var f, n := part as real / all as real, all as real;
    assert f * n == part as real;
    assert Blend(f, short, long) * n == (n - f * n) * short + (f * n) * long;
  }

  // ---- What was sent before ----------------------------------------------------------------------------------------

  datatype Sent = Sent(key: string, got: int, sent: int)

  function SentBy(r: Req, sizes: seq<int>, n: nat): (out: seq<Sent>)
    requires n <= |r.blocks| == |sizes|
    ensures |out| == n
  {
    seq(n, k requires 0 <= k < n => Sent(r.blocks[k].key, sizes[k], r.blocks[k].sent))
  }

  // The sizes request i of the session was replayed at.
  function SizesIn(arm: Arm, reqs: seq<Req>, i: nat): (sizes: seq<int>)
    requires i < |reqs|
    ensures |sizes| == |reqs[i].blocks|
  {
    SizesAt(arm, reqs[..i], After(arm, reqs, 0, i), reqs[i])
  }

  // All that the arm sent in the window, in order.
  function AllSent(arm: Arm, reqs: seq<Req>, n: nat): seq<Sent>
    requires n <= |reqs|
  {
    if n == 0 then []
    else
      var before, r := AllSent(arm, reqs, n - 1), reqs[n - 1];
      if r.inWindow then before + SentBy(r, SizesIn(arm, reqs, n - 1), |r.blocks|) else before
  }

  // The last time a key was sent.
  function LastSent(all: seq<Sent>, key: string): Option<Seen> {
    if all == [] then None
    else if all[|all| - 1].key == key then Some(Seen(all[|all| - 1].got, all[|all| - 1].sent))
    else LastSent(all[..|all| - 1], key)
  }

  // The map the replay carries answers as the list of all that was sent.
  predicate AnswersAt(seen: map<string, Seen>, all: seq<Sent>, key: string) {
    LastSent(all, key) == if key in seen then Some(seen[key]) else None
  }

  ghost predicate Answers(seen: map<string, Seen>, all: seq<Sent>) {
    forall key :: AnswersAt(seen, all, key)
  }

  // ---- One request's blocks -----------------------------------------------------------------------------------------

  // A request with the sizes it is replayed at, what the arm sent before it, and the keys the lead-in sent.
  datatype Turn = Turn(r: Req, sizes: seq<int>, past: seq<Sent>, lead: set<string>) {
    predicate Fits() {
      |sizes| == |r.blocks|
    }

    // The last time block k's key was sent, in an earlier request or earlier in this one.
    function Prior(k: nat): Option<Seen>
      requires Fits() && k < |sizes|
    {
      LastSent(past + SentBy(r, sizes, k), r.blocks[k].key)
    }

    predicate Resent(k: nat)
      requires Fits() && k < |sizes|
    {
      Prior(k).Some? || r.blocks[k].key in lead
    }

    // Sent at another size than last time, where the history sent it at the same.
    predicate Edits(k: nat)
      requires Fits() && k < |sizes|
    {
      Prior(k).Some? && Prior(k).value.got != sizes[k] && Prior(k).value.sent == r.blocks[k].sent
    }

    // What the first n blocks cost beside what was sent.
    function BlocksCost(n: nat): real
      requires Fits() && n <= |sizes|
    {
      if n == 0 then 0.0
      else
        var rate := if Resent(n - 1) then RatesOf(r).again else RatesOf(r).tail;
        BlocksCost(n - 1) + Cost(sizes[n - 1] - r.blocks[n - 1].sent, rate)
    }

    ghost predicate Busts()
      requires Fits()
    {
      r.read > 0 && exists k :: 0 <= k < |sizes| && Edits(k)
    }
  }

  ghost predicate FirstOf(r: Req, k: nat)
    requires k < |r.blocks|
  {
    forall j :: 0 <= j < k ==> r.blocks[j].key != r.blocks[k].key
  }

  // Seeding: a key the lead-in sent and the window did not is taken at its first size here.
  lemma {:induction false} SeededIs(t: Turn, seen: map<string, Seen>, n: nat, key: string)
    requires t.Fits() && n <= |t.sizes|
    ensures var m := Seeded(t.r.blocks, t.sizes, seen, t.lead, n);
      && (key in seen ==> key in m && m[key] == seen[key])
      && (key !in seen && key in m ==> key in t.lead && exists k :: 0 <= k < n && t.r.blocks[k].key == key)
      && (key !in seen ==> forall k :: 0 <= k < n && t.r.blocks[k].key == key && key in t.lead ==> key in m)
      && (key !in seen ==> forall k :: 0 <= k < n && t.r.blocks[k].key == key && key in t.lead && FirstOf(t.r, k) ==>
            m[key] == Seen(t.sizes[k], t.r.blocks[k].sent))
  {
    if n > 0 { SeededIs(t, seen, n - 1, key); }
  }

  // After n blocks the map answers for all that was sent, and as seeded for the rest.
  ghost predicate WalkAt(t: Turn, seeded: map<string, Seen>, now: map<string, Seen>, n: nat, key: string)
    requires t.Fits() && n <= |t.sizes|
  {
    var last := LastSent(t.past + SentBy(t.r, t.sizes, n), key);
    if last.Some? then key in now && now[key] == last.value
    else (key in now <==> key in seeded) && (key in now ==> now[key] == seeded[key])
  }

  lemma {:induction false} SentOneMore(t: Turn, n: nat)
    requires t.Fits() && n < |t.sizes|
    ensures t.past + SentBy(t.r, t.sizes, n + 1) == t.past + SentBy(t.r, t.sizes, n) + [Sent(t.r.blocks[n].key, t.sizes[n], t.r.blocks[n].sent)]
  {
  }

  lemma {:induction false} LastSentNext(all: seq<Sent>, s: Sent, key: string)
    ensures LastSent(all + [s], key) == if s.key == key then Some(Seen(s.got, s.sent)) else LastSent(all, key)
  {
    assert (all + [s])[..|all|] == all;
  }

  lemma {:induction false} NotSentYet(t: Turn, n: nat, key: string)
    requires t.Fits() && n <= |t.sizes| && LastSent(t.past + SentBy(t.r, t.sizes, n), key).None?
    ensures LastSent(t.past, key).None? && forall j :: 0 <= j < n ==> t.r.blocks[j].key != key
  {
    if n == 0 {
      assert t.past + SentBy(t.r, t.sizes, 0) == t.past;
    } else {
      SentOneMore(t, n - 1);
      LastSentNext(t.past + SentBy(t.r, t.sizes, n - 1), Sent(t.r.blocks[n - 1].key, t.sizes[n - 1], t.r.blocks[n - 1].sent), key);
      NotSentYet(t, n - 1, key);
    }
  }

  lemma {:induction false} WalkStep(t: Turn, seeded: map<string, Seen>, now: map<string, Seen>, n: nat, key: string)
    requires t.Fits() && n < |t.sizes| && WalkAt(t, seeded, now, n, key)
    ensures WalkAt(t, seeded, now[t.r.blocks[n].key := Seen(t.sizes[n], t.r.blocks[n].sent)], n + 1, key)
  {
    SentOneMore(t, n);
    LastSentNext(t.past + SentBy(t.r, t.sizes, n), Sent(t.r.blocks[n].key, t.sizes[n], t.r.blocks[n].sent), key);
  }

  // What the walk makes of block k is what was said of it above.
  lemma {:induction false} BlockRead(t: Turn, seen: map<string, Seen>, now: map<string, Seen>, k: nat)
    requires t.Fits() && k < |t.sizes| && Answers(seen, t.past)
    requires WalkAt(t, Seeded(t.r.blocks, t.sizes, seen, t.lead, |t.sizes|), now, k, t.r.blocks[k].key)
    ensures var b := t.r.blocks[k];
      && (b.key in now <==> t.Resent(k))
      && (b.key in now && now[b.key].got != t.sizes[k] && now[b.key].sent == b.sent <==> t.Edits(k))
  {
    var key := t.r.blocks[k].key;
    if t.Prior(k).None? {
      NotSentYet(t, k, key);
      SeededIs(t, seen, |t.sizes|, key);
      assert AnswersAt(seen, t.past, key);
      assert FirstOf(t.r, k);
    }
  }

  ghost predicate WalkAll(t: Turn, seeded: map<string, Seen>, now: map<string, Seen>, n: nat)
    requires t.Fits() && n <= |t.sizes|
  {
    forall key :: WalkAt(t, seeded, now, n, key)
  }

  lemma {:induction false} WalkStart(t: Turn, seen: map<string, Seen>)
    requires t.Fits() && Answers(seen, t.past)
    ensures var seeded := Seeded(t.r.blocks, t.sizes, seen, t.lead, |t.sizes|); WalkAll(t, seeded, seeded, 0)
  {
    var seeded := Seeded(t.r.blocks, t.sizes, seen, t.lead, |t.sizes|);
    assert t.past + SentBy(t.r, t.sizes, 0) == t.past;
    forall key ensures WalkAt(t, seeded, seeded, 0, key) {
      SeededIs(t, seen, |t.sizes|, key);
      assert AnswersAt(seen, t.past, key);
    }
  }

  lemma {:induction false} WalkNext(t: Turn, seeded: map<string, Seen>, now: map<string, Seen>, n: nat, after: map<string, Seen>)
    requires t.Fits() && n < |t.sizes| && WalkAll(t, seeded, now, n)
    requires after == now[t.r.blocks[n].key := Seen(t.sizes[n], t.r.blocks[n].sent)]
    ensures WalkAll(t, seeded, after, n + 1)
  {
    var m := n + 1;
    forall key ensures WalkAt(t, seeded, after, m, key) {
      assert WalkAt(t, seeded, now, n, key);
      WalkStep(t, seeded, now, n, key);
    }
  }

  // One of the first n blocks edits what was sent before.
  ghost predicate EditsIn(t: Turn, n: nat)
    requires t.Fits() && n <= |t.sizes|
  {
    exists k :: 0 <= k < n && t.Edits(k)
  }

  lemma {:induction false} EditsNext(t: Turn, n: nat)
    requires t.Fits() && n < |t.sizes|
    ensures EditsIn(t, n + 1) <==> EditsIn(t, n) || t.Edits(n)
  {
    if EditsIn(t, n) { var k :| 0 <= k < n && t.Edits(k); }
  }

  // The walk has got as far as n blocks, as told.
  ghost predicate Walked(t: Turn, seeded: map<string, Seen>, w: Walk, n: nat)
    requires t.Fits() && n <= |t.sizes|
  {
    w.delta == t.BlocksCost(n) && (w.changed <==> EditsIn(t, n)) && WalkAll(t, seeded, w.seen, n)
  }

  function WalkOne(t: Turn, w: Walk, n: nat): Walk
    requires t.Fits() && n < |t.sizes|
  {
    var b, got := t.r.blocks[n], t.sizes[n];
    var rate := if b.key in w.seen then RatesOf(t.r).again else RatesOf(t.r).tail;
    var edited := b.key in w.seen && w.seen[b.key].got != got && w.seen[b.key].sent == b.sent;
    Walk(w.delta + Cost(got - b.sent, rate), w.seen[b.key := Seen(got, b.sent)], w.changed || edited)
  }

  lemma {:induction false} WalkOneMore(t: Turn, seen: map<string, Seen>, seeded: map<string, Seen>, w: Walk, n: nat)
    requires t.Fits() && n < |t.sizes| && Answers(seen, t.past) && Walked(t, seeded, w, n)
    requires seeded == Seeded(t.r.blocks, t.sizes, seen, t.lead, |t.sizes|)
    ensures Walked(t, seeded, WalkOne(t, w, n), n + 1)
  {
    assert WalkAt(t, seeded, w.seen, n, t.r.blocks[n].key);
    BlockRead(t, seen, w.seen, n);
    EditsNext(t, n);
    WalkNext(t, seeded, w.seen, n, WalkOne(t, w, n).seen);
  }

  // The walk over the first n blocks, given the map it starts from.
  lemma {:induction false} WalkFrom(t: Turn, seen: map<string, Seen>, seeded: map<string, Seen>, n: nat)
    requires t.Fits() && n <= |t.sizes| && Answers(seen, t.past)
    requires seeded == Seeded(t.r.blocks, t.sizes, seen, t.lead, |t.sizes|)
    ensures Walked(t, seeded, WalkBlocks(t.r.blocks, t.sizes, seeded, RatesOf(t.r), n), n)
  {
    if n == 0 {
      WalkStart(t, seen);
    } else {
      var w := WalkBlocks(t.r.blocks, t.sizes, seeded, RatesOf(t.r), n - 1);
      WalkFrom(t, seen, seeded, n - 1);
      WalkOneMore(t, seen, seeded, w, n - 1);
      assert WalkBlocks(t.r.blocks, t.sizes, seeded, RatesOf(t.r), n) == WalkOne(t, w, n - 1);
    }
  }

  // Once every block is sent, nothing is left of the seeds.
  lemma {:induction false} WalkEnds(t: Turn, seen: map<string, Seen>, seeded: map<string, Seen>, now: map<string, Seen>)
    requires t.Fits() && Answers(seen, t.past) && seeded == Seeded(t.r.blocks, t.sizes, seen, t.lead, |t.sizes|)
    requires WalkAll(t, seeded, now, |t.sizes|)
    ensures Answers(now, t.past + SentBy(t.r, t.sizes, |t.sizes|))
  {
    var n := |t.sizes|;
    forall key ensures AnswersAt(now, t.past + SentBy(t.r, t.sizes, n), key) {
      assert WalkAt(t, seeded, now, n, key);
      if LastSent(t.past + SentBy(t.r, t.sizes, n), key).None? {
        NotSentYet(t, n, key);
        SeededIs(t, seen, n, key);
        assert AnswersAt(seen, t.past, key);
      }
    }
  }

  // ---- One request's bill -------------------------------------------------------------------------------------------

  // The declaration's tokens, in the tail on a session's first request and re-sent after it.
  function DeclCost(r: Req, first: bool, decl: int): real {
    Cost(decl, if first then RatesOf(r).tail else RatesOf(r).again) * r.factor
  }

  // What breaking the cached prefix costs: all that was read is written instead.
  function BustCost(r: Req): real {
    Cost(r.read, RatesOf(r).write - r.price.cacheRead)
  }

  // What the request adds, whatever it was replayed at.
  ghost function Bill(t: Turn, first: bool, decl: int): real
    requires t.Fits()
  {
    t.BlocksCost(|t.sizes|) * t.r.factor + DeclCost(t.r, first, decl) + (if t.Busts() then BustCost(t.r) else 0.0)
  }

  lemma {:induction false} NoDeclaration(r: Req, first: bool)
    ensures DeclCost(r, first, 0) == 0.0
  {
    NothingCostsNothing(if first then RatesOf(r).tail else RatesOf(r).again);
  }

  lemma {:induction false} WalkBills(t: Turn, seeded: map<string, Seen>, w: Walk, first: bool, decl: int)
    requires t.Fits() && Walked(t, seeded, w, |t.sizes|)
    ensures w.changed && t.r.read > 0 <==> t.Busts()
    ensures w.delta * t.r.factor + DeclCost(t.r, first, decl) + (if w.changed && t.r.read > 0 then BustCost(t.r) else 0.0) == Bill(t, first, decl)
  {
  }

  lemma {:induction false} PricedIs(t: Turn, seen: map<string, Seen>, first: bool, decl: int)
    requires t.Fits() && Answers(seen, t.past)
    ensures var p := PricedReq(t.r, t.sizes, Seeded(t.r.blocks, t.sizes, seen, t.lead, |t.sizes|), first, decl);
      && p.declUSD == DeclCost(t.r, first, decl) && p.delta == Bill(t, first, decl) && (p.bust <==> t.Busts())
      && Answers(p.seen, t.past + SentBy(t.r, t.sizes, |t.sizes|))
  {
    var seeded := Seeded(t.r.blocks, t.sizes, seen, t.lead, |t.sizes|);
    var w := WalkBlocks(t.r.blocks, t.sizes, seeded, RatesOf(t.r), |t.sizes|);
    WalkFrom(t, seen, seeded, |t.sizes|);
    WalkEnds(t, seen, seeded, w.seen);
    WalkBills(t, seeded, w, first, decl);
    if decl == 0 { NoDeclaration(t.r, first); }
  }

  // The keys the lead-in sent before request n.
  function LeadKeys(reqs: seq<Req>, n: nat): set<string>
    requires n <= |reqs|
  {
    set i, k | 0 <= i < n && !reqs[i].inWindow && 0 <= k < |reqs[i].blocks| :: reqs[i].blocks[k].key
  }

  lemma {:induction false} LeadKeysNext(reqs: seq<Req>, n: nat)
    requires n < |reqs|
    ensures LeadKeys(reqs, n + 1) == if reqs[n].inWindow then LeadKeys(reqs, n) else LeadKeys(reqs, n) + KeySet(reqs[n])
  {
  }

  ghost function TurnAt(arm: Arm, reqs: seq<Req>, i: nat): (t: Turn)
    requires i < |reqs|
    ensures t.Fits()
  {
    Turn(reqs[i], SizesIn(arm, reqs, i), AllSent(arm, reqs, i), LeadKeys(reqs, i))
  }

  // What the replay remembers is all that was sent in the window and the keys of the lead-in.
  lemma {:induction false} Remembers(arm: Arm, reqs: seq<Req>, n: nat)
    requires n <= |reqs|
    ensures Answers(After(arm, reqs, 0, n).seen, AllSent(arm, reqs, n)) && After(arm, reqs, 0, n).before == LeadKeys(reqs, n)
  {
    if n > 0 {
      Remembers(arm, reqs, n - 1);
      LeadKeysNext(reqs, n - 1);
      if reqs[n - 1].inWindow { PricedIs(TurnAt(arm, reqs, n - 1), After(arm, reqs, 0, n - 1).seen, n == 1, 0); }
    }
  }

  /**
   * What each request of the window adds to an arm's bill: per block the tokens it differs by, at the tail rate
   * where its key is new to the session and the re-sent rate where it is not; the declaration; and, where the
   * request read the cache and the arm changed a block the history had kept, the price of writing what was read.
   * The lead-in adds nothing.
   */
  lemma {:induction false} RequestIsBilled(arm: Arm, reqs: seq<Req>, decl: int, i: nat)
    requires i < |reqs|
    ensures var st, after, t := After(arm, reqs, decl, i), After(arm, reqs, decl, i + 1), TurnAt(arm, reqs, i);
      if !reqs[i].inWindow then after.delta == st.delta && after.declUSD == st.declUSD && after.busts == st.busts
      else
        && after.delta == st.delta + Bill(t, i == 0, decl)
        && after.declUSD == st.declUSD + DeclCost(t.r, i == 0, decl)
        && after.busts == st.busts + (if t.Busts() then 1 else 0)
  {
    DeclOnSession(arm, reqs, decl, i);
    Remembers(arm, reqs, i);
    if reqs[i].inWindow {
      StepIsPriced(arm, reqs[..i], After(arm, reqs, decl, i), reqs[i], i == 0, decl);
      PricedIs(TurnAt(arm, reqs, i), After(arm, reqs, 0, i).seen, i == 0, decl);
    }
  }

  lemma {:induction false} StepIsPriced(arm: Arm, past: seq<Req>, st: State, r: Req, first: bool, decl: int)
    requires r.inWindow
    ensures var sizes := SizesAt(arm, past, st, r);
      var p, after := PricedReq(r, sizes, Seeded(r.blocks, sizes, st.seen, st.before, |r.blocks|), first, decl), Step(arm, past, st, r, first, decl);
      && after.delta == st.delta + p.delta && after.declUSD == st.declUSD + p.declUSD
      && after.busts == st.busts + (if p.bust then 1 else 0) && after.seen == p.seen && after.before == st.before
  {
  }

  // ---- The sizes ------------------------------------------------------------------------------------------------------

  // The last request of the window before i, or -1.
  function LastInWindow(reqs: seq<Req>, i: nat): (j: int)
    requires i <= |reqs|
    ensures -1 <= j < i && (j >= 0 ==> reqs[j].inWindow) && forall k :: j < k < i ==> !reqs[k].inWindow
  {
    if i == 0 then -1 else if reqs[i - 1].inWindow then i - 1 else LastInWindow(reqs, i - 1)
  }

  lemma {:induction false} LastRun(arm: Arm, reqs: seq<Req>, i: nat)
    requires i <= |reqs|
    ensures var st, j := After(arm, reqs, 0, i), LastInWindow(reqs, i);
      if j < 0 then st.prev == [] && st.last == [] else st.prev == Keys(reqs[j]) && st.last == SizesIn(arm, reqs, j)
  {
    if i > 0 && !reqs[i - 1].inWindow { LastRun(arm, reqs, i - 1); }
  }

  // A request with the very blocks of the last one of the window keeps its sizes; any other is run.
  lemma {:induction false} SizesAre(arm: Arm, reqs: seq<Req>, i: nat)
    requires i < |reqs|
    ensures var j := LastInWindow(reqs, i);
      if j >= 0 && Keys(reqs[j]) == Keys(reqs[i]) then SizesIn(arm, reqs, i) == SizesIn(arm, reqs, j)
      else |arm.run(reqs[..i], reqs[i])| == |reqs[i].blocks| ==> SizesIn(arm, reqs, i) == arm.run(reqs[..i], reqs[i])
  {
    LastRun(arm, reqs, i);
  }
}
