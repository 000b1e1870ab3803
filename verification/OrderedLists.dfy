/**
 * Editing an ordered pipeline without losing a component (AdaptCompactionMerge in
 * dash/adaptcompaction.go, preserveUnmodelled in config/form.go).
 */
module OrderedLists {
  import opened Lists

  ghost predicate NoRepeats(xs: seq<string>) {
    forall i, j :: 0 <= i < j < |xs| ==> xs[i] != xs[j]
  }

  // ---- AdaptCompactionMerge -----------------------------------------------------------------------------------------

  // The last kept candidate before position n, "" at the head.
  function Anchor(isCand: string -> bool, cur: seq<string>, keep: set<string>, n: nat): (a: string)
    requires n <= |cur|
    ensures a == "" || (a in keep && a in cur[..n])
  {
    if n == 0 then "" else if isCand(cur[n - 1]) && cur[n - 1] in keep then cur[n - 1] else Anchor(isCand, cur, keep, n - 1)
  }

  // The fixed components among the first n that follow anchor a.
  function FixedAfter(isCand: string -> bool, cur: seq<string>, keep: set<string>, a: string, n: nat): seq<string>
    requires n <= |cur|
  {
    if n == 0 then []
    else
      var before := FixedAfter(isCand, cur, keep, a, n - 1);
      if !isCand(cur[n - 1]) && Anchor(isCand, cur, keep, n - 1) == a then before + [cur[n - 1]] else before
  }

  function KeepOf(cands: seq<string>): set<string> {
    set c | c in cands
  }

  function WithFixed(isCand: string -> bool, cur: seq<string>, keep: set<string>, n: nat): string -> seq<string>
    requires n <= |cur|
  {
    (c: string) => [c] + FixedAfter(isCand, cur, keep, c, n)
  }

  function Merged(isCand: string -> bool, cur: seq<string>, cands: seq<string>): seq<string> {
    FixedAfter(isCand, cur, KeepOf(cands), "", |cur|) + Gather(WithFixed(isCand, cur, KeepOf(cands), |cur|), cands, 0, |cands|)
  }

  method AdaptCompactionMerge(isCand: string -> bool, cur: seq<string>, cands: seq<string>) returns (out: seq<string>)
    ensures out == Merged(isCand, cur, cands)
  {
    var keep: set<string> := {};
    for i := 0 to |cands|
      invariant keep == set c | c in cands[..i]
    {
      keep := keep + {cands[i]};
      assert cands[..i + 1] == cands[..i] + [cands[i]];
    }
    assert cands[..|cands|] == cands;
    var after: map<string, seq<string>> := map[];
    var anchor := "";
    for i := 0 to |cur|
      invariant keep == KeepOf(cands) && anchor == Anchor(isCand, cur, keep, i)
      invariant forall a :: (if a in after then after[a] else []) == FixedAfter(isCand, cur, keep, a, i)
    {
      if isCand(cur[i]) {
        if cur[i] in keep { anchor := cur[i]; }
      } else {
        after := after[anchor := (if anchor in after then after[anchor] else []) + [cur[i]]];
      }
    }
    out := if "" in after then after[""] else [];
    ghost var head := out;
    for i := 0 to |cands|
      invariant out == head + Gather(WithFixed(isCand, cur, keep, |cur|), cands, 0, i)
    {
      var more := [cands[i]] + if cands[i] in after then after[cands[i]] else [];
      Assoc(head, Gather(WithFixed(isCand, cur, keep, |cur|), cands, 0, i), more);
      out := out + more;
    }
  }

  function IsFixed(isCand: string -> bool): string -> bool {
    (c: string) => !isCand(c)
  }

  // ---- Nothing is lost -----------------------------------------------------------------------------------------------

  function CountIn(isCand: string -> bool, cur: seq<string>, keep: set<string>, x: string, n: nat): string -> int
    requires n <= |cur|
  {
    (a: string) => multiset(FixedAfter(isCand, cur, keep, a, n))[x]
  }

  // One bucket of a list without repeats grew by one.
  lemma {:induction false} OneGrew(f: string -> int, g: string -> int, xs: seq<string>, a: string, n: nat)
    requires n <= |xs| && NoRepeats(xs) && g(a) == f(a) + 1 && forall c :: c in xs && c != a ==> g(c) == f(c)
    ensures SumOf(g, xs, n) == SumOf(f, xs, n) + if a in xs[..n] then 1 else 0
  {
    if n > 0 {
      OneGrew(f, g, xs, a, n - 1);
      assert xs[..n] == xs[..n - 1] + [xs[n - 1]];
      assert xs[n - 1] in xs;
      if a in xs[..n - 1] { var i :| 0 <= i < n - 1 && xs[i] == a; }
    } else {
      assert xs[..0] == [];
    }
  }

  lemma {:induction false} NoneGrew(f: string -> int, g: string -> int, xs: seq<string>, n: nat)
    requires n <= |xs| && forall c :: c in xs ==> g(c) == f(c)
    ensures SumOf(g, xs, n) == SumOf(f, xs, n)
  {
    if n > 0 {
      NoneGrew(f, g, xs, n - 1);
      assert xs[n - 1] in xs;
    }
  }

  // One more component: a fixed one joins its anchor's bucket, and no other bucket changes.
  lemma {:induction false} BucketStep(isCand: string -> bool, cur: seq<string>, keep: set<string>, a: string, x: string, n: nat)
    requires 0 < n <= |cur|
    ensures multiset(FixedAfter(isCand, cur, keep, a, n))[x] == multiset(FixedAfter(isCand, cur, keep, a, n - 1))[x]
         + if !isCand(cur[n - 1]) && cur[n - 1] == x && Anchor(isCand, cur, keep, n - 1) == a then 1 else 0
  {
    OneMoreCount(FixedAfter(isCand, cur, keep, a, n - 1), cur[n - 1], x);
  }

  lemma {:induction false} FixedStepCount(isCand: string -> bool, cur: seq<string>, x: string, n: nat)
    requires 0 < n <= |cur|
    ensures multiset(FilterOf(IsFixed(isCand), cur, n))[x] == multiset(FilterOf(IsFixed(isCand), cur, n - 1))[x]
         + if !isCand(cur[n - 1]) && cur[n - 1] == x then 1 else 0
  {
    FilterStep(IsFixed(isCand), cur, n - 1);
    if !isCand(cur[n - 1]) { OneMoreCount(FilterOf(IsFixed(isCand), cur, n - 1), cur[n - 1], x); }
  }

  lemma {:induction false} OneMoreCount(a: seq<string>, y: string, x: string)
    ensures multiset(a + [y])[x] == multiset(a)[x] + if y == x then 1 else 0
  {
    CountConcat(a, [y], x);
  }

  // d more in the bucket of a, among a list without repeats or at the head, is d more in all.
  lemma {:induction false} BucketsAddUp(f: string -> int, g: string -> int, cands: seq<string>, a: string, d: int, head: int, all: int)
    requires NoRepeats(cands) && "" !in cands && (a == "" || a in cands) && 0 <= d <= 1
    requires forall c :: c in cands ==> g(c) == f(c) + if c == a then d else 0
    requires a in cands ==> g(a) == f(a) + d
    requires all == head + SumOf(f, cands, |cands|)
    ensures all + d == (if a == "" then head + d else head) + SumOf(g, cands, |cands|)
  {
    if d == 1 && a in cands {
      OneGrew(f, g, cands, a, |cands|);
      assert cands[..|cands|] == cands;
    } else {
      NoneGrew(f, g, cands, |cands|);
    }
  }

  // Every fixed component is in exactly one bucket.
  lemma {:induction false} FixedInBuckets(isCand: string -> bool, cur: seq<string>, cands: seq<string>, x: string, n: nat)
    requires n <= |cur| && NoRepeats(cands) && "" !in cands
    ensures multiset(FilterOf(IsFixed(isCand), cur, n))[x]
         == multiset(FixedAfter(isCand, cur, KeepOf(cands), "", n))[x] + SumOf(CountIn(isCand, cur, KeepOf(cands), x, n), cands, |cands|)
  {
    if n == 0 {
      BucketsEmpty(isCand, cur, cands, x);
    } else {
      FixedInBuckets(isCand, cur, cands, x, n - 1);
      BucketsNext(isCand, cur, cands, x, n);
    }
  }

  lemma {:induction false} BucketsEmpty(isCand: string -> bool, cur: seq<string>, cands: seq<string>, x: string)
    ensures SumOf(CountIn(isCand, cur, KeepOf(cands), x, 0), cands, |cands|) == 0
  {
    TotalZero(CountIn(isCand, cur, KeepOf(cands), x, 0), cands, |cands|);
  }

  lemma {:induction false} BucketsNext(isCand: string -> bool, cur: seq<string>, cands: seq<string>, x: string, n: nat)
    requires 0 < n <= |cur| && NoRepeats(cands) && "" !in cands
    requires multiset(FilterOf(IsFixed(isCand), cur, n - 1))[x] == multiset(FixedAfter(isCand, cur, KeepOf(cands), "", n - 1))[x]
          + SumOf(CountIn(isCand, cur, KeepOf(cands), x, n - 1), cands, |cands|)
    ensures multiset(FilterOf(IsFixed(isCand), cur, n))[x] == multiset(FixedAfter(isCand, cur, KeepOf(cands), "", n))[x]
         + SumOf(CountIn(isCand, cur, KeepOf(cands), x, n), cands, |cands|)
  {
    var d := if !isCand(cur[n - 1]) && cur[n - 1] == x then 1 else 0;
    FixedStepCount(isCand, cur, x, n);
    BucketStep(isCand, cur, KeepOf(cands), "", x, n);
    BucketsStep(isCand, cur, cands, x, n, d, multiset(FixedAfter(isCand, cur, KeepOf(cands), "", n - 1))[x],
                multiset(FilterOf(IsFixed(isCand), cur, n - 1))[x]);
  }

  lemma {:induction false} BucketsStep(isCand: string -> bool, cur: seq<string>, cands: seq<string>, x: string, n: nat, d: int, head: int, all: int)
    requires 0 < n <= |cur| && NoRepeats(cands) && "" !in cands && d == if !isCand(cur[n - 1]) && cur[n - 1] == x then 1 else 0
    requires all == head + SumOf(CountIn(isCand, cur, KeepOf(cands), x, n - 1), cands, |cands|)
    ensures all + d == (if Anchor(isCand, cur, KeepOf(cands), n - 1) == "" then head + d else head)
         + SumOf(CountIn(isCand, cur, KeepOf(cands), x, n), cands, |cands|)
  {
    var keep := KeepOf(cands);
    var f, g, a := CountIn(isCand, cur, keep, x, n - 1), CountIn(isCand, cur, keep, x, n), Anchor(isCand, cur, keep, n - 1);
    forall c | c in cands ensures g(c) == f(c) + if c == a then d else 0 { BucketStep(isCand, cur, keep, c, x, n); }
    BucketsAddUp(f, g, cands, a, d, head, all);
  }

  function Is(x: string): string -> int {
    (c: string) => if c == x then 1 else 0
  }

  lemma {:induction false} CountIs(xs: seq<string>, x: string)
    ensures multiset(xs)[x] == Total(Is(x), xs)
    decreases |xs|
  {
    if xs != [] {
      var n := |xs| - 1;
      CountIs(xs[..n], x);
      assert xs == xs[..n] + [xs[n]];
      TotalOne(Is(x), xs[..n], xs[n]);
    }
  }

  // Each candidate counts itself and its bucket.
  lemma {:induction false} GatherCounts(f: string -> seq<string>, g: string -> int, cands: seq<string>, x: string, n: nat)
    requires n <= |cands| && forall i :: 0 <= i < |cands| ==> multiset(f(cands[i]))[x] == Is(x)(cands[i]) + g(cands[i])
    ensures multiset(Gather(f, cands, 0, n))[x] == SumOf(Is(x), cands, n) + SumOf(g, cands, n)
  {
    if n > 0 {
      GatherCounts(f, g, cands, x, n - 1);
      CountConcat(Gather(f, cands, 0, n - 1), f(cands[n - 1]), x);
    }
  }

  /**
   * The merged pipeline holds the candidates asked for and every fixed component of the current one, each
   * as often as before, and nothing else.
   */
  lemma {:induction false} MergeLosesNothing(isCand: string -> bool, cur: seq<string>, cands: seq<string>)
    requires NoRepeats(cands) && "" !in cands
    ensures multiset(Merged(isCand, cur, cands)) == multiset(cands) + multiset(Filter(IsFixed(isCand), cur))
  {
    forall x ensures multiset(Merged(isCand, cur, cands))[x] == multiset(cands)[x] + multiset(Filter(IsFixed(isCand), cur))[x] {
      var f, g := WithFixed(isCand, cur, KeepOf(cands), |cur|), CountIn(isCand, cur, KeepOf(cands), x, |cur|);
      forall i | 0 <= i < |cands| ensures multiset(f(cands[i]))[x] == Is(x)(cands[i]) + g(cands[i]) {
        CountConcat([cands[i]], FixedAfter(isCand, cur, KeepOf(cands), cands[i], |cur|), x);
      }
      GatherCounts(f, g, cands, x, |cands|);
      CountIs(cands, x);
      FixedInBuckets(isCand, cur, cands, x, |cur|);
    }
  }

  // ---- The order is kept ---------------------------------------------------------------------------------------------

  function KeptCand(isCand: string -> bool, keep: set<string>): string -> bool {
    (c: string) => isCand(c) && c in keep
  }

  function Stays(isCand: string -> bool, keep: set<string>): string -> bool {
    (c: string) => !isCand(c) || c in keep
  }

  // The merge as far as the first n components of cur go.
  function MergedUpTo(isCand: string -> bool, cur: seq<string>, keep: set<string>, n: nat): seq<string>
    requires n <= |cur|
  {
    var ks := FilterOf(KeptCand(isCand, keep), cur, n);
    FixedAfter(isCand, cur, keep, "", n) + Gather(WithFixed(isCand, cur, keep, n), ks, 0, |ks|)
  }

  lemma {:induction false} GatherSame<T, U>(f: T -> seq<U>, g: T -> seq<U>, xs: seq<T>, lo: nat, hi: nat)
    requires lo <= hi <= |xs| && forall i :: lo <= i < hi ==> f(xs[i]) == g(xs[i])
    ensures Gather(f, xs, lo, hi) == Gather(g, xs, lo, hi)
    decreases hi
  {
    if lo < hi { GatherSame(f, g, xs, lo, hi - 1); }
  }

  // The anchor is the last candidate kept so far.
  lemma {:induction false} AnchorIsLast(isCand: string -> bool, cur: seq<string>, keep: set<string>, n: nat)
    requires n <= |cur| && "" !in keep
    ensures var ks, a := FilterOf(KeptCand(isCand, keep), cur, n), Anchor(isCand, cur, keep, n);
      if ks == [] then a == "" else a == ks[|ks| - 1] && a != ""
  {
    if n > 0 { AnchorIsLast(isCand, cur, keep, n - 1); }
  }

  // A name nothing has been anchored at yet has no bucket.
  lemma {:induction false} NoBucketYet(isCand: string -> bool, cur: seq<string>, keep: set<string>, c: string, n: nat)
    requires n <= |cur| && c != "" && c !in cur[..n]
    ensures FixedAfter(isCand, cur, keep, c, n) == []
  {
    if n > 0 {
      assert cur[..n] == cur[..n - 1] + [cur[n - 1]];
      NoBucketYet(isCand, cur, keep, c, n - 1);
    }
  }

  lemma {:induction false} FilterWithin<T>(f: T -> bool, xs: seq<T>, n: nat, x: T)
    requires n <= |xs| && x in FilterOf(f, xs, n)
    ensures f(x) && x in xs[..n]
  {
    if n > 0 {
      assert xs[..n] == xs[..n - 1] + [xs[n - 1]];
      if x in FilterOf(f, xs, n - 1) { FilterWithin(f, xs, n - 1, x); }
    }
  }

  // Only the last element's list grew, and by one entry.
  lemma {:induction false} LastGrew<T, U>(f: T -> seq<U>, g: T -> seq<U>, xs: seq<T>, y: U)
    requires xs != [] && g(xs[|xs| - 1]) == f(xs[|xs| - 1]) + [y]
    requires forall i :: 0 <= i < |xs| - 1 ==> g(xs[i]) == f(xs[i])
    ensures Gather(g, xs, 0, |xs|) == Gather(f, xs, 0, |xs|) + [y]
  {
    var m := |xs| - 1;
    GatherSame(f, g, xs, 0, m);
    Assoc(Gather(f, xs, 0, m), f(xs[m]), [y]);
  }

  // A fixed component joins the last candidate's bucket, which ends the list.
  lemma {:induction false} FixedStep(isCand: string -> bool, cur: seq<string>, keep: set<string>, n: nat)
    requires n < |cur| && NoRepeats(cur) && "" !in keep && !isCand(cur[n])
    ensures MergedUpTo(isCand, cur, keep, n + 1) == MergedUpTo(isCand, cur, keep, n) + [cur[n]]
  {
    var ks, f, g := FilterOf(KeptCand(isCand, keep), cur, n), WithFixed(isCand, cur, keep, n), WithFixed(isCand, cur, keep, n + 1);
    FilterStep(KeptCand(isCand, keep), cur, n);
    AnchorIsLast(isCand, cur, keep, n);
    if ks != [] {
      BucketGrew(isCand, cur, keep, n, ks);
      LastGrew(f, g, ks, cur[n]);
      Assoc(FixedAfter(isCand, cur, keep, "", n), Gather(f, ks, 0, |ks|), [cur[n]]);
    }
  }

  lemma {:induction false} BucketGrew(isCand: string -> bool, cur: seq<string>, keep: set<string>, n: nat, ks: seq<string>)
    requires n < |cur| && NoRepeats(cur) && "" !in keep && !isCand(cur[n]) && ks == FilterOf(KeptCand(isCand, keep), cur, n) && ks != []
    ensures WithFixed(isCand, cur, keep, n + 1)(ks[|ks| - 1]) == WithFixed(isCand, cur, keep, n)(ks[|ks| - 1]) + [cur[n]]
    ensures forall i :: 0 <= i < |ks| - 1 ==> WithFixed(isCand, cur, keep, n + 1)(ks[i]) == WithFixed(isCand, cur, keep, n)(ks[i])
  {
    AnchorIsLast(isCand, cur, keep, n);
    KeptNoRepeats(isCand, cur, keep, n);
    Assoc([ks[|ks| - 1]], FixedAfter(isCand, cur, keep, ks[|ks| - 1], n), [cur[n]]);
  }

  lemma {:induction false} KeptNoRepeats(isCand: string -> bool, cur: seq<string>, keep: set<string>, n: nat)
    requires n <= |cur| && NoRepeats(cur)
    ensures NoRepeats(FilterOf(KeptCand(isCand, keep), cur, n))
  {
    if n > 0 {
      KeptNoRepeats(isCand, cur, keep, n - 1);
      var ks := FilterOf(KeptCand(isCand, keep), cur, n - 1);
      forall i | 0 <= i < |ks| ensures ks[i] != cur[n - 1] { FilterWithin(KeptCand(isCand, keep), cur, n - 1, ks[i]); }
    }
  }

  // A candidate leaves every bucket alone.
  lemma {:induction false} CandLeavesBuckets(isCand: string -> bool, cur: seq<string>, keep: set<string>, n: nat)
    requires n < |cur| && isCand(cur[n])
    ensures var ks := FilterOf(KeptCand(isCand, keep), cur, n);
      Gather(WithFixed(isCand, cur, keep, n + 1), ks, 0, |ks|) == Gather(WithFixed(isCand, cur, keep, n), ks, 0, |ks|)
  {
    var ks := FilterOf(KeptCand(isCand, keep), cur, n);
    GatherSame(WithFixed(isCand, cur, keep, n + 1), WithFixed(isCand, cur, keep, n), ks, 0, |ks|);
  }

  lemma {:induction false} GatherOneMore<T, U>(f: T -> seq<U>, xs: seq<T>, x: T)
    ensures Gather(f, xs + [x], 0, |xs| + 1) == Gather(f, xs, 0, |xs|) + f(x)
  {
    GatherShift(f, xs, xs + [x], 0, |xs|, 0);
  }

  // A kept one starts a bucket of its own.
  lemma {:induction false} NewBucket(isCand: string -> bool, cur: seq<string>, keep: set<string>, n: nat)
    requires n < |cur| && NoRepeats(cur) && "" !in keep && isCand(cur[n]) && cur[n] in keep
    ensures WithFixed(isCand, cur, keep, n + 1)(cur[n]) == [cur[n]]
  {
    assert cur[n] !in cur[..n];
    NoBucketYet(isCand, cur, keep, cur[n], n);
  }

  lemma {:induction false} CandStep(isCand: string -> bool, cur: seq<string>, keep: set<string>, n: nat)
    requires n < |cur| && NoRepeats(cur) && "" !in keep && isCand(cur[n])
    ensures MergedUpTo(isCand, cur, keep, n + 1) == MergedUpTo(isCand, cur, keep, n) + if cur[n] in keep then [cur[n]] else []
  {
    var ks, g := FilterOf(KeptCand(isCand, keep), cur, n), WithFixed(isCand, cur, keep, n + 1);
    var head, body := FixedAfter(isCand, cur, keep, "", n), Gather(WithFixed(isCand, cur, keep, n), ks, 0, |ks|);
    FilterStep(KeptCand(isCand, keep), cur, n);
    CandLeavesBuckets(isCand, cur, keep, n);
    if cur[n] in keep {
      NewBucket(isCand, cur, keep, n);
      GatherOneMore(g, ks, cur[n]);
      Assoc(head, body, [cur[n]]);
    } else {
      assert MergedUpTo(isCand, cur, keep, n) + [] == MergedUpTo(isCand, cur, keep, n);
    }
  }

  lemma {:induction false} MergedStep(isCand: string -> bool, cur: seq<string>, keep: set<string>, n: nat)
    requires n < |cur| && NoRepeats(cur) && "" !in keep
    ensures var before := MergedUpTo(isCand, cur, keep, n);
      MergedUpTo(isCand, cur, keep, n + 1) == if Stays(isCand, keep)(cur[n]) then before + [cur[n]] else before
  {
    if isCand(cur[n]) { CandStep(isCand, cur, keep, n); } else { FixedStep(isCand, cur, keep, n); }
  }

  lemma {:induction false} NothingMerged(isCand: string -> bool, cur: seq<string>, keep: set<string>)
    ensures MergedUpTo(isCand, cur, keep, 0) == []
  {
  }

  lemma {:induction false} MergedIsFilter(isCand: string -> bool, cur: seq<string>, keep: set<string>, n: nat)
    requires n <= |cur| && NoRepeats(cur) && "" !in keep
    ensures MergedUpTo(isCand, cur, keep, n) == FilterOf(Stays(isCand, keep), cur, n)
  {
    if n == 0 {
      NothingMerged(isCand, cur, keep);
    } else {
      var k := n - 1;
      MergedIsFilter(isCand, cur, keep, k);
      MergedStep(isCand, cur, keep, k);
      FilterStep(Stays(isCand, keep), cur, k);
      assert MergedUpTo(isCand, cur, keep, k + 1) == FilterOf(Stays(isCand, keep), cur, k + 1);
    }
  }

  // Candidates asked for in the order they have: the current list minus the dropped ones.
  lemma {:induction false} SameOrderOnlyDrops(isCand: string -> bool, cur: seq<string>, cands: seq<string>)
    requires NoRepeats(cur) && "" !in cands && cands == Filter(KeptCand(isCand, KeepOf(cands)), cur)
    ensures Merged(isCand, cur, cands) == Filter(Stays(isCand, KeepOf(cands)), cur)
  {
    MergedIsFilter(isCand, cur, KeepOf(cands), |cur|);
  }

  // ---- Each bucket is kept --------------------------------------------------------------------------------------------

  lemma {:induction false} BucketPrefix(isCand: string -> bool, xs: seq<string>, ys: seq<string>, keep: set<string>, a: string, n: nat)
    requires n <= |xs|
    ensures Anchor(isCand, xs + ys, keep, n) == Anchor(isCand, xs, keep, n)
    ensures FixedAfter(isCand, xs + ys, keep, a, n) == FixedAfter(isCand, xs, keep, a, n)
  {
    if n > 0 { BucketPrefix(isCand, xs, ys, keep, a, n - 1); }
  }

  lemma {:induction false} BucketFixed(isCand: string -> bool, cur: seq<string>, keep: set<string>, a: string, n: nat)
    requires n <= |cur|
    ensures forall x :: x in FixedAfter(isCand, cur, keep, a, n) ==> !isCand(x)
  {
    if n > 0 { BucketFixed(isCand, cur, keep, a, n - 1); }
  }

  // Fixed components put at the end join the bucket of the last kept candidate.
  lemma {:induction false} FixedJoin(isCand: string -> bool, xs: seq<string>, ys: seq<string>, keep: set<string>, a: string, n: nat)
    requires n <= |ys| && forall i :: 0 <= i < |ys| ==> !isCand(ys[i])
    ensures Anchor(isCand, xs + ys, keep, |xs| + n) == Anchor(isCand, xs, keep, |xs|)
    ensures FixedAfter(isCand, xs + ys, keep, a, |xs| + n)
         == FixedAfter(isCand, xs, keep, a, |xs|) + if Anchor(isCand, xs, keep, |xs|) == a then ys[..n] else []
  {
    if n == 0 {
      BucketPrefix(isCand, xs, ys, keep, a, |xs|);
      assert ys[..0] == [];
    } else {
      FixedJoin(isCand, xs, ys, keep, a, n - 1);
      assert (xs + ys)[|xs| + n - 1] == ys[n - 1] && ys[..n] == ys[..n - 1] + [ys[n - 1]];
    }
  }

  lemma {:induction false} CandidateJoins(isCand: string -> bool, xs: seq<string>, c: string, keep: set<string>, a: string)
    requires isCand(c) && c in keep
    ensures Anchor(isCand, xs + [c], keep, |xs| + 1) == c
    ensures FixedAfter(isCand, xs + [c], keep, a, |xs| + 1) == FixedAfter(isCand, xs, keep, a, |xs|)
  {
    BucketPrefix(isCand, xs, [c], keep, a, |xs|);
  }

  // A candidate and its bucket put at the end.
  lemma {:induction false} BucketJoins(isCand: string -> bool, xs: seq<string>, c: string, ys: seq<string>, keep: set<string>, a: string)
    requires isCand(c) && c in keep && forall i :: 0 <= i < |ys| ==> !isCand(ys[i])
    ensures var zs := xs + ([c] + ys);
      && Anchor(isCand, zs, keep, |zs|) == c
      && FixedAfter(isCand, zs, keep, a, |zs|) == FixedAfter(isCand, xs, keep, a, |xs|) + if a == c then ys else []
  {
    CandidateJoins(isCand, xs, c, keep, a);
    FixedJoin(isCand, xs + [c], ys, keep, a, |ys|);
    Assoc(xs, [c], ys);
    assert ys[..|ys|] == ys;
  }

  // The merged list as far as the first n candidates go.
  function MergedFor(isCand: string -> bool, cur: seq<string>, cands: seq<string>, n: nat): seq<string>
    requires n <= |cands|
  {
    FixedAfter(isCand, cur, KeepOf(cands), "", |cur|) + Gather(WithFixed(isCand, cur, KeepOf(cands), |cur|), cands, 0, n)
  }

  lemma {:induction false} MergedForNext(isCand: string -> bool, cur: seq<string>, cands: seq<string>, n: nat)
    requires n < |cands|
    ensures MergedFor(isCand, cur, cands, n + 1)
         == MergedFor(isCand, cur, cands, n) + ([cands[n]] + FixedAfter(isCand, cur, KeepOf(cands), cands[n], |cur|))
  {
    Assoc(FixedAfter(isCand, cur, KeepOf(cands), "", |cur|), Gather(WithFixed(isCand, cur, KeepOf(cands), |cur|), cands, 0, n),
          WithFixed(isCand, cur, KeepOf(cands), |cur|)(cands[n]));
  }

  ghost predicate RealCands(isCand: string -> bool, cands: seq<string>) {
    NoRepeats(cands) && "" !in cands && forall i :: 0 <= i < |cands| ==> isCand(cands[i])
  }

  lemma {:induction false} BucketsSoFar(isCand: string -> bool, cur: seq<string>, cands: seq<string>, a: string, n: nat)
    requires n <= |cands| && RealCands(isCand, cands)
    ensures var out, keep := MergedFor(isCand, cur, cands, n), KeepOf(cands);
      FixedAfter(isCand, out, keep, a, |out|) == if a == "" || a in cands[..n] then FixedAfter(isCand, cur, keep, a, |cur|) else []
  {
    var keep := KeepOf(cands);
    if n == 0 {
      var head := FixedAfter(isCand, cur, keep, "", |cur|);
      BucketFixed(isCand, cur, keep, "", |cur|);
      FixedJoin(isCand, [], head, keep, a, |head|);
      assert head + [] == head && [] + head == head && head[..|head|] == head && MergedFor(isCand, cur, cands, 0) == head;
    } else {
      var k := n - 1;
      BucketsSoFar(isCand, cur, cands, a, k);
      MergedForNext(isCand, cur, cands, k);
      BucketFixed(isCand, cur, keep, cands[k], |cur|);
      BucketJoins(isCand, MergedFor(isCand, cur, cands, k), cands[k], FixedAfter(isCand, cur, keep, cands[k], |cur|), keep, a);
      assert cands[..n] == cands[..k] + [cands[k]];
    }
  }

  /**
   * Every fixed component comes after the same kept candidate as before, or before all of them as before, in
   * the same order as the others there.
   */
  lemma {:induction false} BucketsAreKept(isCand: string -> bool, cur: seq<string>, cands: seq<string>, a: string)
    requires RealCands(isCand, cands) && (a == "" || a in cands)
    ensures var out, keep := Merged(isCand, cur, cands), KeepOf(cands);
      FixedAfter(isCand, out, keep, a, |out|) == FixedAfter(isCand, cur, keep, a, |cur|)
  {
    BucketsSoFar(isCand, cur, cands, a, |cands|);
    assert cands[..|cands|] == cands;
  }

  lemma {:induction false} NoCandidates(isCand: string -> bool, ys: seq<string>, n: nat)
    requires n <= |ys| && forall i :: 0 <= i < |ys| ==> !isCand(ys[i])
    ensures FilterOf(isCand, ys, n) == []
  {
    if n > 0 { NoCandidates(isCand, ys, n - 1); }
  }

  lemma {:induction false} OrderSoFar(isCand: string -> bool, cur: seq<string>, cands: seq<string>, n: nat)
    requires n <= |cands| && RealCands(isCand, cands)
    ensures Filter(isCand, MergedFor(isCand, cur, cands, n)) == cands[..n]
  {
    var keep := KeepOf(cands);
    if n == 0 {
      var head := FixedAfter(isCand, cur, keep, "", |cur|);
      BucketFixed(isCand, cur, keep, "", |cur|);
      NoCandidates(isCand, head, |head|);
      assert head + [] == head && cands[..0] == [] && MergedFor(isCand, cur, cands, 0) == head;
    } else {
      var k := n - 1;
      var c, ys := cands[k], FixedAfter(isCand, cur, keep, cands[k], |cur|);
      OrderSoFar(isCand, cur, cands, k);
      MergedForNext(isCand, cur, cands, k);
      BucketFixed(isCand, cur, keep, c, |cur|);
      NoCandidates(isCand, ys, |ys|);
      FilterConcat(isCand, MergedFor(isCand, cur, cands, k), [c] + ys);
      FilterConcat(isCand, [c], ys);
      FilterOne(isCand, [], c);
      assert [] + [c] == [c] && cands[..n] == cands[..k] + [c] && [c] + [] == [c];
    }
  }

  // And the candidates stand in the order asked for.
  lemma {:induction false} CandsInOrder(isCand: string -> bool, cur: seq<string>, cands: seq<string>)
    requires RealCands(isCand, cands)
    ensures Filter(isCand, Merged(isCand, cur, cands)) == cands
  {
    OrderSoFar(isCand, cur, cands, |cands|);
    assert cands[..|cands|] == cands;
  }

  // ---- preserveUnmodelled --------------------------------------------------------------------------------------------

  predicate Unmodelled(resolved: seq<string>, sent: seq<string>, known: seq<string>, name: string) {
    name !in resolved && name !in sent && name !in known
  }

  function Inserted(out: seq<string>, i: nat, name: string): seq<string> {
    var at := if i > |out| then |out| else i;
    out[..at] + [name] + out[at..]
  }

  function Preserved(was: seq<string>, resolved: seq<string>, sent: seq<string>, known: seq<string>, n: nat): seq<string>
    requires n <= |was|
  {
    if n == 0 then resolved
    else
      var out, name := Preserved(was, resolved, sent, known, n - 1), was[n - 1];
      if name in out || name in sent || name in known then out else Inserted(out, n - 1, name)
  }

  method PreserveUnmodelled(was: seq<string>, resolved: seq<string>, sent: seq<string>, known: seq<string>) returns (out: seq<string>)
    ensures out == Preserved(was, resolved, sent, known, |was|)
  {
    out := resolved;
    for i := 0 to |was|
      invariant out == Preserved(was, resolved, sent, known, i)
    {
      var name := was[i];
      if !(name in out || name in sent || name in known) {
        var at := if i > |out| then |out| else i;
        out := out[..at] + [name] + out[at..];
      }
    }
  }

  lemma {:induction false} InsertedHas(out: seq<string>, i: nat, name: string, x: string)
    ensures x in Inserted(out, i, name) <==> x in out || x == name
  {
    var at := if i > |out| then |out| else i;
    assert out == out[..at] + out[at..];
  }

  function In(resolved: seq<string>): string -> bool {
    (x: string) => x in resolved
  }

  lemma {:induction false} InsertedKeeps(resolved: seq<string>, out: seq<string>, i: nat, name: string)
    requires name !in resolved
    ensures Filter(In(resolved), Inserted(out, i, name)) == Filter(In(resolved), out)
  {
    var at := if i > |out| then |out| else i;
    var front, back := out[..at], out[at..];
    FilterConcat(In(resolved), front + [name], back);
    FilterOne(In(resolved), front, name);
    FilterConcat(In(resolved), front, back);
    assert out == front + back;
  }

  lemma {:induction false} FilterAll(resolved: seq<string>, n: nat)
    requires n <= |resolved|
    ensures FilterOf(In(resolved), resolved, n) == resolved[..n]
  {
    if n > 0 {
      FilterAll(resolved, n - 1);
      assert resolved[..n] == resolved[..n - 1] + [resolved[n - 1]];
    } else {
      assert resolved[..0] == [];
    }
  }

  // What is written keeps its order, and what is added to it is exactly the stored names nobody spoke for.
  lemma {:induction false} PreservesAndAdds(was: seq<string>, resolved: seq<string>, sent: seq<string>, known: seq<string>, n: nat)
    requires n <= |was|
    ensures var out := Preserved(was, resolved, sent, known, n);
      && Filter(In(resolved), out) == resolved
      && forall x :: x in out <==> x in resolved || (x in was[..n] && Unmodelled(resolved, sent, known, x))
  {
    if n == 0 {
      FilterAll(resolved, |resolved|);
      assert was[..0] == [];
    } else {
      PreservesAndAdds(was, resolved, sent, known, n - 1);
      var out, name := Preserved(was, resolved, sent, known, n - 1), was[n - 1];
      assert was[..n] == was[..n - 1] + [name];
      if !(name in out || name in sent || name in known) {
        InsertedKeeps(resolved, out, n - 1, name);
        forall x ensures x in Inserted(out, n - 1, name) <==> x in out || x == name { InsertedHas(out, n - 1, name, x); }
      }
    }
  }

  // Each added name is added once.
  lemma {:induction false} AddsOnce(was: seq<string>, resolved: seq<string>, sent: seq<string>, known: seq<string>, n: nat)
    requires n <= |was| && NoRepeats(resolved)
    ensures NoRepeats(Preserved(was, resolved, sent, known, n))
  {
    if n > 0 {
      AddsOnce(was, resolved, sent, known, n - 1);
      var out, name := Preserved(was, resolved, sent, known, n - 1), was[n - 1];
      if !(name in out || name in sent || name in known) { InsertNoRepeats(out, n - 1, name); }
    }
  }

  lemma {:induction false} InsertNoRepeats(out: seq<string>, k: nat, name: string)
    requires NoRepeats(out) && name !in out
    ensures NoRepeats(Inserted(out, k, name))
  {
    var at, more := if k > |out| then |out| else k, Inserted(out, k, name);
    forall i, j | 0 <= i < j < |more| ensures more[i] != more[j] {
      assert more[i] == if i < at then out[i] else if i == at then name else out[i - 1];
      assert more[j] == if j < at then out[j] else if j == at then name else out[j - 1];
    }
  }

  // ---- Where an added name lands ---------------------------------------------------------------------------------------

  // Stored name i is added back: nobody spoke for it, and it was not stored before.
  predicate Added(was: seq<string>, resolved: seq<string>, sent: seq<string>, known: seq<string>, i: nat)
    requires i < |was|
  {
    Unmodelled(resolved, sent, known, was[i]) && was[i] !in was[..i]
  }

  function AddedBefore(was: seq<string>, resolved: seq<string>, sent: seq<string>, known: seq<string>, n: nat): nat
    requires n <= |was|
  {
    if n == 0 then 0
    else AddedBefore(was, resolved, sent, known, n - 1) + if Added(was, resolved, sent, known, n - 1) then 1 else 0
  }

  // The index it held, or the end of a list that is not that long yet.
  function Landing(was: seq<string>, resolved: seq<string>, sent: seq<string>, known: seq<string>, i: nat): nat
    requires i < |was|
  {
    var length := |resolved| + AddedBefore(was, resolved, sent, known, i);
    if i <= length then i else length
  }

  // Added names land in the order they were stored in.
  lemma {:induction false} LandingsClimb(was: seq<string>, resolved: seq<string>, sent: seq<string>, known: seq<string>, i: nat, j: nat)
    requires i < j < |was| && Added(was, resolved, sent, known, i)
    ensures AddedBefore(was, resolved, sent, known, i) < AddedBefore(was, resolved, sent, known, j)
    ensures Landing(was, resolved, sent, known, i) < Landing(was, resolved, sent, known, j)
  {
    if i < j - 1 { LandingsClimb(was, resolved, sent, known, i, j - 1); }
  }

  lemma {:induction false} AddsNext(was: seq<string>, resolved: seq<string>, sent: seq<string>, known: seq<string>, n: nat)
    requires n < |was|
    ensures var out, name := Preserved(was, resolved, sent, known, n), was[n];
      Added(was, resolved, sent, known, n) <==> !(name in out || name in sent || name in known)
  {
    PreservesAndAdds(was, resolved, sent, known, n);
  }

  lemma {:induction false} InsertedAt(out: seq<string>, i: nat, name: string)
    ensures var at := if i <= |out| then i else |out|;
      && |Inserted(out, i, name)| == |out| + 1 && Inserted(out, i, name)[at] == name
      && Inserted(out, i, name)[..at] == out[..at]
  {
  }

  /**
   * Every added name stands at the index it held when stored, or, where the list was shorter when it was added,
   * right after all it then held.
   */
  lemma {:induction false} AddedLand(was: seq<string>, resolved: seq<string>, sent: seq<string>, known: seq<string>, n: nat)
    requires n <= |was|
    ensures |Preserved(was, resolved, sent, known, n)| == |resolved| + AddedBefore(was, resolved, sent, known, n)
    ensures forall i :: 0 <= i < n && Added(was, resolved, sent, known, i) ==>
      var at := Landing(was, resolved, sent, known, i);
      at < |Preserved(was, resolved, sent, known, n)| && Preserved(was, resolved, sent, known, n)[at] == was[i]
  {
    if n > 0 {
      var k := n - 1;
      AddedLand(was, resolved, sent, known, k);
      AddsNext(was, resolved, sent, known, k);
      var out := Preserved(was, resolved, sent, known, k);
      if Added(was, resolved, sent, known, k) {
        InsertedAt(out, k, was[k]);
        var after, at := Inserted(out, k, was[k]), Landing(was, resolved, sent, known, k);
        forall i | 0 <= i < k && Added(was, resolved, sent, known, i) ensures after[Landing(was, resolved, sent, known, i)] == was[i] {
          LandingsClimb(was, resolved, sent, known, i, k);
          assert after[..at][Landing(was, resolved, sent, known, i)] == out[..at][Landing(was, resolved, sent, known, i)];
        }
      }
    }
  }

  lemma {:induction false} NoneAdded(was: seq<string>, resolved: seq<string>, sent: seq<string>, known: seq<string>, m: nat, n: nat)
    requires m <= n <= |was| && forall i :: m <= i < n ==> !Added(was, resolved, sent, known, i)
    ensures Preserved(was, resolved, sent, known, n) == Preserved(was, resolved, sent, known, m)
  {
    if m < n {
      NoneAdded(was, resolved, sent, known, m, n - 1);
      AddsNext(was, resolved, sent, known, n - 1);
    }
  }

  // The one name nobody spoke for goes back where it was, or to the end of a shorter list.
  lemma {:induction false} OneAdded(was: seq<string>, resolved: seq<string>, sent: seq<string>, known: seq<string>, i: nat)
    requires i < |was| && forall j :: 0 <= j < |was| ==> (Added(was, resolved, sent, known, j) <==> j == i)
    ensures var m := if i <= |resolved| then i else |resolved|;
      Preserved(was, resolved, sent, known, |was|) == resolved[..m] + [was[i]] + resolved[m..]
  {
    NoneAdded(was, resolved, sent, known, 0, i);
    AddsNext(was, resolved, sent, known, i);
    NoneAdded(was, resolved, sent, known, i + 1, |was|);
  }

  // ---- When the stored list comes back ---------------------------------------------------------------------------------

  // The post only left out stored names nobody spoke for, and kept the rest in order.
  ghost predicate OnlyOmitsUnmodelled(was: seq<string>, resolved: seq<string>, sent: seq<string>, known: seq<string>) {
    resolved == Filter(In(resolved), was) && forall x :: x in was ==> x in resolved || Unmodelled(resolved, sent, known, x)
  }

  lemma {:induction false} RestoredUpTo(was: seq<string>, resolved: seq<string>, sent: seq<string>, known: seq<string>, n: nat)
    requires n <= |was| && NoRepeats(was) && OnlyOmitsUnmodelled(was, resolved, sent, known)
    ensures Preserved(was, resolved, sent, known, n) == was[..n] + Filter(In(resolved), was[n..])
  {
    if n == 0 {
      assert was[0..] == was && was[..0] == [];
    } else {
      RestoredUpTo(was, resolved, sent, known, n - 1);
      assert was[n - 1] in was;
      RestoreNext(was, resolved, sent, known, n);
    }
  }

  lemma {:induction false} RestoreNext(was: seq<string>, resolved: seq<string>, sent: seq<string>, known: seq<string>, n: nat)
    requires 0 < n <= |was| && NoRepeats(was) && (was[n - 1] in resolved || Unmodelled(resolved, sent, known, was[n - 1]))
    requires Preserved(was, resolved, sent, known, n - 1) == was[..n - 1] + Filter(In(resolved), was[n - 1..])
    ensures Preserved(was, resolved, sent, known, n) == was[..n] + Filter(In(resolved), was[n..])
  {
    FilterFrom(resolved, was, n - 1);
    FilterInside(resolved, was[n..]);
    RestoreStep(was, resolved, sent, known, n, Filter(In(resolved), was[n..]));
  }

  lemma {:induction false} FilterInside(resolved: seq<string>, rest: seq<string>)
    ensures forall x :: x in Filter(In(resolved), rest) ==> x in resolved
  {
    forall x | x in Filter(In(resolved), rest) ensures x in resolved { FilterHas(In(resolved), rest, x); }
  }

  lemma {:induction false} FilterFrom(resolved: seq<string>, was: seq<string>, k: nat)
    requires k < |was|
    ensures Filter(In(resolved), was[k..]) == (if was[k] in resolved then [was[k]] else []) + Filter(In(resolved), was[k + 1..])
  {
    assert was[k..] == [was[k]] + was[k + 1..];
    FilterConcat(In(resolved), [was[k]], was[k + 1..]);
    FilterOne(In(resolved), [], was[k]);
    assert [] + [was[k]] == [was[k]];
  }

  lemma {:induction false} RestoreStep(was: seq<string>, resolved: seq<string>, sent: seq<string>, known: seq<string>, n: nat, rest: seq<string>)
    requires 0 < n <= |was| && NoRepeats(was) && (was[n - 1] in resolved || Unmodelled(resolved, sent, known, was[n - 1]))
    requires forall x :: x in rest ==> x in resolved
    requires Preserved(was, resolved, sent, known, n - 1) == was[..n - 1] + ((if was[n - 1] in resolved then [was[n - 1]] else []) + rest)
    ensures Preserved(was, resolved, sent, known, n) == was[..n] + rest
  {
    var out, name := Preserved(was, resolved, sent, known, n - 1), was[n - 1];
    assert was[..n] == was[..n - 1] + [name];
    if name in resolved {
      assert out[n - 1] == name;
      Assoc(was[..n - 1], [name], rest);
    } else {
      assert [] + rest == rest;
      assert name !in was[..n - 1];
      assert out[..n - 1] == was[..n - 1] && out[n - 1..] == rest;
    }
  }

  // The stored list comes back exactly when the post only left out names nobody spoke for.
  lemma {:induction false} RestoresIff(was: seq<string>, resolved: seq<string>, sent: seq<string>, known: seq<string>)
    requires NoRepeats(was)
    ensures Preserved(was, resolved, sent, known, |was|) == was <==> OnlyOmitsUnmodelled(was, resolved, sent, known)
  {
    PreservesAndAdds(was, resolved, sent, known, |was|);
    assert was[..|was|] == was;
    if OnlyOmitsUnmodelled(was, resolved, sent, known) {
      RestoredUpTo(was, resolved, sent, known, |was|);
      assert was[|was|..] == [];
    }
  }
}
