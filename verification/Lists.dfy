/**
 * What the other modules share: an option type, small helpers, concatenation facts, and gathering what a
 * function lists for each element of a range.
 */
module Lists {
  datatype Option<T> = None | Some(value: T)

  function Max(a: nat, b: nat): nat {
    if a < b then b else a
  }

  // A map read as counts or times, zero where it has none.
  function Lookup<K>(m: map<K, nat>, k: K): nat {
    if k in m then m[k] else 0
  }

  predicate OccursAt(s: string, i: int, pat: string) {
    0 <= i && i + |pat| <= |s| && s[i..i + |pat|] == pat
  }

  // Facts about concatenation, stated once so that no proof has to rediscover them.
  lemma {:induction false} Assoc<T>(a: seq<T>, b: seq<T>, c: seq<T>)
    ensures a + b + c == a + (b + c)
  {
  }

  lemma {:induction false} InitOf<T>(a: seq<T>, b: seq<T>)
    requires b != []
    ensures a + b != [] && (a + b)[..|a + b| - 1] == a + b[..|b| - 1] && (a + b)[|a + b| - 1] == b[|b| - 1]
  {
  }

  lemma {:induction false} FourParts<T>(a: seq<T>, b: seq<T>, c: seq<T>, d: seq<T>)
    ensures a + (b + c + d) == a + b + c + d
    ensures c == [] ==> a + (b + c + d) == a + b + d
  {
  }

  lemma {:induction false} FiveParts<T>(a: seq<T>, b: seq<T>, c: seq<T>, d: seq<T>, e: seq<T>)
    ensures a + (b + c + d) + e == a + b + c + (d + e)
  {
  }

  // What f lists for each of xs[lo..hi], in order.
  function Gather<T, U>(f: T -> seq<U>, xs: seq<T>, lo: nat, hi: nat): seq<U>
    requires lo <= hi <= |xs|
    decreases hi - lo
  {
    if lo == hi then [] else Gather(f, xs, lo, hi - 1) + f(xs[hi - 1])
  }

  lemma {:induction false} GatherSplit<T, U>(f: T -> seq<U>, xs: seq<T>, lo: nat, mid: nat, hi: nat)
    requires lo <= mid <= hi <= |xs|
    ensures Gather(f, xs, lo, hi) == Gather(f, xs, lo, mid) + Gather(f, xs, mid, hi)
    decreases hi - mid
  {
    if mid < hi {
      GatherSplit(f, xs, lo, mid, hi - 1);
      Assoc(Gather(f, xs, lo, mid), Gather(f, xs, mid, hi - 1), f(xs[hi - 1]));
    }
  }

  // The same elements gather the same, wherever they sit.
  lemma {:induction false} GatherShift<T, U>(f: T -> seq<U>, xs: seq<T>, ys: seq<T>, lo: nat, hi: nat, at: nat)
    requires lo <= hi <= |xs| && at + hi - lo <= |ys|
    requires forall i :: lo <= i < hi ==> ys[at + i - lo] == xs[i]
    ensures Gather(f, ys, at, at + hi - lo) == Gather(f, xs, lo, hi)
    decreases hi - lo
  {
    if lo < hi {
      GatherShift(f, xs, ys, lo, hi - 1, at);
      assert ys[at + (hi - 1) - lo] == xs[hi - 1];
    }
  }

  lemma {:induction false} GatherConcat<T, U>(f: T -> seq<U>, a: seq<T>, b: seq<T>)
    ensures Gather(f, a + b, 0, |a + b|) == Gather(f, a, 0, |a|) + Gather(f, b, 0, |b|)
  {
    GatherSplit(f, a + b, 0, |a|, |a + b|);
    GatherShift(f, a, a + b, 0, |a|, 0);
    GatherShift(f, b, a + b, 0, |b|, |a|);
  }

  // One element replaced: what it lists stands between what comes before and after it.
  lemma {:induction false} GatherAround<T, U>(f: T -> seq<U>, xs: seq<T>, i: nat, x: T)
    requires i < |xs|
    ensures Gather(f, xs[i := x], 0, |xs|) == Gather(f, xs, 0, i) + f(x) + Gather(f, xs, i + 1, |xs|)
  {
    var ys := xs[i := x];
    GatherSplit(f, ys, 0, i + 1, |xs|);
    GatherShift(f, xs, ys, 0, i, 0);
    GatherShift(f, xs, ys, i + 1, |xs|, i + 1);
  }

  lemma {:induction false} NothingListed<T, U>(f: T -> seq<U>, xs: seq<T>, lo: nat, hi: nat)
    requires lo <= hi <= |xs| && forall i :: lo <= i < hi ==> f(xs[i]) == []
    ensures Gather(f, xs, lo, hi) == []
    decreases hi
  {
    if lo < hi { NothingListed(f, xs, lo, hi - 1); }
  }

  // What f lists for each of the first n elements and its position, in order.
  function Flat<T, U>(f: (nat, T) -> seq<U>, xs: seq<T>, n: nat): seq<U>
    requires n <= |xs|
  {
    if n == 0 then [] else Flat(f, xs, n - 1) + f(n - 1, xs[n - 1])
  }

  function Off<T, U>(f: (nat, T) -> seq<U>, xs: seq<T>, n: nat): nat
    requires n <= |xs|
  {
    |Flat(f, xs, n)|
  }

  lemma {:induction false} FlatPrefix<T, U>(f: (nat, T) -> seq<U>, xs: seq<T>, i: nat, n: nat)
    requires i <= n <= |xs|
    ensures Off(f, xs, i) <= Off(f, xs, n)
    ensures Flat(f, xs, n)[..Off(f, xs, i)] == Flat(f, xs, i)
    decreases n
  {
    if i < n { FlatPrefix(f, xs, i, n - 1); }
  }

  lemma {:induction false} FlatAt<T, U>(f: (nat, T) -> seq<U>, xs: seq<T>, n: nat, i: nat, k: nat)
    requires i < n <= |xs| && k < |f(i, xs[i])|
    ensures Off(f, xs, i) + k < Off(f, xs, n) && Flat(f, xs, n)[Off(f, xs, i) + k] == f(i, xs[i])[k]
  {
    FlatPrefix(f, xs, i + 1, n);
    assert Flat(f, xs, n)[Off(f, xs, i) + k] == Flat(f, xs, i + 1)[Off(f, xs, i) + k];
  }

  // Every position of the list belongs to one element.
  lemma {:induction false} FlatOwner<T, U>(f: (nat, T) -> seq<U>, xs: seq<T>, n: nat, q: nat) returns (i: nat, k: nat)
    requires n <= |xs| && q < Off(f, xs, n)
    ensures i < n && k < |f(i, xs[i])| && q == Off(f, xs, i) + k && Flat(f, xs, n)[q] == f(i, xs[i])[k]
  {
    if q < Off(f, xs, n - 1) {
      i, k := FlatOwner(f, xs, n - 1, q);
    } else {
      i, k := n - 1, q - Off(f, xs, n - 1);
    }
  }

  // One element in place of those from first to last.
  lemma {:induction false} GatherReplaced<T, U>(f: T -> seq<U>, xs: seq<T>, first: nat, last: nat, y: T)
    requires first <= last < |xs|
    ensures var ys := xs[..first] + [y] + xs[last + 1..];
      Gather(f, ys, 0, |ys|) == Gather(f, xs, 0, first) + f(y) + Gather(f, xs, last + 1, |xs|)
  {
    var ys := xs[..first] + [y] + xs[last + 1..];
    GatherSplit(f, ys, 0, first + 1, |ys|);
    GatherShift(f, xs, ys, 0, first, 0);
    GatherShift(f, xs, ys, last + 1, |xs|, first + 1);
  }

  // A list cut at off(0), off(1), ... into what f lists for each element.
  predicate Slices<T, U(==)>(f: T -> seq<U>, xs: seq<T>, whole: seq<U>, off: nat -> nat, i: nat)
    requires i < |xs|
  {
    off(i) <= off(i + 1) <= |whole| && f(xs[i]) == whole[off(i)..off(i + 1)]
  }

  lemma {:induction false} GatherSlices<T, U>(f: T -> seq<U>, xs: seq<T>, whole: seq<U>, off: nat -> nat, lo: nat, hi: nat)
    requires lo <= hi <= |xs| && off(lo) <= |whole| && forall i: nat :: i < |xs| ==> Slices(f, xs, whole, off, i)
    ensures off(lo) <= off(hi) <= |whole| && Gather(f, xs, lo, hi) == whole[off(lo)..off(hi)]
    decreases hi
  {
    if lo < hi {
      GatherSlices(f, xs, whole, off, lo, hi - 1);
      assert Slices(f, xs, whole, off, hi - 1);
    }
  }

  lemma {:induction false} GatherEnds<T, U>(f: T -> seq<U>, xs: seq<T>, whole: seq<U>, off: nat -> nat, i: nat, j: nat)
    requires i <= j <= |xs| && off(0) == 0 && off(|xs|) == |whole|
    requires forall k: nat :: k < |xs| ==> Slices(f, xs, whole, off, k)
    ensures off(i) <= |whole| && off(j) <= |whole|
    ensures Gather(f, xs, 0, i) == whole[..off(i)] && Gather(f, xs, j, |xs|) == whole[off(j)..]
  {
    GatherSlices(f, xs, whole, off, 0, i);
    GatherSlices(f, xs, whole, off, 0, j);
    GatherSlices(f, xs, whole, off, j, |xs|);
  }

  // What f adds up to over the first n elements, and over all of them.
  function SumOf<T>(f: T -> int, xs: seq<T>, n: nat): int
    requires n <= |xs|
  {
    if n == 0 then 0 else SumOf(f, xs, n - 1) + f(xs[n - 1])
  }

  function Total<T>(f: T -> int, xs: seq<T>): int {
    SumOf(f, xs, |xs|)
  }

  lemma {:induction false} SumSame<T, V>(f: T -> int, xs: seq<T>, g: V -> int, ys: seq<V>, n: nat)
    requires n <= |xs| && n <= |ys| && forall i :: 0 <= i < n ==> f(xs[i]) == g(ys[i])
    ensures SumOf(f, xs, n) == SumOf(g, ys, n)
  {
    if n > 0 { SumSame(f, xs, g, ys, n - 1); }
  }

  lemma {:induction false} SumConcat<T>(f: T -> int, a: seq<T>, b: seq<T>, n: nat)
    requires n <= |b|
    ensures SumOf(f, a + b, |a| + n) == Total(f, a) + SumOf(f, b, n)
  {
    if n == 0 { SumSame(f, a, f, a + b, |a|); } else { SumConcat(f, a, b, n - 1); }
  }

  lemma {:induction false} TotalConcat<T>(f: T -> int, a: seq<T>, b: seq<T>)
    ensures Total(f, a + b) == Total(f, a) + Total(f, b)
  {
    SumConcat(f, a, b, |b|);
  }

  lemma {:induction false} TotalOne<T>(f: T -> int, a: seq<T>, x: T)
    ensures Total(f, a + [x]) == Total(f, a) + f(x)
  {
    SumSame(f, a, f, a + [x], |a|);
  }

  lemma {:induction false} TotalZero<T>(f: T -> int, xs: seq<T>, n: nat)
    requires n <= |xs| && forall i :: 0 <= i < |xs| ==> f(xs[i]) == 0
    ensures SumOf(f, xs, n) == 0
  {
    if n > 0 { TotalZero(f, xs, n - 1); }
  }

  // The order of the elements does not matter.
  lemma {:induction false} TotalPermuted<T>(f: T -> int, a: seq<T>, b: seq<T>)
    requires multiset(a) == multiset(b)
    ensures Total(f, a) == Total(f, b)
    decreases |a|
  {
    if a == [] {
      assert multiset(b) == multiset{};
      assert b == [];
    } else {
      var n := |a| - 1;
      var x, init := a[n], a[..n];
      assert a == init + [x];
      assert x in multiset(b);
      var i :| 0 <= i < |b| && b[i] == x;
      TakenOut(f, b, i);
      var rest := b[..i] + b[i + 1..];
      assert multiset(a) == multiset(init) + multiset{x};
      OneLess(multiset(init), multiset(rest), x);
      TotalPermuted(f, init, rest);
      TotalOne(f, init, x);
    }
  }

  lemma {:induction false} OneLess<T>(a: multiset<T>, b: multiset<T>, x: T)
    requires a + multiset{x} == b + multiset{x}
    ensures a == b
  {
    assert a == (a + multiset{x}) - multiset{x};
    assert b == (b + multiset{x}) - multiset{x};
  }

  lemma {:induction false} TakenOut<T>(f: T -> int, b: seq<T>, i: nat)
    requires i < |b|
    ensures multiset(b) == multiset(b[..i] + b[i + 1..]) + multiset{b[i]}
    ensures Total(f, b) == Total(f, b[..i] + b[i + 1..]) + f(b[i])
  {
    var front, back := b[..i], b[i + 1..];
    assert b == front + [b[i]] + back;
    TotalConcat(f, front + [b[i]], back);
    TotalOne(f, front, b[i]);
    TotalConcat(f, front, back);
  }

  // Those of the first n elements that pass, in order.
  function FilterOf<T>(f: T -> bool, xs: seq<T>, n: nat): seq<T>
    requires n <= |xs|
  {
    if n == 0 then [] else FilterOf(f, xs, n - 1) + if f(xs[n - 1]) then [xs[n - 1]] else []
  }

  function Filter<T>(f: T -> bool, xs: seq<T>): seq<T> {
    FilterOf(f, xs, |xs|)
  }

  lemma {:induction false} FilterStep<T>(f: T -> bool, xs: seq<T>, n: nat)
    requires n < |xs|
    ensures FilterOf(f, xs, n + 1) == if f(xs[n]) then FilterOf(f, xs, n) + [xs[n]] else FilterOf(f, xs, n)
  {
  }

  lemma {:induction false} FilterPrefix<T>(f: T -> bool, xs: seq<T>, ys: seq<T>, n: nat)
    requires n <= |xs| && n <= |ys| && forall i :: 0 <= i < n ==> xs[i] == ys[i]
    ensures FilterOf(f, xs, n) == FilterOf(f, ys, n)
  {
    if n > 0 { FilterPrefix(f, xs, ys, n - 1); }
  }

  lemma {:induction false} FilterOne<T>(f: T -> bool, xs: seq<T>, x: T)
    ensures Filter(f, xs + [x]) == Filter(f, xs) + if f(x) then [x] else []
  {
    FilterPrefix(f, xs + [x], xs, |xs|);
  }

  lemma {:induction false} FilterConcat<T>(f: T -> bool, a: seq<T>, b: seq<T>)
    ensures Filter(f, a + b) == Filter(f, a) + Filter(f, b)
    decreases |b|
  {
    if b == [] {
      assert a + b == a;
    } else {
      var n := |b| - 1;
      var init, x := b[..n], b[n];
      FilterConcat(f, a, init);
      FilterOne(f, a + init, x);
      FilterOne(f, init, x);
      assert b == init + [x];
      Assoc(a, init, [x]);
      Assoc(Filter(f, a), Filter(f, init), if f(x) then [x] else []);
    }
  }

  lemma {:induction false} CountConcat<T>(a: seq<T>, b: seq<T>, x: T)
    ensures multiset(a + b)[x] == multiset(a)[x] + multiset(b)[x]
  {
  }

  // How often an element is left.
  lemma {:induction false} FilterCount<T>(f: T -> bool, xs: seq<T>, x: T)
    ensures multiset(Filter(f, xs))[x] == if f(x) then multiset(xs)[x] else 0
    decreases |xs|
  {
    if xs != [] {
      var n := |xs| - 1;
      var init, last := xs[..n], xs[n];
      FilterCount(f, init, x);
      FilterOne(f, init, last);
      CountConcat(Filter(f, init), if f(last) then [last] else [], x);
      CountConcat(init, [last], x);
      assert xs == init + [last];
    }
  }

  lemma {:induction false} FilterHas<T>(f: T -> bool, xs: seq<T>, x: T)
    ensures multiset(Filter(f, xs))[x] == if f(x) then multiset(xs)[x] else 0
    ensures x in Filter(f, xs) <==> x in xs && f(x)
  {
    FilterCount(f, xs, x);
    assert x in xs <==> x in multiset(xs);
    assert x in Filter(f, xs) <==> x in multiset(Filter(f, xs));
  }
}
