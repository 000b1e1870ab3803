/**
 * Reading the declaration sets in rowid slices (carriedSets in dash/adapttools.go, staleRules in
 * dash/stalekind.go): any number of slices gives the sets of one pass.
 */
module CarriedRead {
  import opened Lists
  import opened CarriedSets

  // ---- Merging -----------------------------------------------------------------------------------------------

  lemma {:induction false} MergedPair(keyOf: Row -> string, d: Decls, e: Decls, a: seq<Row>, b: seq<Row>, p: Pair)
    requires Inverse(d.ids, d.keys) && Inverse(e.ids, e.keys) && PairRight(keyOf, d, a, p) && PairRight(keyOf, e, b, p)
    ensures PairRight(keyOf, Merged(d, e), a + b, p)
  {
    var all := InternedAll(d, e.keys, |e.keys|);
    var remap := RemapOf(all, e.keys);
    InternAllKeeps(d, e.keys, |e.keys|);
    TouchedBoth(a, b, p);
    if p in d.sets { LiftKeys(keyOf, d.sets[p], d.keys, all.keys, a, p); }
    if p in e.sets { MovedRight(keyOf, e, all.keys, remap, b, p); }
    if p in d.sets && p in e.sets {
      JoinRight(keyOf, d.sets[p], Moved(e, remap, p), all.keys, a, b, p);
    } else if p in d.sets {
      AloneRight(keyOf, d.sets[p], all.keys, a, b, p);
    } else if p in e.sets {
      AloneRight(keyOf, Moved(e, remap, p), all.keys, a, b, p);
    }
  }

  lemma {:induction false} MergedRepresents(keyOf: Row -> string, d: Decls, e: Decls, a: seq<Row>, b: seq<Row>)
    requires Represents(keyOf, d, a) && Represents(keyOf, e, b)
    ensures Represents(keyOf, Merged(d, e), a + b)
  {
    InternAllKeeps(d, e.keys, |e.keys|);
    forall p ensures PairRight(keyOf, Merged(d, e), a + b, p) {
      assert PairRight(keyOf, d, a, p) && PairRight(keyOf, e, b, p);
      MergedPair(keyOf, d, e, a, b, p);
    }
  }

  // What the sets say does not depend on the order of the rows.
  lemma {:induction false} RepresentsPermuted(keyOf: Row -> string, d: Decls, a: seq<Row>, b: seq<Row>)
    requires Represents(keyOf, d, a) && multiset(a) == multiset(b)
    ensures Represents(keyOf, d, b)
  {
    forall p ensures PairRight(keyOf, d, b, p) {
      assert PairRight(keyOf, d, a, p);
      TouchedPermuted(a, b, p);
      if p in d.sets { SetPermuted(keyOf, d.sets[p], d.keys, a, b, p); }
    }
  }

  lemma {:induction false} Elsewhere(a: seq<Row>, b: seq<Row>, i: nat) returns (j: nat)
    requires multiset(a) == multiset(b) && i < |a|
    ensures j < |b| && b[j] == a[i]
  {
    assert a[i] in multiset(b);
    assert a[i] in b;
    j :| 0 <= j < |b| && b[j] == a[i];
  }

  lemma {:induction false} TouchedPermuted(a: seq<Row>, b: seq<Row>, p: Pair)
    requires multiset(a) == multiset(b)
    ensures Touched(a, p) <==> Touched(b, p)
  {
    if Touched(a, p) {
      var i :| 0 <= i < |a| && PairOf(a[i]) == p;
      var j := Elsewhere(a, b, i);
    }
    if Touched(b, p) {
      var i :| 0 <= i < |b| && PairOf(b[i]) == p;
      var j := Elsewhere(b, a, i);
    }
  }

  lemma {:induction false} FirstPermuted(a: seq<Row>, b: seq<Row>, p: Pair, first: nat)
    requires multiset(a) == multiset(b) && FirstIs(a, p, first)
    ensures FirstIs(b, p, first)
  {
    var i :| 0 <= i < |a| && PairOf(a[i]) == p && a[i].ts == first;
    var j := Elsewhere(a, b, i);
    forall k | 0 <= k < |b| && PairOf(b[k]) == p ensures first <= b[k].ts {
      var m := Elsewhere(b, a, k);
    }
  }

  lemma {:induction false} SetPermuted(keyOf: Row -> string, st: DeclSet, keys: seq<string>, a: seq<Row>, b: seq<Row>, p: Pair)
    requires SetRight(keyOf, st, keys, a, p) && multiset(a) == multiset(b)
    ensures SetRight(keyOf, st, keys, b, p)
  {
    FirstPermuted(a, b, p, st.first);
    TotalPermuted(OneTool(p), a, b);
    forall key | key != "" ensures WeightRight(keyOf, st.items, keys, b, p, key) {
      assert WeightRight(keyOf, st.items, keys, a, p, key);
      TotalPermuted(RowTokens(keyOf, p, key), a, b);
      TotalPermuted(OneRow(keyOf, p, key), a, b);
    }
  }

  // ---- The objects that are filled row by row --------------------------------------------------------------------

  class Carrier {
    var sets: map<Pair, DeclSet>
    var ids: map<string, nat>
    var keys: seq<string>

    function Value(): Decls
      reads this
    {
      Decls(sets, ids, keys)
    }

    constructor ()
      ensures Value() == NO_DECLS
    {
      sets, ids, keys := map[], map[], [];
    }

    method Intern(key: string) returns (id: nat)
      requires Inverse(ids, keys)
      modifies this
      ensures Value() == Interned(old(Value()), key) && Inverse(ids, keys)
      ensures key in ids && id == ids[key] < |keys| && keys[id] == key
    {
      InternKeeps(Value(), key);
      if key !in ids {
        ids := ids[key := |keys|];
        keys := keys + [key];
      }
      id := ids[key];
    }

    method AddCarriedRow(r: Row, key: string)
      requires Inverse(ids, keys)
      modifies this
      ensures Value() == Added(old(Value()), r, key) && Inverse(ids, keys)
    {
      var p := PairOf(r);
      var st := if p in sets then sets[p] else DeclSet(r.ts, 0, []);
      if r.ts < st.first { st := st.(first := r.ts); }
      if Declares(r) { st := st.(ntools := st.ntools + 1); }
      if key != "" {
        var id := Intern(key);
        st := st.(items := st.items + [Item(id, r.tok)]);
      }
      sets := sets[p := st];
    }

    method InternKeys(more: seq<string>) returns (remap: seq<nat>)
      requires Inverse(ids, keys)
      modifies this
      ensures Value() == InternedAll(old(Value()), more, |more|) && Inverse(ids, keys)
      ensures remap == RemapOf(Value(), more)
    {
      ghost var d := Value();
      remap := [];
      for i := 0 to |more|
        invariant Value() == InternedAll(d, more, i) && Inverse(ids, keys)
        invariant |remap| == i && forall j :: 0 <= j < i ==> more[j] in ids && remap[j] == ids[more[j]]
      {
        var id := Intern(more[i]);
        remap := remap + [id];
      }
    }

    method MergePart(e: Decls)
      requires Inverse(ids, keys)
      modifies this
      ensures Value() == Merged(old(Value()), e) && Inverse(ids, keys)
    {
      InternAllKeeps(Value(), e.keys, |e.keys|);
      var remap := InternKeys(e.keys);
      sets := JoinSets(sets, e, remap);
    }
  }

  // The merge's loop over the slice's sets, whatever order its map yields them in.
  method JoinSets(into: map<Pair, DeclSet>, e: Decls, remap: seq<nat>) returns (out: map<Pair, DeclSet>)
    ensures out == JoinedAll(into, e, remap, e.sets.Keys)
  {
    out := into;
    var left := e.sets.Keys;
    while left != {}
      invariant left <= e.sets.Keys && out == JoinedAll(into, e, remap, e.sets.Keys - left)
    {
      var p :| p in left;
      var st := e.sets[p].(items := Remapped(e.sets[p].items, remap));
      out := out[p := if p in out then DeclSet(Min(out[p].first, st.first), out[p].ntools + st.ntools, out[p].items + st.items) else st];
      left := left - {p};
    }
  }
}
