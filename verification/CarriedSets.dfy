/**
 * The declaration sets a dashboard prices (addCarriedRow, carriedSets and adaptToolsSet.sum in
 * dash/adapttools.go): rows grouped by session and digest, keys interned per slice and remapped
 * when the slices are merged.
 */
module CarriedSets {
  import opened Lists

  // ---- Rows and sets ------------------------------------------------------------------------------------------

  datatype Kind = ToolKind | MCPTool | ServerTool | SkillKind | SkillListing | OtherKind(name: string)

  // A row of tool_declarations.
  datatype Row = Row(rowid: int, tenant: string, session: string, digest: string,
                     kind: Kind, name: string, server: string, tok: nat, ts: nat)

  // A session's set.
  datatype Pair = Pair(tenant: string, session: string, digest: string)

  datatype Item = Item(key: nat, tok: nat)

  datatype DeclSet = DeclSet(first: nat, ntools: nat, items: seq<Item>)

  // The sets, and the key names their interned ids stand for.
  datatype Decls = Decls(sets: map<Pair, DeclSet>, ids: map<string, nat>, keys: seq<string>)

  const NO_DECLS := Decls(map[], map[], [])

  function PairOf(r: Row): Pair {
    Pair(r.tenant, r.session, r.digest)
  }

  // A declaration, and not a note about a skill listing.
  predicate Declares(r: Row) {
    r.kind != SkillKind && r.kind != SkillListing
  }

  function Interned(d: Decls, key: string): Decls {
    if key in d.ids then d else d.(ids := d.ids[key := |d.keys|], keys := d.keys + [key])
  }

  function Min(a: nat, b: nat): nat {
    if a < b then a else b
  }

  function Added(d: Decls, r: Row, key: string): Decls {
    var p := PairOf(r);
    var st := if p in d.sets then d.sets[p] else DeclSet(r.ts, 0, []);
    var now := st.(first := Min(st.first, r.ts), ntools := st.ntools + if Declares(r) then 1 else 0);
    if key == "" then d.(sets := d.sets[p := now])
    else
      var e := Interned(d, key);
      e.(sets := d.sets[p := now.(items := now.items + [Item(e.ids[key], r.tok)])])
  }

  // ---- What a set must say about the rows it was built from -----------------------------------------------------

  ghost predicate Touched(rows: seq<Row>, p: Pair) {
    exists i :: 0 <= i < |rows| && PairOf(rows[i]) == p
  }

  ghost predicate FirstIs(rows: seq<Row>, p: Pair, first: nat) {
    && (exists i :: 0 <= i < |rows| && PairOf(rows[i]) == p && rows[i].ts == first)
    && (forall i :: 0 <= i < |rows| && PairOf(rows[i]) == p ==> first <= rows[i].ts)
  }

  function OneTool(p: Pair): Row -> int {
    (r: Row) => if PairOf(r) == p && !r.kind.SkillKind? && !r.kind.SkillListing? then 1 else 0
  }

  function OneRow(keyOf: Row -> string, p: Pair, key: string): Row -> int {
    (r: Row) => if PairOf(r) == p && keyOf(r) == key then 1 else 0
  }

  function RowTokens(keyOf: Row -> string, p: Pair, key: string): Row -> int {
    (r: Row) => if PairOf(r) == p && keyOf(r) == key then r.tok else 0
  }

  function OneItem(keys: seq<string>, key: string): Item -> int {
    (it: Item) => if it.key < |keys| && keys[it.key] == key then 1 else 0
  }

  function ItemTokens(keys: seq<string>, key: string): Item -> int {
    (it: Item) => if it.key < |keys| && keys[it.key] == key then it.tok else 0
  }

  // A key's weight and row count in a set are those of its rows.
  ghost predicate WeightRight(keyOf: Row -> string, items: seq<Item>, keys: seq<string>, rows: seq<Row>, p: Pair, key: string) {
    && Total(ItemTokens(keys, key), items) == Total(RowTokens(keyOf, p, key), rows)
    && Total(OneItem(keys, key), items) == Total(OneRow(keyOf, p, key), rows)
  }

  ghost predicate ItemsIn(items: seq<Item>, n: nat) {
    forall i :: 0 <= i < |items| ==> items[i].key < n
  }

  ghost predicate SetRight(keyOf: Row -> string, st: DeclSet, keys: seq<string>, rows: seq<Row>, p: Pair) {
    && FirstIs(rows, p, st.first)
    && st.ntools == Total(OneTool(p), rows)
    && ItemsIn(st.items, |keys|)
    && forall key :: key != "" ==> WeightRight(keyOf, st.items, keys, rows, p, key)
  }

  // Ids and key names are each other's inverse.
  ghost predicate Inverse(ids: map<string, nat>, keys: seq<string>) {
    && (forall k :: k in ids ==> ids[k] < |keys| && keys[ids[k]] == k)
    && (forall i :: 0 <= i < |keys| ==> keys[i] in ids && ids[keys[i]] == i)
  }

  ghost predicate PairRight(keyOf: Row -> string, d: Decls, rows: seq<Row>, p: Pair) {
    (p in d.sets <==> Touched(rows, p)) && (p in d.sets ==> SetRight(keyOf, d.sets[p], d.keys, rows, p))
  }

  ghost predicate Represents(keyOf: Row -> string, d: Decls, rows: seq<Row>) {
    Inverse(d.ids, d.keys) && forall p :: PairRight(keyOf, d, rows, p)
  }

  // ---- Adding a row ---------------------------------------------------------------------------------------------

  lemma {:induction false} InternKeeps(d: Decls, key: string)
    requires Inverse(d.ids, d.keys)
    ensures var e := Interned(d, key);
      Inverse(e.ids, e.keys) && key in e.ids && d.keys <= e.keys && e.sets == d.sets
  {
  }

  // More keys do not change what the items there already weigh.
  lemma {:induction false} MoreKeys(items: seq<Item>, keys: seq<string>, more: seq<string>, key: string)
    requires ItemsIn(items, |keys|) && keys <= more
    ensures ItemsIn(items, |more|)
    ensures Total(ItemTokens(more, key), items) == Total(ItemTokens(keys, key), items)
    ensures Total(OneItem(more, key), items) == Total(OneItem(keys, key), items)
  {
    SumSame(ItemTokens(more, key), items, ItemTokens(keys, key), items, |items|);
    SumSame(OneItem(more, key), items, OneItem(keys, key), items, |items|);
  }

  lemma {:induction false} TouchedGrows(rows: seq<Row>, r: Row, p: Pair)
    ensures Touched(rows + [r], p) <==> Touched(rows, p) || PairOf(r) == p
  {
    var more := rows + [r];
    if Touched(rows, p) {
      var i :| 0 <= i < |rows| && PairOf(rows[i]) == p;
      assert PairOf(more[i]) == p;
    }
    if PairOf(r) == p { assert PairOf(more[|rows|]) == p; }
  }

  lemma {:induction false} FirstGrows(rows: seq<Row>, r: Row, p: Pair, first: nat)
    requires PairOf(r) == p && (FirstIs(rows, p, first) || (!Touched(rows, p) && first == r.ts))
    ensures FirstIs(rows + [r], p, Min(first, r.ts))
  {
    var more := rows + [r];
    assert PairOf(more[|rows|]) == p;
    if FirstIs(rows, p, first) {
      var i :| 0 <= i < |rows| && PairOf(rows[i]) == p && rows[i].ts == first;
      assert PairOf(more[i]) == p && more[i].ts == first;
    }
  }

  lemma {:induction false} FirstStays(rows: seq<Row>, r: Row, p: Pair, first: nat)
    requires PairOf(r) != p && FirstIs(rows, p, first)
    ensures FirstIs(rows + [r], p, first)
  {
    var more := rows + [r];
    var i :| 0 <= i < |rows| && PairOf(rows[i]) == p && rows[i].ts == first;
    assert PairOf(more[i]) == p && more[i].ts == first;
  }

  // A pair no row touches weighs nothing.
  lemma {:induction false} UntouchedWeighsNothing(keyOf: Row -> string, rows: seq<Row>, p: Pair, key: string)
    requires !Touched(rows, p)
    ensures Total(OneTool(p), rows) == 0 && Total(RowTokens(keyOf, p, key), rows) == 0 && Total(OneRow(keyOf, p, key), rows) == 0
  {
    forall i | 0 <= i < |rows| ensures PairOf(rows[i]) != p {
    }
    TotalZero(OneTool(p), rows, |rows|);
    TotalZero(RowTokens(keyOf, p, key), rows, |rows|);
    TotalZero(OneRow(keyOf, p, key), rows, |rows|);
  }

  // The weights of one key after one more row, and its item where it has one.
  lemma {:induction false} WeightGrows(keyOf: Row -> string, items: seq<Item>, keys: seq<string>, rows: seq<Row>, r: Row, more: seq<Item>, p: Pair, key: string)
    requires key != "" && WeightRight(keyOf, items, keys, rows, p, key)
    requires keyOf(r) == "" || PairOf(r) != p ==> more == items
    requires keyOf(r) != "" && PairOf(r) == p ==>
      exists id: nat :: id < |keys| && keys[id] == keyOf(r) && more == items + [Item(id, r.tok)]
    ensures WeightRight(keyOf, more, keys, rows + [r], p, key)
  {
    TotalOne(RowTokens(keyOf, p, key), rows, r);
    TotalOne(OneRow(keyOf, p, key), rows, r);
    if keyOf(r) != "" && PairOf(r) == p {
      var id: nat :| id < |keys| && keys[id] == keyOf(r) && more == items + [Item(id, r.tok)];
      TotalOne(ItemTokens(keys, key), items, Item(id, r.tok));
      TotalOne(OneItem(keys, key), items, Item(id, r.tok));
    }
  }

  lemma {:induction false} LiftKeys(keyOf: Row -> string, st: DeclSet, keys: seq<string>, more: seq<string>, rows: seq<Row>, p: Pair)
    requires SetRight(keyOf, st, keys, rows, p) && keys <= more
    ensures SetRight(keyOf, st, more, rows, p)
  {
    forall key | key != "" ensures WeightRight(keyOf, st.items, more, rows, p, key) {
      assert WeightRight(keyOf, st.items, keys, rows, p, key);
      MoreKeys(st.items, keys, more, key);
    }
  }

  lemma {:induction false} OtherSetStays(keyOf: Row -> string, st: DeclSet, keys: seq<string>, rows: seq<Row>, r: Row, p: Pair)
    requires SetRight(keyOf, st, keys, rows, p) && PairOf(r) != p
    ensures SetRight(keyOf, st, keys, rows + [r], p)
  {
    FirstStays(rows, r, p, st.first);
    TotalOne(OneTool(p), rows, r);
    forall key | key != "" ensures WeightRight(keyOf, st.items, keys, rows + [r], p, key) {
      WeightGrows(keyOf, st.items, keys, rows, r, st.items, p, key);
    }
  }

  lemma {:induction false} OwnSetGrows(keyOf: Row -> string, st: DeclSet, keys: seq<string>, rows: seq<Row>, r: Row, now: DeclSet)
    requires SetRight(keyOf, st, keys, rows, PairOf(r)) || (!Touched(rows, PairOf(r)) && st == DeclSet(r.ts, 0, []))
    requires now.first == Min(st.first, r.ts) && now.ntools == st.ntools + (if Declares(r) then 1 else 0)
    requires keyOf(r) == "" ==> now.items == st.items
    requires keyOf(r) != "" ==> exists id: nat :: id < |keys| && keys[id] == keyOf(r) && now.items == st.items + [Item(id, r.tok)]
    ensures SetRight(keyOf, now, keys, rows + [r], PairOf(r))
  {
    var p := PairOf(r);
    FirstGrows(rows, r, p, st.first);
    TotalOne(OneTool(p), rows, r);
    forall key | key != "" ensures WeightRight(keyOf, now.items, keys, rows + [r], p, key) {
      if !Touched(rows, p) { UntouchedWeighsNothing(keyOf, rows, p, key); } else { assert WeightRight(keyOf, st.items, keys, rows, p, key); }
      WeightGrows(keyOf, st.items, keys, rows, r, now.items, p, key);
    }
    if !Touched(rows, p) { UntouchedWeighsNothing(keyOf, rows, p, ""); }
  }

  lemma {:induction false} AddedPair(keyOf: Row -> string, d: Decls, rows: seq<Row>, r: Row, p: Pair)
    requires Inverse(d.ids, d.keys) && PairRight(keyOf, d, rows, p)
    ensures PairRight(keyOf, Added(d, r, keyOf(r)), rows + [r], p)
  {
    var after := Added(d, r, keyOf(r));
    InternKeeps(d, keyOf(r));
    TouchedGrows(rows, r, p);
    if p in d.sets { LiftKeys(keyOf, d.sets[p], d.keys, after.keys, rows, p); }
    if PairOf(r) == p {
      var st := if p in d.sets then d.sets[p] else DeclSet(r.ts, 0, []);
      OwnSetGrows(keyOf, st, after.keys, rows, r, after.sets[p]);
    } else if p in d.sets {
      OtherSetStays(keyOf, d.sets[p], after.keys, rows, r, p);
    }
  }

  lemma {:induction false} AddedRepresents(keyOf: Row -> string, d: Decls, rows: seq<Row>, r: Row)
    requires Represents(keyOf, d, rows)
    ensures Represents(keyOf, Added(d, r, keyOf(r)), rows + [r])
  {
    InternKeeps(d, keyOf(r));
    forall p ensures PairRight(keyOf, Added(d, r, keyOf(r)), rows + [r], p) {
      assert PairRight(keyOf, d, rows, p);
      AddedPair(keyOf, d, rows, r, p);
    }
  }

  // ---- Merging a slice's sets -------------------------------------------------------------------------------------

  function InternedAll(d: Decls, keys: seq<string>, n: nat): Decls
    requires n <= |keys|
  {
    if n == 0 then d else Interned(InternedAll(d, keys, n - 1), keys[n - 1])
  }

  function Remapped(items: seq<Item>, remap: seq<nat>): (out: seq<Item>)
    ensures |out| == |items|
  {
    seq(|items|, i requires 0 <= i < |items| => Item(if items[i].key < |remap| then remap[items[i].key] else 0, items[i].tok))
  }

  function Joined(into: map<Pair, DeclSet>, p: Pair, st: DeclSet): DeclSet {
    if p in into then DeclSet(Min(into[p].first, st.first), into[p].ntools + st.ntools, into[p].items + st.items) else st
  }

  // A slice's set after its ids were mapped to the merged ones.
  function Moved(e: Decls, remap: seq<nat>, p: Pair): DeclSet
    requires p in e.sets
  {
    e.sets[p].(items := Remapped(e.sets[p].items, remap))
  }

  function JoinedAll(d: map<Pair, DeclSet>, e: Decls, remap: seq<nat>, done: set<Pair>): map<Pair, DeclSet>
    requires done <= e.sets.Keys
  {
    map p | p in d.Keys + done :: if p in done then Joined(d, p, Moved(e, remap, p)) else d[p]
  }

  function RemapOf(d: Decls, keys: seq<string>): (remap: seq<nat>)
    ensures |remap| == |keys|
  {
    seq(|keys|, i requires 0 <= i < |keys| => if keys[i] in d.ids then d.ids[keys[i]] else 0)
  }

  function Merged(d: Decls, e: Decls): Decls {
    var all := InternedAll(d, e.keys, |e.keys|);
    all.(sets := JoinedAll(d.sets, e, RemapOf(all, e.keys), e.sets.Keys))
  }

  lemma {:induction false} InternAllKeeps(d: Decls, keys: seq<string>, n: nat)
    requires n <= |keys| && Inverse(d.ids, d.keys)
    ensures var e := InternedAll(d, keys, n);
      && Inverse(e.ids, e.keys) && d.keys <= e.keys && e.sets == d.sets
      && forall i :: 0 <= i < n ==> keys[i] in e.ids
  {
    if n > 0 {
      InternAllKeeps(d, keys, n - 1);
      InternKeeps(InternedAll(d, keys, n - 1), keys[n - 1]);
    }
  }

  // Remapping ids keeps what the items weigh under each key's name.
  lemma {:induction false} RemapKeepsWeight(items: seq<Item>, keys: seq<string>, more: seq<string>, remap: seq<nat>, key: string)
    requires ItemsIn(items, |keys|) && |remap| == |keys|
    requires forall i :: 0 <= i < |keys| ==> remap[i] < |more| && more[remap[i]] == keys[i]
    ensures ItemsIn(Remapped(items, remap), |more|)
    ensures Total(ItemTokens(more, key), Remapped(items, remap)) == Total(ItemTokens(keys, key), items)
    ensures Total(OneItem(more, key), Remapped(items, remap)) == Total(OneItem(keys, key), items)
  {
    SumSame(ItemTokens(more, key), Remapped(items, remap), ItemTokens(keys, key), items, |items|);
    SumSame(OneItem(more, key), Remapped(items, remap), OneItem(keys, key), items, |items|);
  }

  lemma {:induction false} MovedRight(keyOf: Row -> string, e: Decls, more: seq<string>, remap: seq<nat>, rows: seq<Row>, p: Pair)
    requires p in e.sets && SetRight(keyOf, e.sets[p], e.keys, rows, p) && |remap| == |e.keys|
    requires forall i :: 0 <= i < |e.keys| ==> remap[i] < |more| && more[remap[i]] == e.keys[i]
    ensures SetRight(keyOf, Moved(e, remap, p), more, rows, p)
  {
    RemapKeepsWeight(e.sets[p].items, e.keys, more, remap, "");
    forall key | key != "" ensures WeightRight(keyOf, Moved(e, remap, p).items, more, rows, p, key) {
      assert WeightRight(keyOf, e.sets[p].items, e.keys, rows, p, key);
      RemapKeepsWeight(e.sets[p].items, e.keys, more, remap, key);
    }
  }

  lemma {:induction false} TouchedBoth(a: seq<Row>, b: seq<Row>, p: Pair)
    ensures Touched(a + b, p) <==> Touched(a, p) || Touched(b, p)
  {
    var all := a + b;
    if Touched(a, p) {
      var i :| 0 <= i < |a| && PairOf(a[i]) == p;
      assert PairOf(all[i]) == p;
    }
    if Touched(b, p) {
      var i :| 0 <= i < |b| && PairOf(b[i]) == p;
      assert PairOf(all[|a| + i]) == p;
    }
  }

  lemma {:induction false} FirstOfBoth(a: seq<Row>, b: seq<Row>, p: Pair, x: nat, y: nat)
    requires FirstIs(a, p, x) && FirstIs(b, p, y)
    ensures FirstIs(a + b, p, Min(x, y))
  {
    var all := a + b;
    var i :| 0 <= i < |a| && PairOf(a[i]) == p && a[i].ts == x;
    var j :| 0 <= j < |b| && PairOf(b[j]) == p && b[j].ts == y;
    assert PairOf(all[i]) == p && all[i].ts == x && PairOf(all[|a| + j]) == p && all[|a| + j].ts == y;
  }

  lemma {:induction false} FirstOfOne(a: seq<Row>, b: seq<Row>, p: Pair, x: nat)
    requires (FirstIs(a, p, x) && !Touched(b, p)) || (FirstIs(b, p, x) && !Touched(a, p))
    ensures FirstIs(a + b, p, x)
  {
    var all := a + b;
    if FirstIs(a, p, x) {
      var i :| 0 <= i < |a| && PairOf(a[i]) == p && a[i].ts == x;
      assert PairOf(all[i]) == p && all[i].ts == x;
    } else {
      var j :| 0 <= j < |b| && PairOf(b[j]) == p && b[j].ts == x;
      assert PairOf(all[|a| + j]) == p && all[|a| + j].ts == x;
    }
  }

  lemma {:induction false} JoinRight(keyOf: Row -> string, x: DeclSet, y: DeclSet, keys: seq<string>, a: seq<Row>, b: seq<Row>, p: Pair)
    requires SetRight(keyOf, x, keys, a, p) && SetRight(keyOf, y, keys, b, p)
    ensures SetRight(keyOf, DeclSet(Min(x.first, y.first), x.ntools + y.ntools, x.items + y.items), keys, a + b, p)
  {
    FirstOfBoth(a, b, p, x.first, y.first);
    TotalConcat(OneTool(p), a, b);
    forall key | key != "" ensures WeightRight(keyOf, x.items + y.items, keys, a + b, p, key) {
      assert WeightRight(keyOf, x.items, keys, a, p, key) && WeightRight(keyOf, y.items, keys, b, p, key);
      TotalConcat(ItemTokens(keys, key), x.items, y.items);
      TotalConcat(OneItem(keys, key), x.items, y.items);
      TotalConcat(RowTokens(keyOf, p, key), a, b);
      TotalConcat(OneRow(keyOf, p, key), a, b);
    }
  }

  // Rows that leave a pair alone change nothing about its set, on either side.
  lemma {:induction false} AloneRight(keyOf: Row -> string, x: DeclSet, keys: seq<string>, a: seq<Row>, b: seq<Row>, p: Pair)
    requires (SetRight(keyOf, x, keys, a, p) && !Touched(b, p)) || (SetRight(keyOf, x, keys, b, p) && !Touched(a, p))
    ensures SetRight(keyOf, x, keys, a + b, p)
  {
    FirstOfOne(a, b, p, x.first);
    TotalConcat(OneTool(p), a, b);
    if Touched(a, p) { UntouchedWeighsNothing(keyOf, b, p, ""); } else { UntouchedWeighsNothing(keyOf, a, p, ""); }
    forall key | key != "" ensures WeightRight(keyOf, x.items, keys, a + b, p, key) {
      TotalConcat(RowTokens(keyOf, p, key), a, b);
      TotalConcat(OneRow(keyOf, p, key), a, b);
      if Touched(a, p) {
        assert WeightRight(keyOf, x.items, keys, a, p, key);
        UntouchedWeighsNothing(keyOf, b, p, key);
      } else {
        assert WeightRight(keyOf, x.items, keys, b, p, key);
        UntouchedWeighsNothing(keyOf, a, p, key);
      }
    }
  }

  // ---- What the sets are read for -----------------------------------------------------------------------------------

  // Two reads of the same rows say the same of every session and digest.
  lemma {:induction false} ReadsAgree(keyOf: Row -> string, d: Decls, e: Decls, rows: seq<Row>)
    requires Represents(keyOf, d, rows) && Represents(keyOf, e, rows)
    ensures d.sets.Keys == e.sets.Keys
    ensures forall p :: p in d.sets ==> d.sets[p].first == e.sets[p].first && d.sets[p].ntools == e.sets[p].ntools
    ensures forall p, key :: p in d.sets && key != "" ==>
      && Total(ItemTokens(d.keys, key), d.sets[p].items) == Total(ItemTokens(e.keys, key), e.sets[p].items)
      && Total(OneItem(d.keys, key), d.sets[p].items) == Total(OneItem(e.keys, key), e.sets[p].items)
  {
    forall p ensures p in d.sets <==> p in e.sets {
      assert PairRight(keyOf, d, rows, p) && PairRight(keyOf, e, rows, p);
    }
    forall p | p in d.sets ensures d.sets[p].first == e.sets[p].first && d.sets[p].ntools == e.sets[p].ntools {
      assert PairRight(keyOf, d, rows, p) && PairRight(keyOf, e, rows, p);
      OneFirst(rows, p, d.sets[p].first, e.sets[p].first);
    }
    forall p, key | p in d.sets && key != ""
      ensures Total(ItemTokens(d.keys, key), d.sets[p].items) == Total(ItemTokens(e.keys, key), e.sets[p].items)
      ensures Total(OneItem(d.keys, key), d.sets[p].items) == Total(OneItem(e.keys, key), e.sets[p].items)
    {
      assert PairRight(keyOf, d, rows, p) && PairRight(keyOf, e, rows, p);
      assert WeightRight(keyOf, d.sets[p].items, d.keys, rows, p, key) && WeightRight(keyOf, e.sets[p].items, e.keys, rows, p, key);
    }
  }

  lemma {:induction false} OneFirst(rows: seq<Row>, p: Pair, x: nat, y: nat)
    requires FirstIs(rows, p, x) && FirstIs(rows, p, y)
    ensures x == y
  {
    var i :| 0 <= i < |rows| && PairOf(rows[i]) == p && rows[i].ts == x;
    var j :| 0 <= j < |rows| && PairOf(rows[j]) == p && rows[j].ts == y;
  }

  // A set's weight and row count under one id.
  function IdTokens(id: nat): Item -> int {
    (it: Item) => if it.key == id then it.tok else 0
  }

  function IdRows(id: nat): Item -> int {
    (it: Item) => if it.key == id then 1 else 0
  }

  function Weigh(items: seq<Item>, id: nat): int {
    Total(IdTokens(id), items)
  }

  predicate Carries(items: seq<Item>, id: nat) {
    exists i :: 0 <= i < |items| && items[i].key == id
  }

  // An id's figures are its key name's.
  lemma {:induction false} IdIsKey(ids: map<string, nat>, keys: seq<string>, items: seq<Item>, id: nat)
    requires Inverse(ids, keys) && ItemsIn(items, |keys|) && id < |keys|
    ensures Weigh(items, id) == Total(ItemTokens(keys, keys[id]), items)
    ensures Total(IdRows(id), items) == Total(OneItem(keys, keys[id]), items)
  {
    SumSame(IdTokens(id), items, ItemTokens(keys, keys[id]), items, |items|);
    SumSame(IdRows(id), items, OneItem(keys, keys[id]), items, |items|);
  }

  // adaptToolsSet.sum: the rows folded to one weight and one row count per key.
  method Sum(st: DeclSet) returns (out: map<nat, (int, int)>)
    ensures forall id: nat :: id in out <==> Carries(st.items, id)
    ensures forall id: nat :: id in out ==> out[id] == (Weigh(st.items, id), Total(IdRows(id), st.items))
  {
    out := map[];
    for i := 0 to |st.items|
      invariant forall id: nat :: id in out <==> exists j :: 0 <= j < i && st.items[j].key == id
      invariant forall id: nat :: (if id in out then out[id] else (0, 0)) == (SumOf(IdTokens(id), st.items, i), SumOf(IdRows(id), st.items, i))
    {
      var it := st.items[i];
      var v := if it.key in out then out[it.key] else (0, 0);
      out := out[it.key := (v.0 + it.tok, v.1 + 1)];
    }
  }
}
