/**
 * Splitting the volatile environment snapshot off a system block (splitVolatileTail in
 * apply/prefixsplit.go), with the same cut as stableHalf in apply/toolfilter.go.
 */
module SystemSplit {
  import opened Lists
  import opened Wire

  const MARKERS: seq<string> := [
    "\nRecent commits:\n", "\nCurrent branch: ", "\ngitStatus:", "\nHere is a snapshot of the current directory"]

  // The first occurrence of pat at or after i, or -1.
  function IndexFrom(s: string, pat: string, i: nat): (k: int)
    requires i <= |s| + 1
    ensures k == -1 || (i <= k && OccursAt(s, k, pat))
    ensures forall j :: i <= j && (k < 0 || j < k) ==> !OccursAt(s, j, pat)
    decreases |s| + 1 - i
  {
    if i > |s| then -1 else if OccursAt(s, i, pat) then i else IndexFrom(s, pat, i + 1)
  }

  function Index(s: string, pat: string): int {
    IndexFrom(s, pat, 0)
  }

  // stableHalf's loop over the first n markers.
  function CutAfter(txt: string, n: nat): int
    requires n <= |MARKERS|
  {
    if n == 0 then -1
    else
      var cut, i := CutAfter(txt, n - 1), Index(txt, MARKERS[n - 1]);
      if i >= 0 && (cut < 0 || i < cut) then i else cut
  }

  // splitVolatileTail's loop over the first n markers: it keeps the newline with the stable half.
  function SplitAfter(txt: string, n: nat): int
    requires n <= |MARKERS|
  {
    if n == 0 then -1
    else
      var at, i := SplitAfter(txt, n - 1), Index(txt, MARKERS[n - 1]);
      if i >= 0 && (at < 0 || i < at) then i + 1 else at
  }

  function SplitPoint(txt: string): int {
    SplitAfter(txt, |MARKERS|)
  }

  function StableHalf(txt: string): string {
    var cut := CutAfter(txt, |MARKERS|);
    if cut < 0 || cut > |txt| then txt else txt[..cut]
  }

  // The two loops agree, although they compare against different figures.
  lemma {:induction false} LoopsAgree(txt: string, n: nat)
    requires n <= |MARKERS|
    ensures CutAfter(txt, n) >= -1
    ensures SplitAfter(txt, n) == if CutAfter(txt, n) < 0 then -1 else CutAfter(txt, n) + 1
  {
    if n > 0 { LoopsAgree(txt, n - 1); }
  }

  lemma {:induction false} CutIsEarliest(txt: string, n: nat)
    requires n <= |MARKERS|
    ensures var cut := CutAfter(txt, n);
      && (cut >= 0 ==> exists k :: 0 <= k < n && OccursAt(txt, cut, MARKERS[k]))
      && forall k, j :: 0 <= k < n && 0 <= j && (cut < 0 || j < cut) ==> !OccursAt(txt, j, MARKERS[k])
  {
    if n > 0 { CutIsEarliest(txt, n - 1); }
  }

  lemma {:induction false} MarkerShape(k: nat)
    requires k < |MARKERS|
    ensures |MARKERS[k]| > 1 && MARKERS[k][0] == '\n'
  {
  }

  lemma {:induction false} LineBreakAt(txt: string, cut: int, pat: string)
    requires OccursAt(txt, cut, pat) && |pat| > 1 && pat[0] == '\n'
    ensures cut + 1 < |txt| && txt[..cut + 1] == txt[..cut] + "\n"
  {
    assert txt[cut] == txt[cut..cut + |pat|][0];
  }

  /**
   * The split point is one past the first newline that starts any marker, so the stable half is
   * stableHalf of the text plus that newline.
   */
  lemma {:induction false} SplitPointIsStableHalf(txt: string)
    requires SplitPoint(txt) >= 0
    ensures 0 < SplitPoint(txt) < |txt|
    ensures txt[..SplitPoint(txt)] == StableHalf(txt) + "\n"
    ensures exists k :: 0 <= k < |MARKERS| && OccursAt(txt, SplitPoint(txt) - 1, MARKERS[k])
    ensures forall k, j :: 0 <= k < |MARKERS| && 0 <= j < SplitPoint(txt) - 1 ==> !OccursAt(txt, j, MARKERS[k])
  {
    LoopsAgree(txt, |MARKERS|);
    CutIsEarliest(txt, |MARKERS|);
    var cut := CutAfter(txt, |MARKERS|);
    var k :| 0 <= k < |MARKERS| && OccursAt(txt, cut, MARKERS[k]);
    MarkerShape(k);
    LineBreakAt(txt, cut, MARKERS[k]);
  }

  // ---- The split ----------------------------------------------------------------------------------

  // The tokenizer, the model's minimum cacheable prefix, and where a text divides (SplitPoint).
  datatype Rule = Rule(count: string -> nat, floor: nat, point: string -> int)

  function VolatileTail(count: string -> nat, floor: nat): Rule {
    Rule(count, floor, SplitPoint)
  }

  function TextOf(e: Elem): string {
    if e.Obj? && e.text.Some? then e.text.value else ""
  }

  predicate Splits(r: Rule, e: Elem) {
    var txt, at := TextOf(e), r.point(TextOf(e));
    && e.Obj?
    && |txt| >= r.floor
    && 0 < at < |txt|
    && at >= r.floor
    && r.count(txt[..at]) >= r.floor
  }

  function Stable(r: Rule, e: Elem): Elem
    requires Splits(r, e)
  {
    e.(text := Some(TextOf(e)[..r.point(TextOf(e))]))
  }

  function Volatile(r: Rule, e: Elem): Elem
    requires Splits(r, e)
  {
    e.(text := Some(TextOf(e)[r.point(TextOf(e))..]), control := Absent, point := Absent)
  }

  predicate StandaloneCachePoint(e: Elem) {
    e.Obj? && e.point != Absent && e.text.None?
  }

  // The block at i and the standalone breakpoint right after it, if there is one.
  function Taken(blocks: seq<Elem>, i: nat): (out: seq<Elem>)
    requires i < |blocks|
    ensures 1 <= |out| <= |blocks| - i
  {
    if i + 1 < |blocks| && StandaloneCachePoint(blocks[i + 1]) then [blocks[i], blocks[i + 1]] else [blocks[i]]
  }

  // What replaces them: a standalone breakpoint stays right after the stable half.
  function Divided(r: Rule, taken: seq<Elem>): seq<Elem>
    requires taken != [] && Splits(r, taken[0])
  {
    [Stable(r, taken[0])] + taken[1..] + [Volatile(r, taken[0])]
  }

  function SplitFrom(r: Rule, blocks: seq<Elem>, i: nat): seq<Elem>
    requires i <= |blocks|
    decreases |blocks| - i
  {
    if i == |blocks| then []
    else if !Splits(r, blocks[i]) then [blocks[i]] + SplitFrom(r, blocks, i + 1)
    else Divided(r, Taken(blocks, i)) + blocks[i + |Taken(blocks, i)|..]
  }

  function Split(r: Rule, blocks: seq<Elem>): seq<Elem> {
    SplitFrom(r, blocks, 0)
  }

  method SplitVolatileTail(r: Rule, blocks: seq<Elem>) returns (out: seq<Elem>, split: bool)
    ensures out == Split(r, blocks)
    ensures !split ==> out == blocks
  {
    out, split := [], false;
    var i := 0;
    while i < |blocks|
      invariant 0 <= i <= |blocks|
      invariant SoFar(r, blocks, i, out, split)
    {
      var b := blocks[i];
      if split || !Splits(r, b) {
        OneKept(r, blocks, i, out, split);
        out := out + [b];
        i := i + 1;
      } else {
        split := true;
        var taken := Taken(blocks, i);
        Assoc(out, Divided(r, taken), blocks[i + |taken|..]);
        out := out + Divided(r, taken);
        i := i + |taken|;
      }
    }
    assert blocks[i..] == [] && blocks[..i] == blocks;
    assert out + [] == out;
  }

  // What the first i blocks have become.
  ghost predicate SoFar(r: Rule, blocks: seq<Elem>, i: nat, out: seq<Elem>, split: bool)
    requires i <= |blocks|
  {
    if split then out + blocks[i..] == Split(r, blocks)
    else out == blocks[..i] && out + SplitFrom(r, blocks, i) == Split(r, blocks)
  }

  lemma {:induction false} OneKept(r: Rule, blocks: seq<Elem>, i: nat, out: seq<Elem>, split: bool)
    requires i < |blocks| && SoFar(r, blocks, i, out, split) && (split || !Splits(r, blocks[i]))
    ensures SoFar(r, blocks, i + 1, out + [blocks[i]], split)
  {
    var b := blocks[i];
    if split {
      assert blocks[i..] == [b] + blocks[i + 1..];
      Assoc(out, [b], blocks[i + 1..]);
    } else {
      assert blocks[..i + 1] == blocks[..i] + [b];
      Assoc(out, [b], SplitFrom(r, blocks, i + 1));
    }
  }

  // The index of the block that splits, or the length.
  function Victim(r: Rule, blocks: seq<Elem>, i: nat): (v: nat)
    requires i <= |blocks|
    ensures i <= v <= |blocks|
    ensures v < |blocks| ==> Splits(r, blocks[v])
    decreases |blocks| - i
  {
    if i == |blocks| || Splits(r, blocks[i]) then i else Victim(r, blocks, i + 1)
  }

  lemma {:induction false} SplitShapeFrom(r: Rule, blocks: seq<Elem>, i: nat)
    requires i <= |blocks|
    ensures var v := Victim(r, blocks, i); SplitFrom(r, blocks, i) == blocks[i..v] + SplitFrom(r, blocks, v)
    decreases |blocks| - i
  {
    var v := Victim(r, blocks, i);
    if i < v {
      SplitShapeFrom(r, blocks, i + 1);
      assert blocks[i..v] == [blocks[i]] + blocks[i + 1..v];
      Assoc([blocks[i]], blocks[i + 1..v], SplitFrom(r, blocks, v));
    } else {
      assert blocks[i..v] == [];
    }
  }

  // At most one block changes: all before it stay in place, all after it follow.
  lemma {:induction false} SplitShape(r: Rule, blocks: seq<Elem>)
    ensures var v := Victim(r, blocks, 0);
      if v == |blocks| then Split(r, blocks) == blocks
      else Split(r, blocks) == blocks[..v] + Divided(r, Taken(blocks, v)) + blocks[v + |Taken(blocks, v)|..]
  {
    SplitShapeFrom(r, blocks, 0);
    var v := Victim(r, blocks, 0);
    assert blocks[0..v] == blocks[..v];
    if v < |blocks| {
      Assoc(blocks[..v], Divided(r, Taken(blocks, v)), blocks[v + |Taken(blocks, v)|..]);
    }
  }

  // ---- What is split, and into what -----------------------------------------------------------------

  // A marker starts at m, and none before.
  ghost predicate FirstMarker(txt: string, m: nat) {
    && (exists k :: 0 <= k < |MARKERS| && OccursAt(txt, m, MARKERS[k]))
    && forall k, j: int :: 0 <= k < |MARKERS| && 0 <= j < m ==> !OccursAt(txt, j, MARKERS[k])
  }

  // The block's text up to and with the newline at m is long enough, in bytes and in tokens, to be cached.
  ghost predicate Cuttable(count: string -> nat, floor: nat, e: Elem, m: nat) {
    && e.Obj? && e.text.Some? && FirstMarker(e.text.value, m)
    && m < |e.text.value| && m + 1 >= floor && count(e.text.value[..m + 1]) >= floor
  }

  lemma {:induction false} FirstMarkerIsPoint(txt: string, m: nat)
    requires FirstMarker(txt, m)
    ensures SplitPoint(txt) == m + 1 && m + 1 < |txt|
  {
    LoopsAgree(txt, |MARKERS|);
    CutIsEarliest(txt, |MARKERS|);
    var k :| 0 <= k < |MARKERS| && OccursAt(txt, m, MARKERS[k]);
    MarkerShape(k);
    LineBreakAt(txt, m, MARKERS[k]);
  }

  lemma {:induction false} PointIsFirstMarker(txt: string)
    requires SplitPoint(txt) > 0
    ensures FirstMarker(txt, SplitPoint(txt) - 1)
  {
    SplitPointIsStableHalf(txt);
  }

  lemma {:induction false} SplitsIff(count: string -> nat, floor: nat, e: Elem)
    ensures Splits(VolatileTail(count, floor), e) <==> exists m: nat :: Cuttable(count, floor, e, m)
    ensures forall m: nat :: Cuttable(count, floor, e, m) ==> SplitPoint(TextOf(e)) == m + 1
  {
    forall m: nat | Cuttable(count, floor, e, m) ensures SplitPoint(TextOf(e)) == m + 1 < |TextOf(e)| { FirstMarkerIsPoint(TextOf(e), m); }
    if Splits(VolatileTail(count, floor), e) {
      PointIsFirstMarker(TextOf(e));
      assert Cuttable(count, floor, e, SplitPoint(TextOf(e)) - 1);
    }
  }

  // blocks with block v cut at m: its marks stay on the stable half, and so does a breakpoint of its own right
  // after it.
  ghost predicate CutInto(blocks: seq<Elem>, v: nat, m: nat, out: seq<Elem>)
    requires v < |blocks| && blocks[v].Obj? && m < |TextOf(blocks[v])|
  {
    var e, txt := blocks[v], TextOf(blocks[v]);
    var stable := e.(text := Some(txt[..m + 1]));
    var volatile := e.(text := Some(txt[m + 1..]), control := Absent, point := Absent);
    if v + 1 < |blocks| && blocks[v + 1].Obj? && blocks[v + 1].text.None? && blocks[v + 1].point != Absent
    then out == blocks[..v] + [stable, blocks[v + 1], volatile] + blocks[v + 2..]
    else out == blocks[..v] + [stable, volatile] + blocks[v + 1..]
  }

  lemma {:induction false} VictimIsFirst(r: Rule, blocks: seq<Elem>, i: nat, k: nat)
    requires i <= |blocks| && i <= k < Victim(r, blocks, i)
    ensures !Splits(r, blocks[k])
    decreases k - i
  {
    if i < k { VictimIsFirst(r, blocks, i + 1, k); }
  }

  /**
   * The first block that can be cut is, at its first marker, and nothing else changes; where none can be, nothing
   * does.
   */
  lemma {:induction false} SplitResult(count: string -> nat, floor: nat, blocks: seq<Elem>) returns (v: nat, m: nat)
    ensures v <= |blocks| && forall k, j: nat :: 0 <= k < v ==> !Cuttable(count, floor, blocks[k], j)
    ensures if v == |blocks| then Split(VolatileTail(count, floor), blocks) == blocks
            else Cuttable(count, floor, blocks[v], m) && CutInto(blocks, v, m, Split(VolatileTail(count, floor), blocks))
  {
    var r := VolatileTail(count, floor);
    v, m := Victim(r, blocks, 0), 0;
    forall k, j: nat | 0 <= k < v ensures !Cuttable(count, floor, blocks[k], j) {
      VictimIsFirst(r, blocks, 0, k);
      SplitsIff(count, floor, blocks[k]);
    }
    SplitShape(r, blocks);
    if v < |blocks| {
      SplitsIff(count, floor, blocks[v]);
      m :| Cuttable(count, floor, blocks[v], m);
      CutIsDivided(r, blocks, v, m);
    }
  }

  lemma {:induction false} CutIsDivided(r: Rule, blocks: seq<Elem>, v: nat, m: nat)
    requires v < |blocks| && Splits(r, blocks[v]) && r.point(TextOf(blocks[v])) == m + 1
    ensures CutInto(blocks, v, m, blocks[..v] + Divided(r, Taken(blocks, v)) + blocks[v + |Taken(blocks, v)|..])
  {
    var taken := Taken(blocks, v);
    if |taken| == 2 {
      assert Divided(r, taken) == [Stable(r, taken[0]), taken[1], Volatile(r, taken[0])];
    } else {
      assert Divided(r, taken) == [Stable(r, taken[0]), Volatile(r, taken[0])];
    }
  }

  // ---- What the split keeps -------------------------------------------------------------------------

  function Concat(blocks: seq<Elem>): string {
    if blocks == [] then "" else Concat(blocks[..|blocks| - 1]) + TextOf(blocks[|blocks| - 1])
  }

  lemma {:induction false} ConcatJoin(a: seq<Elem>, b: seq<Elem>)
    ensures Concat(a + b) == Concat(a) + Concat(b)
  {
    if b == [] {
      assert a + b == a;
    } else {
      var init := b[..|b| - 1];
      ConcatJoin(a, init);
      InitOf(a, b);
      Assoc(Concat(a), Concat(init), TextOf(b[|b| - 1]));
    }
  }

  // The divided block reads as before, and every mark of it is on the stable half.
  lemma {:induction false} DividedKeeps(r: Rule, blocks: seq<Elem>, i: nat)
    requires i < |blocks| && Splits(r, blocks[i])
    ensures var taken := Taken(blocks, i);
      && Concat(Divided(r, taken)) == Concat(taken)
      && ArrayMarks(Divided(r, taken)) == ArrayMarks(taken)
      && ArrayControls(Divided(r, taken)) == ArrayControls(taken)
      && ElemMarks(Stable(r, taken[0])) == ElemMarks(taken[0])
      && ElemMarks(Volatile(r, taken[0])) == 0
  {
    var taken := Taken(blocks, i);
    var e := taken[0];
    var s, v := Stable(r, e), Volatile(r, e);
    HalvesJoin(r, e);
    if |taken| == 2 {
      assert taken == [e, taken[1]] && Divided(r, taken) == [s, taken[1], v];
      OfPair(e, taken[1]);
      OfTriple(s, taken[1], v);
    } else {
      assert taken == [e] && Divided(r, taken) == [s, v];
      OfOne(e);
      OfPair(s, v);
    }
  }

  lemma {:induction false} HalvesJoin(r: Rule, e: Elem)
    requires Splits(r, e)
    ensures TextOf(Stable(r, e)) + TextOf(Volatile(r, e)) == TextOf(e)
    ensures ElemMarks(Stable(r, e)) == ElemMarks(e) && ElemMarks(Volatile(r, e)) == 0
    ensures ControlOf(Stable(r, e)) == ControlOf(e) && ControlOf(Volatile(r, e)) == []
  {
  }

  /**
   * The model reads the same prompt, and the wire keeps its breakpoints, in number and in order.
   */
  lemma {:induction false} SplitKeepsAll(r: Rule, blocks: seq<Elem>)
    ensures Concat(Split(r, blocks)) == Concat(blocks)
    ensures ArrayMarks(Split(r, blocks)) == ArrayMarks(blocks)
    ensures ArrayControls(Split(r, blocks)) == ArrayControls(blocks)
  {
    SplitShape(r, blocks);
    var v := Victim(r, blocks, 0);
    if v < |blocks| {
      var taken := Taken(blocks, v);
      var pre, post := blocks[..v], blocks[v + |taken|..];
      assert blocks == pre + taken + post;
      DividedKeeps(r, blocks, v);
      SplitPieces(pre, taken, post);
      SplitPieces(pre, Divided(r, taken), post);
    }
  }

  lemma {:induction false} SplitPieces(a: seq<Elem>, b: seq<Elem>, c: seq<Elem>)
    ensures ArrayMarks(a + b + c) == ArrayMarks(a) + ArrayMarks(b) + ArrayMarks(c)
    ensures ArrayControls(a + b + c) == ArrayControls(a) + ArrayControls(b) + ArrayControls(c)
    ensures Concat(a + b + c) == Concat(a) + Concat(b) + Concat(c)
  {
    ConcatJoin(a + b, c);
    ConcatJoin(a, b);
    ArrayMarksConcat(a + b, c);
    ArrayMarksConcat(a, b);
    GatherConcat(ControlOf, a + b, c);
    GatherConcat(ControlOf, a, b);
  }

  lemma {:induction false} OfOne(x: Elem)
    ensures ArrayMarks([x]) == ElemMarks(x) && ArrayControls([x]) == ControlOf(x) && Concat([x]) == TextOf(x)
  {
    var s := [x];
    assert s[..0] == [] && Gather(ControlOf, s, 0, 0) == [];
  }

  lemma {:induction false} OfPair(x: Elem, y: Elem)
    ensures ArrayMarks([x, y]) == ElemMarks(x) + ElemMarks(y)
    ensures ArrayControls([x, y]) == ControlOf(x) + ControlOf(y) && Concat([x, y]) == TextOf(x) + TextOf(y)
  {
    OfOne(x);
    OfOne(y);
    assert [x, y] == [x] + [y] && [x, y] + [] == [x, y];
    SplitPieces([x], [y], []);
  }

  lemma {:induction false} OfTriple(x: Elem, y: Elem, z: Elem)
    ensures ArrayMarks([x, y, z]) == ElemMarks(x) + ElemMarks(y) + ElemMarks(z)
    ensures ArrayControls([x, y, z]) == ControlOf(x) + ControlOf(y) + ControlOf(z)
    ensures Concat([x, y, z]) == TextOf(x) + TextOf(y) + TextOf(z)
  {
    OfOne(x);
    OfOne(y);
    OfOne(z);
    assert [x, y, z] == [x] + [y] + [z];
    SplitPieces([x], [y], [z]);
  }
}
