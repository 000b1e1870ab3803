/**
 * The slices themselves (carriedSets in dash/adapttools.go) and the stale-kind rule that waits for all
 * of them (staleRules in dash/stalekind.go).
 */
module CarriedSlices {
  import opened Lists
  import opened CarriedSets
  import opened CarriedRead

  // ---- The stale-kind rule ----------------------------------------------------------------------------------

  datatype Sess = Sess(tenant: string, session: string)

  function SessOf(r: Row): Sess {
    Sess(r.tenant, r.session)
  }

  predicate IsTool(r: Row) {
    r.kind == ToolKind || r.kind == MCPTool
  }

  const SKILLS_UNKNOWN: string := "unknown"
  const PHANTOM: string := "function"

  // The newest times seen: per tool name, of any tool, of any skill. 0 where none was.
  datatype Facts = Facts(byName: map<string, nat>, newest: nat, skill: nat)

  type Rules = map<Sess, Facts>

  function FactsAt(rules: Rules, s: Sess): Facts {
    if s in rules then rules[s] else Facts(map[], 0, 0)
  }

  function NameTime(rules: Rules, s: Sess, name: string): nat {
    var f := FactsAt(rules, s);
    if name in f.byName then f.byName[name] else 0
  }

  // Some row of the session newer than t: a tool of that name, any tool, a skill.
  predicate IsNamed(r: Row, s: Sess, name: string) {
    SessOf(r) == s && (r.kind.ToolKind? || r.kind.MCPTool?) && r.name == name
  }

  ghost predicate NamedAfter(rows: seq<Row>, s: Sess, name: string, t: nat) {
    exists r :: r in rows && IsNamed(r, s, name) && r.ts > t
  }

  ghost predicate AnyAfter(rows: seq<Row>, s: Sess, t: nat) {
    exists r :: r in rows && SessOf(r) == s && (r.kind.ToolKind? || r.kind.MCPTool?) && r.ts > t
  }

  ghost predicate SkillAfter(rows: seq<Row>, s: Sess, t: nat) {
    exists r :: r in rows && SessOf(r) == s && r.kind == SkillKind && r.ts > t
  }

  // The rules answer every question about "newer" as the rows would.
  ghost predicate Tells(rules: Rules, rows: seq<Row>, s: Sess) {
    && (forall name, t: nat :: NameTime(rules, s, name) > t <==> NamedAfter(rows, s, name, t))
    && (forall t: nat :: FactsAt(rules, s).newest > t <==> AnyAfter(rows, s, t))
    && (forall t: nat :: FactsAt(rules, s).skill > t <==> SkillAfter(rows, s, t))
  }

  // A newest time is some name's, and no name is newer.
  ghost predicate Sound(f: Facts) {
    && (forall name :: name in f.byName ==> 0 < f.byName[name] <= f.newest)
    && (f.newest > 0 ==> exists name :: name in f.byName && f.byName[name] == f.newest)
  }

  ghost predicate AllSound(rules: Rules) {
    forall s :: Sound(FactsAt(rules, s))
  }

  function SeenTool(f: Facts, name: string, ts: nat): Facts {
    f.(byName := if ts > (if name in f.byName then f.byName[name] else 0) then f.byName[name := ts] else f.byName,
       newest := Max(f.newest, ts))
  }

  function Observed(rules: Rules, r: Row): Rules {
    var s := SessOf(r);
    if IsTool(r) then rules[s := SeenTool(FactsAt(rules, s), r.name, r.ts)]
    else if r.kind == SkillKind then rules[s := FactsAt(rules, s).(skill := Max(FactsAt(rules, s).skill, r.ts))]
    else rules
  }

  lemma {:induction false} ObservedNames(rules: Rules, rows: seq<Row>, r: Row, s: Sess, name: string, t: nat)
    requires Tells(rules, rows, s)
    ensures NameTime(Observed(rules, r), s, name) > t <==> NamedAfter(rows + [r], s, name, t)
  {
    assert NameTime(rules, s, name) > t <==> NamedAfter(rows, s, name, t);
    NamedGrows(rows, r, s, name, t);
  }

  lemma {:induction false} NamedGrows(rows: seq<Row>, r: Row, s: Sess, name: string, t: nat)
    ensures NamedAfter(rows + [r], s, name, t) <==> NamedAfter(rows, s, name, t) || (IsNamed(r, s, name) && r.ts > t)
  {
    assert r in rows + [r];
    if NamedAfter(rows, s, name, t) {
      var x :| x in rows && IsNamed(x, s, name) && x.ts > t;
      assert x in rows + [r];
    }
  }

  lemma {:induction false} AnyGrows(rows: seq<Row>, r: Row, s: Sess, t: nat)
    ensures AnyAfter(rows + [r], s, t) <==> AnyAfter(rows, s, t) || (SessOf(r) == s && IsTool(r) && r.ts > t)
    ensures SkillAfter(rows + [r], s, t) <==> SkillAfter(rows, s, t) || (SessOf(r) == s && r.kind == SkillKind && r.ts > t)
  {
    assert r in rows + [r];
    if AnyAfter(rows, s, t) {
      var x :| x in rows && SessOf(x) == s && IsTool(x) && x.ts > t;
      assert x in rows + [r];
    }
    if SkillAfter(rows, s, t) {
      var x :| x in rows && SessOf(x) == s && x.kind == SkillKind && x.ts > t;
      assert x in rows + [r];
    }
  }

  lemma {:induction false} ObservedTells(rules: Rules, rows: seq<Row>, r: Row, s: Sess)
    requires Tells(rules, rows, s)
    ensures Tells(Observed(rules, r), rows + [r], s)
  {
    forall name, t: nat ensures NameTime(Observed(rules, r), s, name) > t <==> NamedAfter(rows + [r], s, name, t) {
      ObservedNames(rules, rows, r, s, name, t);
    }
    forall t: nat
      ensures FactsAt(Observed(rules, r), s).newest > t <==> AnyAfter(rows + [r], s, t)
      ensures FactsAt(Observed(rules, r), s).skill > t <==> SkillAfter(rows + [r], s, t)
    {
      assert FactsAt(rules, s).newest > t <==> AnyAfter(rows, s, t);
      assert FactsAt(rules, s).skill > t <==> SkillAfter(rows, s, t);
      AnyGrows(rows, r, s, t);
    }
  }

  lemma {:induction false} SeenToolSound(f: Facts, name: string, ts: nat)
    requires Sound(f)
    ensures Sound(SeenTool(f, name, ts))
  {
    var after := SeenTool(f, name, ts);
    if after.newest > 0 {
      if ts >= f.newest && ts > 0 {
        assert name in after.byName && after.byName[name] == ts;
      } else {
        var n :| n in f.byName && f.byName[n] == f.newest;
        assert n in after.byName && after.byName[n] == after.newest;
      }
    }
  }

  lemma {:induction false} ObservedSound(rules: Rules, r: Row)
    requires AllSound(rules)
    ensures AllSound(Observed(rules, r))
  {
    forall s ensures Sound(FactsAt(Observed(rules, r), s)) {
      assert Sound(FactsAt(rules, s));
      if IsTool(r) { SeenToolSound(FactsAt(rules, s), r.name, r.ts); }
    }
  }

  // merge, for one session: every name of the other side is observed again.
  method MergeFacts(f: Facts, g: Facts) returns (out: Facts)
    requires Sound(f) && Sound(g)
    ensures Sound(out) && LaterOf(out, f, g)
  {
    out := f;
    var left := g.byName.Keys;
    while left != {}
      invariant left <= g.byName.Keys && Sound(out) && out.skill == f.skill
      invariant forall name :: TimeIn(out, name) == if name in g.byName && name !in left then Max(TimeIn(f, name), g.byName[name]) else TimeIn(f, name)
      invariant f.newest <= out.newest <= Max(f.newest, g.newest)
      invariant forall name :: name in g.byName && name !in left ==> g.byName[name] <= out.newest
    {
      var name :| name in left;
      SeenToolSound(out, name, g.byName[name]);
      out := SeenTool(out, name, g.byName[name]);
      left := left - {name};
    }
    if g.skill > 0 && g.skill > out.skill { out := out.(skill := g.skill); }
    if g.newest > out.newest { out := out.(newest := g.newest); }
  }

  function TimeIn(f: Facts, name: string): nat {
    if name in f.byName then f.byName[name] else 0
  }

  // out is the later of f and g, question by question.
  ghost predicate LaterOf(out: Facts, f: Facts, g: Facts) {
    && (forall name :: TimeIn(out, name) == Max(TimeIn(f, name), TimeIn(g, name)))
    && out.newest == Max(f.newest, g.newest) && out.skill == Max(f.skill, g.skill)
  }

  // How far the merge has come for a session: not yet, or done.
  ghost predicate MergedAt(out: Rules, into: Rules, o: Rules, left: set<Sess>, s: Sess) {
    && Sound(FactsAt(out, s))
    && if s in left then FactsAt(out, s) == FactsAt(into, s) else LaterOf(FactsAt(out, s), FactsAt(into, s), FactsAt(o, s))
  }

  method MergeRules(into: Rules, o: Rules) returns (out: Rules)
    requires AllSound(into) && AllSound(o)
    ensures AllSound(out) && forall s :: LaterOf(FactsAt(out, s), FactsAt(into, s), FactsAt(o, s))
  {
    out := into;
    var left := o.Keys;
    while left != {}
      invariant left <= o.Keys && forall s :: MergedAt(out, into, o, left, s)
    {
      var s :| s in left;
      assert MergedAt(out, into, o, left, s) && Sound(FactsAt(o, s));
      var f := MergeFacts(FactsAt(out, s), o[s]);
      ghost var before, waiting := out, left;
      out, left := out[s := f], left - {s};
      forall x ensures MergedAt(out, into, o, left, x) { assert MergedAt(before, into, o, waiting, x); }
    }
    forall s ensures Sound(FactsAt(out, s)) && LaterOf(FactsAt(out, s), FactsAt(into, s), FactsAt(o, s)) {
      assert MergedAt(out, into, o, left, s);
    }
  }

  lemma {:induction false} AfterBoth(a: seq<Row>, b: seq<Row>, s: Sess, name: string, t: nat)
    ensures NamedAfter(a + b, s, name, t) <==> NamedAfter(a, s, name, t) || NamedAfter(b, s, name, t)
    ensures AnyAfter(a + b, s, t) <==> AnyAfter(a, s, t) || AnyAfter(b, s, t)
    ensures SkillAfter(a + b, s, t) <==> SkillAfter(a, s, t) || SkillAfter(b, s, t)
  {
    assert forall r :: r in a + b <==> r in a || r in b;
  }

  lemma {:induction false} MergedTells(out: Rules, x: Rules, y: Rules, a: seq<Row>, b: seq<Row>, s: Sess)
    requires Tells(x, a, s) && Tells(y, b, s) && LaterOf(FactsAt(out, s), FactsAt(x, s), FactsAt(y, s))
    ensures Tells(out, a + b, s)
  {
    forall name, t: nat ensures NameTime(out, s, name) > t <==> NamedAfter(a + b, s, name, t) {
      assert TimeIn(FactsAt(out, s), name) == Max(TimeIn(FactsAt(x, s), name), TimeIn(FactsAt(y, s), name));
      assert NameTime(x, s, name) > t <==> NamedAfter(a, s, name, t);
      assert NameTime(y, s, name) > t <==> NamedAfter(b, s, name, t);
      AfterBoth(a, b, s, name, t);
    }
    forall t: nat
      ensures FactsAt(out, s).newest > t <==> AnyAfter(a + b, s, t)
      ensures FactsAt(out, s).skill > t <==> SkillAfter(a + b, s, t)
    {
      assert FactsAt(x, s).newest > t <==> AnyAfter(a, s, t);
      assert FactsAt(y, s).newest > t <==> AnyAfter(b, s, t);
      assert FactsAt(x, s).skill > t <==> SkillAfter(a, s, t);
      assert FactsAt(y, s).skill > t <==> SkillAfter(b, s, t);
      AfterBoth(a, b, s, "", t);
    }
  }

  // stale: an old row that a newer fact of its session replaced.
  predicate Stale(rules: Rules, r: Row) {
    match r.kind
    case ServerTool => NameTime(rules, SessOf(r), r.name) > r.ts || (r.name == PHANTOM && FactsAt(rules, SessOf(r)).newest > r.ts)
    case SkillListing => r.server == SKILLS_UNKNOWN && FactsAt(rules, SessOf(r)).skill > r.ts
    case _ => false
  }

  ghost predicate Superseded(rows: seq<Row>, r: Row) {
    match r.kind
    case ServerTool => NamedAfter(rows, SessOf(r), r.name, r.ts) || (r.name == PHANTOM && AnyAfter(rows, SessOf(r), r.ts))
    case SkillListing => r.server == SKILLS_UNKNOWN && SkillAfter(rows, SessOf(r), r.ts)
    case _ => false
  }

  lemma {:induction false} StaleIsSuperseded(rules: Rules, rows: seq<Row>, r: Row)
    requires Tells(rules, rows, SessOf(r))
    ensures Stale(rules, r) <==> Superseded(rows, r)
  {
    assert NameTime(rules, SessOf(r), r.name) > r.ts <==> NamedAfter(rows, SessOf(r), r.name, r.ts);
    assert FactsAt(rules, SessOf(r)).newest > r.ts <==> AnyAfter(rows, SessOf(r), r.ts);
    assert FactsAt(rules, SessOf(r)).skill > r.ts <==> SkillAfter(rows, SessOf(r), r.ts);
  }

  // ---- One slice ------------------------------------------------------------------------------------------------

  // Rows whose fate waits for every slice.
  predicate Pending(r: Row) {
    r.kind == ServerTool || (r.kind == SkillListing && r.server == SKILLS_UNKNOWN)
  }

  function SettledIn(scope: Sess -> bool): Row -> bool {
    (r: Row) => scope(SessOf(r)) && !Pending(r)
  }

  function PendingIn(scope: Sess -> bool): Row -> bool {
    (r: Row) => scope(SessOf(r)) && Pending(r)
  }

  datatype Part = Part(decls: Decls, pending: seq<Row>, rules: Rules)

  ghost predicate PartRight(keyOf: Row -> string, scope: Sess -> bool, part: Part, got: seq<Row>) {
    && Represents(keyOf, part.decls, Filter(SettledIn(scope), got))
    && part.pending == Filter(PendingIn(scope), got)
    && AllSound(part.rules) && forall s :: Tells(part.rules, Filter(SettledIn(scope), got), s)
  }

  lemma {:induction false} NothingRepresented(keyOf: Row -> string)
    ensures Represents(keyOf, NO_DECLS, [])
  {
    forall p ensures PairRight(keyOf, NO_DECLS, [], p) {
    }
  }

  method ReadPart(keyOf: Row -> string, scope: Sess -> bool, got: seq<Row>) returns (part: Part)
    ensures PartRight(keyOf, scope, part, got)
  {
    var carrier := new Carrier();
    var pending: seq<Row>, rules: Rules := [], map[];
    NothingRepresented(keyOf);
    for i := 0 to |got|
      invariant Represents(keyOf, carrier.Value(), FilterOf(SettledIn(scope), got, i))
      invariant pending == FilterOf(PendingIn(scope), got, i)
      invariant AllSound(rules) && forall s :: Tells(rules, FilterOf(SettledIn(scope), got, i), s)
    {
      var r := got[i];
      FilterStep(SettledIn(scope), got, i);
      FilterStep(PendingIn(scope), got, i);
      if scope(SessOf(r)) {
        if Pending(r) {
          pending := pending + [r];
        } else {
          ghost var before := FilterOf(SettledIn(scope), got, i);
          AddedRepresents(keyOf, carrier.Value(), before, r);
          ObservedSound(rules, r);
          forall s ensures Tells(Observed(rules, r), before + [r], s) {
            assert Tells(rules, before, s);
            ObservedTells(rules, before, r, s);
          }
          rules := Observed(rules, r);
          carrier.AddCarriedRow(r, keyOf(r));
        }
      }
    }
    part := Part(carrier.Value(), pending, rules);
  }

  // ---- The slices ----------------------------------------------------------------------------------------------------

  function InSlice(lo: int, hi: int): Row -> bool {
    (r: Row) => lo <= r.rowid < hi && !r.kind.OtherKind?
  }

  function StepOf(lo: int, hi: int, shards: nat): int
    requires shards > 0
  {
    (hi - lo) / shards + 1
  }

  // Where slice k starts, step by step.
  function Start(lo: int, step: int, k: nat): int {
    if k == 0 then lo else Start(lo, step, k - 1) + step
  }

  lemma {:induction false} StartIs(lo: int, step: int, k: nat)
    ensures Start(lo, step, k) == lo + k * step
  {
    if k > 0 {
      StartIs(lo, step, k - 1);
      assert k * step == (k - 1) * step + step;
    }
  }

  lemma {:induction false} StartGrows(lo: int, step: int, j: nat, k: nat)
    requires j < k && step > 0
    ensures Start(lo, step, j + 1) <= Start(lo, step, k)
    decreases k
  {
    if j + 1 < k { StartGrows(lo, step, j, k - 1); }
  }

  lemma {:induction false} StepsReach(lo: int, hi: int, shards: nat)
    requires shards > 0 && lo <= hi
    ensures StepOf(lo, hi, shards) > 0 && Start(lo, StepOf(lo, hi, shards), shards) > hi
  {
    var q, m := (hi - lo) / shards, (hi - lo) % shards;
    assert hi - lo == q * shards + m;
    assert shards * (q + 1) == q * shards + shards;
    StartIs(lo, q + 1, shards);
  }

  lemma {:induction false} SliceOf(lo: int, step: int, n: nat, rowid: int) returns (k: nat)
    requires lo <= rowid < Start(lo, step, n)
    ensures k < n && Start(lo, step, k) <= rowid < Start(lo, step, k + 1)
  {
    if Start(lo, step, n - 1) <= rowid { k := n - 1; } else { k := SliceOf(lo, step, n - 1, rowid); }
  }

  // The rowids slice k asks for.
  predicate InSliceK(lo: int, step: int, k: nat, rowid: int) {
    lo + k * step <= rowid < lo + (k + 1) * step
  }

  lemma {:induction false} SliceRange(lo: int, step: int, k: nat, rowid: int)
    ensures InSliceK(lo, step, k, rowid) <==> Start(lo, step, k) <= rowid < Start(lo, step, k + 1)
  {
    StartIs(lo, step, k);
    StartIs(lo, step, k + 1);
  }

  lemma {:induction false} OneSlice(lo: int, step: int, j: nat, k: nat, rowid: int)
    requires step > 0 && InSliceK(lo, step, j, rowid) && Start(lo, step, k) <= rowid < Start(lo, step, k + 1)
    ensures j == k
  {
    SliceRange(lo, step, j, rowid);
    if j < k { StartGrows(lo, step, j, k); } else if k < j { StartGrows(lo, step, k, j); }
  }

  // Each rowid of the table is in one slice and in one only.
  lemma {:induction false} SlicesPartition(lo: int, hi: int, shards: nat, rowid: int) returns (k: nat)
    requires shards > 0 && lo <= rowid <= hi
    ensures k < shards && InSliceK(lo, StepOf(lo, hi, shards), k, rowid)
    ensures forall j: nat :: InSliceK(lo, StepOf(lo, hi, shards), j, rowid) ==> j == k
  {
    var step := StepOf(lo, hi, shards);
    StepsReach(lo, hi, shards);
    k := SliceOf(lo, step, shards, rowid);
    SliceRange(lo, step, k, rowid);
    forall j: nat | InSliceK(lo, step, j, rowid) ensures j == k { OneSlice(lo, step, j, k, rowid); }
  }

  method SliceBounds(lo: int, step: int, k: nat) returns (from: int, upTo: int)
    ensures from == Start(lo, step, k) && upTo == Start(lo, step, k + 1)
  {
    StartIs(lo, step, k);
    StartIs(lo, step, k + 1);
    from, upTo := lo + k * step, lo + (k + 1) * step;
  }

  // The table is read without an order, so the rows of a slice may come in any.
  method ReadSlice(rows: seq<Row>, lo: int, hi: int) returns (got: seq<Row>)
    ensures multiset(got) == multiset(Filter(InSlice(lo, hi), rows))
  {
    got := Filter(InSlice(lo, hi), rows);
  }

  method Bounds(rows: seq<Row>) returns (lo: int, hi: int)
    requires rows != []
    ensures lo <= hi && forall r :: r in rows ==> lo <= r.rowid <= hi
  {
    lo, hi := rows[0].rowid, rows[0].rowid;
    for i := 1 to |rows|
      invariant lo <= hi && forall j :: 0 <= j < i ==> lo <= rows[j].rowid <= hi
    {
      if rows[i].rowid < lo { lo := rows[i].rowid; }
      if rows[i].rowid > hi { hi := rows[i].rowid; }
    }
  }

  function Cat(gots: seq<seq<Row>>, n: nat): seq<Row>
    requires n <= |gots|
  {
    if n == 0 then [] else Cat(gots, n - 1) + gots[n - 1]
  }

  // The rows the slices below a bound hold, each as often as the table does.
  ghost predicate ReadBelow(rows: seq<Row>, got: seq<Row>, bound: int) {
    forall r :: multiset(got)[r] == if r.rowid < bound && !r.kind.OtherKind? then multiset(rows)[r] else 0
  }

  lemma {:induction false} SliceExtends(rows: seq<Row>, before: seq<Row>, got: seq<Row>, lo: int, hi: int)
    requires ReadBelow(rows, before, lo) && multiset(got) == multiset(Filter(InSlice(lo, hi), rows)) && lo <= hi
    ensures ReadBelow(rows, before + got, hi)
  {
    forall r ensures multiset(before + got)[r] == if r.rowid < hi && !r.kind.OtherKind? then multiset(rows)[r] else 0 {
      FilterHas(InSlice(lo, hi), rows, r);
    }
  }

  // ---- All of them -------------------------------------------------------------------------------------------------

  ghost predicate PartsRight(keyOf: Row -> string, scope: Sess -> bool, parts: seq<Part>, gots: seq<seq<Row>>) {
    |parts| == |gots| && forall k :: 0 <= k < |parts| ==> PartRight(keyOf, scope, parts[k], gots[k])
  }

  lemma {:induction false} PartsGrow(keyOf: Row -> string, scope: Sess -> bool, parts: seq<Part>, gots: seq<seq<Row>>, part: Part, got: seq<Row>)
    requires PartsRight(keyOf, scope, parts, gots) && PartRight(keyOf, scope, part, got)
    ensures PartsRight(keyOf, scope, parts + [part], gots + [got])
  {
  }

  ghost predicate AllRead(rows: seq<Row>, got: seq<Row>) {
    forall r :: multiset(got)[r] == if r.kind.OtherKind? then 0 else multiset(rows)[r]
  }

  lemma {:induction false} ReadPastEnd(rows: seq<Row>, got: seq<Row>, hi: int, bound: int)
    requires ReadBelow(rows, got, bound) && hi < bound && forall r :: r in rows ==> r.rowid <= hi
    ensures AllRead(rows, got)
  {
    forall r: Row ensures multiset(got)[r] == if r.kind.OtherKind? then 0 else multiset(rows)[r] {
      assert r in multiset(rows) <==> r in rows;
    }
  }

  method ReadParts(keyOf: Row -> string, scope: Sess -> bool, rows: seq<Row>, shards: nat)
    returns (parts: seq<Part>, ghost gots: seq<seq<Row>>)
    requires shards > 0 && rows != []
    ensures PartsRight(keyOf, scope, parts, gots) && AllRead(rows, Cat(gots, |gots|))
  {
    var lo, hi := Bounds(rows);
    var step := StepOf(lo, hi, shards);
    StepsReach(lo, hi, shards);
    NothingBelow(rows, lo);
    parts, gots := ReadSlices(keyOf, scope, rows, lo, step, shards);
    ReadPastEnd(rows, Cat(gots, shards), hi, Start(lo, step, shards));
  }

  method ReadSlices(keyOf: Row -> string, scope: Sess -> bool, rows: seq<Row>, lo: int, step: int, shards: nat)
    returns (parts: seq<Part>, ghost gots: seq<seq<Row>>)
    requires step > 0 && ReadBelow(rows, [], lo)
    ensures |gots| == shards && PartsRight(keyOf, scope, parts, gots)
    ensures ReadBelow(rows, Cat(gots, shards), Start(lo, step, shards))
  {
    parts, gots := [], [];
    for k := 0 to shards
      invariant |gots| == k && PartsRight(keyOf, scope, parts, gots)
      invariant ReadBelow(rows, Cat(gots, k), Start(lo, step, k))
    {
      var from, upTo := SliceBounds(lo, step, k);
      var got := ReadSlice(rows, from, upTo);
      var part := ReadPart(keyOf, scope, got);
      SliceExtends(rows, Cat(gots, k), got, from, upTo);
      CatGrows(gots, got);
      PartsGrow(keyOf, scope, parts, gots, part, got);
      parts, gots := parts + [part], gots + [got];
    }
  }

  lemma {:induction false} NothingBelow(rows: seq<Row>, lo: int)
    requires forall r :: r in rows ==> lo <= r.rowid
    ensures ReadBelow(rows, [], lo)
  {
    forall r: Row ensures r.rowid < lo ==> multiset(rows)[r] == 0 { assert r in multiset(rows) <==> r in rows; }
  }

  lemma {:induction false} CatPrefix(gots: seq<seq<Row>>, more: seq<seq<Row>>, n: nat)
    requires n <= |gots| && gots <= more
    ensures Cat(more, n) == Cat(gots, n)
  {
    if n > 0 { CatPrefix(gots, more, n - 1); }
  }

  lemma {:induction false} CatGrows(gots: seq<seq<Row>>, got: seq<Row>)
    ensures Cat(gots + [got], |gots| + 1) == Cat(gots, |gots|) + got
  {
    CatPrefix(gots, gots + [got], |gots|);
  }

  // ---- The merge --------------------------------------------------------------------------------------------------

  ghost predicate RulesTell(rules: Rules, rows: seq<Row>) {
    AllSound(rules) && forall s :: Tells(rules, rows, s)
  }

  method MergeParts(keyOf: Row -> string, scope: Sess -> bool, parts: seq<Part>, ghost gots: seq<seq<Row>>, carrier: Carrier)
    returns (rules: Rules)
    requires PartsRight(keyOf, scope, parts, gots) && carrier.Value() == NO_DECLS
    modifies carrier
    ensures Represents(keyOf, carrier.Value(), Filter(SettledIn(scope), Cat(gots, |gots|)))
    ensures RulesTell(rules, Filter(SettledIn(scope), Cat(gots, |gots|)))
  {
    rules := map[];
    NothingRepresented(keyOf);
    for k := 0 to |parts|
      invariant Represents(keyOf, carrier.Value(), Filter(SettledIn(scope), Cat(gots, k)))
      invariant RulesTell(rules, Filter(SettledIn(scope), Cat(gots, k)))
    {
      ghost var before, more := Filter(SettledIn(scope), Cat(gots, k)), Filter(SettledIn(scope), gots[k]);
      assert PartRight(keyOf, scope, parts[k], gots[k]);
      FilterConcat(SettledIn(scope), Cat(gots, k), gots[k]);
      MergedRepresents(keyOf, carrier.Value(), parts[k].decls, before, more);
      carrier.MergePart(parts[k].decls);
      var next := MergeRules(rules, parts[k].rules);
      MergedRulesTell(next, rules, parts[k].rules, before, more);
      rules := next;
    }
  }

  lemma {:induction false} MergedRulesTell(out: Rules, x: Rules, y: Rules, a: seq<Row>, b: seq<Row>)
    requires RulesTell(x, a) && AllSound(y) && (forall s :: Tells(y, b, s))
    requires AllSound(out) && forall s :: LaterOf(FactsAt(out, s), FactsAt(x, s), FactsAt(y, s))
    ensures RulesTell(out, a + b)
  {
    forall s ensures Tells(out, a + b, s) {
      assert Tells(x, a, s) && Tells(y, b, s);
      MergedTells(out, x, y, a, b, s);
    }
  }

  // Pending rows no newer fact replaced.
  function FreshIn(scope: Sess -> bool, rules: Rules): Row -> bool {
    (r: Row) => scope(SessOf(r)) && Pending(r) && !Stale(rules, r)
  }

  lemma {:induction false} FreshOfPending(scope: Sess -> bool, rules: Rules, got: seq<Row>, n: nat)
    requires n <= |got|
    ensures Filter((r: Row) => !Stale(rules, r), FilterOf(PendingIn(scope), got, n)) == FilterOf(FreshIn(scope, rules), got, n)
  {
    if n > 0 {
      FreshOfPending(scope, rules, got, n - 1);
      if PendingIn(scope)(got[n - 1]) {
        FilterOne((r: Row) => !Stale(rules, r), FilterOf(PendingIn(scope), got, n - 1), got[n - 1]);
      } else {
        assert FilterOf(PendingIn(scope), got, n) == FilterOf(PendingIn(scope), got, n - 1);
        assert FilterOf(FreshIn(scope, rules), got, n) == FilterOf(FreshIn(scope, rules), got, n - 1);
      }
    }
  }

  method AddPending(keyOf: Row -> string, rules: Rules, pending: seq<Row>, carrier: Carrier, ghost rows: seq<Row>)
    requires Represents(keyOf, carrier.Value(), rows)
    modifies carrier
    ensures Represents(keyOf, carrier.Value(), rows + Filter((r: Row) => !Stale(rules, r), pending))
  {
    ghost var f := (r: Row) => !Stale(rules, r);
    assert rows + [] == rows;
    for i := 0 to |pending|
      invariant Represents(keyOf, carrier.Value(), rows + FilterOf(f, pending, i))
    {
      FilterStep(f, pending, i);
      var r := pending[i];
      if !Stale(rules, r) {
        AddedRepresents(keyOf, carrier.Value(), rows + FilterOf(f, pending, i), r);
        Assoc(rows, FilterOf(f, pending, i), [r]);
        carrier.AddCarriedRow(r, keyOf(r));
      }
    }
  }

  method AddAllPending(keyOf: Row -> string, scope: Sess -> bool, rules: Rules, parts: seq<Part>, ghost gots: seq<seq<Row>>, carrier: Carrier, ghost rows: seq<Row>)
    requires PartsRight(keyOf, scope, parts, gots) && Represents(keyOf, carrier.Value(), rows)
    modifies carrier
    ensures Represents(keyOf, carrier.Value(), rows + Filter(FreshIn(scope, rules), Cat(gots, |gots|)))
  {
    ghost var f := FreshIn(scope, rules);
    assert rows + [] == rows;
    for k := 0 to |parts|
      invariant Represents(keyOf, carrier.Value(), rows + Filter(f, Cat(gots, k)))
    {
      assert PartRight(keyOf, scope, parts[k], gots[k]);
      AddPending(keyOf, rules, parts[k].pending, carrier, rows + Filter(f, Cat(gots, k)));
      FreshOfPending(scope, rules, gots[k], |gots[k]|);
      FilterConcat(f, Cat(gots, k), gots[k]);
      Assoc(rows, Filter(f, Cat(gots, k)), Filter(f, gots[k]));
    }
  }

  // ---- The theorem ----------------------------------------------------------------------------------------------------

  predicate Wanted(scope: Sess -> bool, r: Row) {
    !r.kind.OtherKind? && scope(SessOf(r))
  }

  // The rows that count: in scope, and not replaced by a newer fact anywhere in the table.
  ghost function Kept(scope: Sess -> bool, rows: seq<Row>): seq<Row> {
    Filter((r: Row) => Wanted(scope, r) && !Superseded(rows, r), rows)
  }

  lemma {:induction false} AfterInAll(scope: Sess -> bool, rows: seq<Row>, all: seq<Row>, s: Sess, name: string, t: nat)
    requires scope(s) && AllRead(rows, all)
    ensures NamedAfter(Filter(SettledIn(scope), all), s, name, t) <==> NamedAfter(rows, s, name, t)
    ensures AnyAfter(Filter(SettledIn(scope), all), s, t) <==> AnyAfter(rows, s, t)
    ensures SkillAfter(Filter(SettledIn(scope), all), s, t) <==> SkillAfter(rows, s, t)
  {
    forall r: Row | SessOf(r) == s && (IsTool(r) || r.kind == SkillKind) ensures r in Filter(SettledIn(scope), all) <==> r in rows {
      FilterHas(SettledIn(scope), all, r);
      assert r in multiset(rows) <==> r in rows;
      assert r in multiset(all) <==> r in all;
    }
  }

  lemma {:induction false} StaleMeansSuperseded(scope: Sess -> bool, rules: Rules, rows: seq<Row>, all: seq<Row>, r: Row)
    requires scope(SessOf(r)) && AllRead(rows, all) && RulesTell(rules, Filter(SettledIn(scope), all))
    ensures Stale(rules, r) <==> Superseded(rows, r)
  {
    assert Tells(rules, Filter(SettledIn(scope), all), SessOf(r));
    StaleIsSuperseded(rules, Filter(SettledIn(scope), all), r);
    AfterInAll(scope, rows, all, SessOf(r), r.name, r.ts);
  }

  lemma {:induction false} KeptInTwoParts(scope: Sess -> bool, rules: Rules, rows: seq<Row>, all: seq<Row>)
    requires AllRead(rows, all) && RulesTell(rules, Filter(SettledIn(scope), all))
    ensures multiset(Filter(SettledIn(scope), all) + Filter(FreshIn(scope, rules), all)) == multiset(Kept(scope, rows))
  {
    var a, b := Filter(SettledIn(scope), all), Filter(FreshIn(scope, rules), all);
    forall r ensures multiset(a + b)[r] == multiset(Kept(scope, rows))[r] {
      FilterHas(SettledIn(scope), all, r);
      FilterHas(FreshIn(scope, rules), all, r);
      FilterHas((r: Row) => Wanted(scope, r) && !Superseded(rows, r), rows, r);
      if scope(SessOf(r)) { StaleMeansSuperseded(scope, rules, rows, all, r); }
    }
  }

  /**
   * carriedSets: whatever the number of slices, the sets say of each session and digest what the table's
   * rows that count say: first time, tool count, and per key its tokens and rows.
   */
  method CarriedSetsOf(keyOf: Row -> string, scope: Sess -> bool, rows: seq<Row>, shards: nat) returns (d: Decls)
    requires shards > 0
    ensures Represents(keyOf, d, Kept(scope, rows))
  {
    if rows == [] {
      NothingRepresented(keyOf);
      return NO_DECLS;
    }
    var parts; ghost var gots;
    parts, gots := ReadParts(keyOf, scope, rows, shards);
    var carrier := new Carrier();
    var rules := MergeParts(keyOf, scope, parts, gots, carrier);
    ghost var all := Cat(gots, |gots|);
    AddAllPending(keyOf, scope, rules, parts, gots, carrier, Filter(SettledIn(scope), all));
    KeptInTwoParts(scope, rules, rows, all);
    RepresentsPermuted(keyOf, carrier.Value(), Filter(SettledIn(scope), all) + Filter(FreshIn(scope, rules), all), Kept(scope, rows));
    d := carrier.Value();
  }
}
