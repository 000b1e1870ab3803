/**
 * What one pipeline run does to the values of a request's messages (components/pipeline.go).
 *
 * A component is an adversary: it proposes any new message list, may fail or panic, and may say
 * anything about itself. `Settle` is the engine's verdict on one proposal; `Replay` folds it over a
 * run. The heap-level engine in Engine.dfy is proved to compute exactly these functions.
 */
module PipelineRules {
  import opened Lists

  // A message's value. `text` is what the tokenizer reads; `meta` is every other field.
  datatype Content = Content(role: string, text: string, meta: string)

  type Tokenizer = string -> nat

  datatype Kind = Reformat | Offload | Neither

  datatype Component = Component(name: string, kind: Kind, enabled: bool)

  // What a component did when it ran. `skipped` and `irreversible` are its own words on its report;
  // `keys` are the stash keys it returned.
  datatype Action = Action(
    proposed: seq<Content>, panicked: bool, failed: bool,
    keys: seq<string>, skipped: bool, irreversible: bool)

  datatype Report = Report(
    component: string, kind: Kind, tokensBefore: int, tokensAfter: int,
    skipped: bool, reverted: bool, failed: bool, changed: seq<nat>)

  datatype Turn = Turn(comp: Component, action: Action)

  function Tokens(count: Tokenizer, ms: seq<Content>): nat {
    if ms == [] then 0 else Tokens(count, ms[..|ms| - 1]) + count(ms[|ms| - 1].text)
  }

  // The indices below n at which two lists differ, in order.
  function DiffBelow(before: seq<Content>, after: seq<Content>, n: nat): seq<nat>
    requires n <= |before| == |after|
  {
    if n == 0 then []
    else if before[n - 1] != after[n - 1] then DiffBelow(before, after, n - 1) + [n - 1]
    else DiffBelow(before, after, n - 1)
  }

  // An index is listed exactly when the lists differ there.
  lemma {:induction false} DiffListed(before: seq<Content>, after: seq<Content>, n: nat, i: nat)
    requires n <= |before| == |after|
    ensures i in DiffBelow(before, after, n) <==> i < n && before[i] != after[i]
  {
    if n > 0 { DiffListed(before, after, n - 1, i); }
  }

  lemma {:induction false} SameHasNoDiff(ms: seq<Content>, n: nat)
    requires n <= |ms|
    ensures DiffBelow(ms, ms, n) == []
  {
    if n > 0 { SameHasNoDiff(ms, n - 1); }
  }

  // A changed message count has no per-index difference.
  function Changed(before: seq<Content>, after: seq<Content>): seq<nat> {
    if |before| != |after| then [] else DiffBelow(before, after, |before|)
  }

  // Our own tool outputs put back at their indices; a changed count is left alone.
  function Restored(before: seq<Content>, proposed: seq<Content>, own: set<nat>): (out: seq<Content>)
    ensures |out| == |proposed|
  {
    if |before| != |proposed| then proposed
    else seq(|proposed|, i requires 0 <= i < |proposed| => if i in own then before[i] else proposed[i])
  }

  // An Offload that shrank the request without stashing an original, and did not say so.
  predicate DroppedUnstashed(count: Tokenizer, before: seq<Content>, t: Turn) {
    && t.comp.kind == Offload
    && Tokens(count, t.action.proposed) < Tokens(count, before)
    && t.action.keys == []
    && !t.action.skipped
    && !t.action.irreversible
  }

  predicate Refused(count: Tokenizer, before: seq<Content>, t: Turn) {
    || t.action.panicked
    || t.action.failed
    || DroppedUnstashed(count, before, t)
    || Tokens(count, t.action.proposed) > Tokens(count, before)
  }

  function Settle(count: Tokenizer, own: set<nat>, before: seq<Content>, t: Turn): seq<Content> {
    if t.comp.kind == Neither || Refused(count, before, t) then before
    else Restored(before, t.action.proposed, own)
  }

  function ReportOf(count: Tokenizer, own: set<nat>, before: seq<Content>, t: Turn): Report {
    var after := Settle(count, own, before, t);
    var refused := t.comp.kind != Neither && Refused(count, before, t);
    Report(
      t.comp.name, t.comp.kind, Tokens(count, before), Tokens(count, after),
      t.comp.kind == Neither || (t.action.skipped && !t.action.panicked), refused,
      refused && (t.action.panicked || t.action.failed || DroppedUnstashed(count, before, t)),
      Changed(before, after))
  }

  lemma {:induction false} ReportRefused(count: Tokenizer, own: set<nat>, before: seq<Content>, t: Turn)
    requires t.comp.kind != Neither && Refused(count, before, t)
    ensures Settle(count, own, before, t) == before
    ensures ReportOf(count, own, before, t) == Report(
      t.comp.name, t.comp.kind, Tokens(count, before), Tokens(count, before),
      t.action.skipped && !t.action.panicked, true,
      t.action.panicked || t.action.failed || DroppedUnstashed(count, before, t), [])
  {
    SameHasNoDiff(before, |before|);
  }

  // An Offload whose request got smaller although it stashed nothing, skipped nothing and chose no lossy drop.
  predicate Lossy(count: Tokenizer, before: seq<Content>, t: Turn) {
    t.comp.kind.Offload? && Tokens(count, t.action.proposed) < Tokens(count, before)
    && |t.action.keys| == 0 && !(t.action.skipped || t.action.irreversible)
  }

  /**
   * What one turn comes to. It panicked, returned an error, lost content or grew the request: every message
   * is as it was, and the report says reverted and, but for mere growth, failed. Otherwise its work stands:
   * a list of another length as proposed, one of the same length but for the own outputs.
   */
  ghost predicate TurnOutcome(count: Tokenizer, own: set<nat>, before: seq<Content>, t: Turn, after: seq<Content>, rep: Report) {
    var a := t.action;
    && rep.component == t.comp.name && rep.kind == t.comp.kind
    && rep.tokensBefore == Tokens(count, before) && rep.tokensAfter == Tokens(count, after)
    && (forall i: nat :: i in rep.changed <==> |after| == |before| && i < |after| && after[i] != before[i])
    && (t.comp.kind.Neither? ==> after == before && rep.skipped && !rep.reverted && !rep.failed)
    && (!t.comp.kind.Neither? ==>
      && (rep.skipped <==> a.skipped && !a.panicked)
      && (rep.failed <==> a.panicked || a.failed || Lossy(count, before, t))
      && (rep.reverted <==> rep.failed || Tokens(count, a.proposed) > Tokens(count, before))
      && (rep.reverted ==> after == before)
      && (!rep.reverted && |a.proposed| != |before| ==> after == a.proposed)
      && (!rep.reverted && |a.proposed| == |before| ==>
        |after| == |before| && forall i :: 0 <= i < |before| ==> after[i] == if i in own then before[i] else a.proposed[i]))
  }

  lemma {:induction false} SettleOutcome(count: Tokenizer, own: set<nat>, before: seq<Content>, t: Turn)
    ensures TurnOutcome(count, own, before, t, Settle(count, own, before, t), ReportOf(count, own, before, t))
  {
    var after := Settle(count, own, before, t);
    forall i: nat ensures i in Changed(before, after) <==> |after| == |before| && i < |after| && after[i] != before[i] {
      if |after| == |before| { DiffListed(before, after, |before|, i); }
    }
    if t.comp.kind != Neither && Refused(count, before, t) { ReportRefused(count, own, before, t); }
  }

  // The message values after a run of turns, and the reports it produced.
  function Replay(count: Tokenizer, own: set<nat>, start: seq<Content>, turns: seq<Turn>): seq<Content> {
    if turns == [] then start
    else Settle(count, own, Replay(count, own, start, turns[..|turns| - 1]), turns[|turns| - 1])
  }

  function Reports(count: Tokenizer, own: set<nat>, start: seq<Content>, turns: seq<Turn>): seq<Report> {
    seq(|turns|, k requires 0 <= k < |turns| =>
      ReportOf(count, own, Replay(count, own, start, turns[..k]), turns[k]))
  }

  lemma {:induction false} ReportsPrefix(count: Tokenizer, own: set<nat>, start: seq<Content>, turns: seq<Turn>, n: nat)
    requires n <= |turns|
    ensures Reports(count, own, start, turns[..n]) == Reports(count, own, start, turns)[..n]
  {
    assert forall k :: 0 <= k < n ==> turns[..n][..k] == turns[..k];
  }

  lemma {:induction false} OneTurnMore(count: Tokenizer, own: set<nat>, start: seq<Content>, turns: seq<Turn>, t: Turn)
    ensures var now := Replay(count, own, start, turns);
      && Replay(count, own, start, turns + [t]) == Settle(count, own, now, t)
      && Reports(count, own, start, turns + [t])
         == Reports(count, own, start, turns) + [ReportOf(count, own, now, t)]
  {
    assert (turns + [t])[..|turns|] == turns;
    ReportsPrefix(count, own, start, turns + [t], |turns|);
  }

  // ---- Never worse --------------------------------------------------------------------------

  // The tokens of the messages outside `own`.
  function TokensOutside(count: Tokenizer, own: set<nat>, ms: seq<Content>): nat {
    if ms == [] then 0
    else TokensOutside(count, own, ms[..|ms| - 1]) + (if |ms| - 1 in own then 0 else count(ms[|ms| - 1].text))
  }

  lemma {:induction false} RestoredTokens(count: Tokenizer, own: set<nat>, before: seq<Content>, proposed: seq<Content>)
    requires |before| == |proposed|
    ensures Tokens(count, Restored(before, proposed, own)) + TokensOutside(count, own, before)
         == Tokens(count, before) + TokensOutside(count, own, proposed)
  {
    if before != [] {
      var b, p := before[..|before| - 1], proposed[..|proposed| - 1];
      RestoredTokens(count, own, b, p);
      assert Restored(before, proposed, own)[..|before| - 1] == Restored(b, p, own);
    }
  }

  lemma {:induction false} OutsideNothing(count: Tokenizer, ms: seq<Content>)
    ensures TokensOutside(count, {}, ms) == Tokens(count, ms)
  {
    if ms != [] { OutsideNothing(count, ms[..|ms| - 1]); }
  }

  /**
   * Exactly when one component leaves the request no heavier. The guard runs before the own outputs
   * are put back, so a kept, count-keeping proposal is safe if and only if the messages OUTSIDE the
   * own outputs did not grow.
   */
  lemma {:induction false} SettleNeverWorseIff(count: Tokenizer, own: set<nat>, before: seq<Content>, t: Turn)
    ensures Tokens(count, Settle(count, own, before, t)) <= Tokens(count, before) <==>
      || t.comp.kind == Neither
      || Refused(count, before, t)
      || |t.action.proposed| != |before|
      || TokensOutside(count, own, t.action.proposed) <= TokensOutside(count, own, before)
  {
    if |t.action.proposed| == |before| {
      RestoredTokens(count, own, before, t.action.proposed);
    }
  }

  // In a run with no own outputs, the request never ends heavier than it began.
  lemma {:induction false} RunNeverWorse(count: Tokenizer, start: seq<Content>, turns: seq<Turn>)
    ensures Tokens(count, Replay(count, {}, start, turns)) <= Tokens(count, start)
  {
    if turns != [] {
      var init, t := turns[..|turns| - 1], turns[|turns| - 1];
      RunNeverWorse(count, start, init);
      var mid := Replay(count, {}, start, init);
      SettleNeverWorseIff(count, {}, mid, t);
      OutsideNothing(count, mid);
      OutsideNothing(count, t.action.proposed);
    }
  }

  lemma {:induction false} TokensOfTwo(count: Tokenizer, a: Content, b: Content)
    ensures Tokens(count, [a, b]) == count(a.text) + count(b.text)
  {
    var one, two := [a], [a, b];
    assert one[..0] == [] && two[..1] == one;
    assert Tokens(count, one) == count(a.text);
  }

  /**
   * With an own output present the engine's "never worse" is false: a component may shrink the own
   * output, spend the room on another message, pass the guard, and then get the own output back.
   */
  lemma {:induction false} OwnOutputsBreakNeverWorse()
    ensures exists count: Tokenizer, start: seq<Content>, t: Turn ::
      && |t.action.proposed| == |start|
      && !Refused(count, start, t)
      && Tokens(count, Replay(count, {0}, start, [t])) > Tokens(count, start)
  {
    var count: Tokenizer := (s: string) => |s|;
    var big, small, grown := Content("tool", "report", ""), Content("user", "a", ""), Content("user", "aaaa", "");
    var start := [big, small];
    var t := Turn(Component("c", Reformat, true),
                  Action([Content("tool", "", ""), grown], false, false, [], false, false));
    TokensOfTwo(count, big, small);
    TokensOfTwo(count, Content("tool", "", ""), grown);
    TokensOfTwo(count, big, grown);
    var after := Replay(count, {0}, start, [t]);
    assert [t][..0] == [];
    assert Replay(count, {0}, start, []) == start;
    assert after == [big, grown];
    assert !Refused(count, start, t) && |t.action.proposed| == |start|;
  }

  // The savings the reports claim add up to exactly the tokens the run removed.
  function Saved(reports: seq<Report>): int {
    if reports == [] then 0
    else Saved(reports[..|reports| - 1]) + reports[|reports| - 1].tokensBefore - reports[|reports| - 1].tokensAfter
  }

  lemma {:induction false} SavingsTelescope(count: Tokenizer, own: set<nat>, start: seq<Content>, turns: seq<Turn>)
    ensures Saved(Reports(count, own, start, turns))
         == Tokens(count, start) - Tokens(count, Replay(count, own, start, turns))
  {
    if turns != [] {
      var init := turns[..|turns| - 1];
      SavingsTelescope(count, own, start, init);
      ReportsPrefix(count, own, start, turns, |turns| - 1);
    }
  }

  // ---- Own outputs --------------------------------------------------------------------------

  // No component of the run kept a change of the message count.
  ghost predicate CountKept(count: Tokenizer, own: set<nat>, start: seq<Content>, turns: seq<Turn>) {
    forall k :: 0 <= k <= |turns| ==> |Replay(count, own, start, turns[..k])| == |start|
  }

  lemma {:induction false} CountKeptPrefix(count: Tokenizer, own: set<nat>, start: seq<Content>, turns: seq<Turn>, n: nat)
    requires CountKept(count, own, start, turns) && n <= |turns|
    ensures CountKept(count, own, start, turns[..n])
  {
    forall k | 0 <= k <= n ensures |Replay(count, own, start, turns[..n][..k])| == |start| {
      assert turns[..n][..k] == turns[..k];
    }
  }

  // Every own output is where it was and what it was.
  ghost predicate InPlace(own: set<nat>, start: seq<Content>, ms: seq<Content>) {
    forall i :: i in own && i < |start| ==> i < |ms| && ms[i] == start[i]
  }

  // The engine keeps this turn's proposal, and the proposal has another message count.
  predicate Recounts(count: Tokenizer, before: seq<Content>, t: Turn) {
    t.comp.kind != Neither && !Refused(count, before, t) && |t.action.proposed| != |before|
  }

  // Where one turn leaves the own outputs: where they were, unless it recounts, and then where it says.
  lemma {:induction false} SettleInPlaceIff(
      count: Tokenizer, own: set<nat>, start: seq<Content>, before: seq<Content>, t: Turn)
    ensures InPlace(own, start, Settle(count, own, before, t)) <==>
      InPlace(own, start, if Recounts(count, before, t) then t.action.proposed else before)
  {
    var after := Settle(count, own, before, t);
    if !Recounts(count, before, t) {
      assert |after| == |before| && forall i :: i in own && i < |before| ==> after[i] == before[i];
    }
  }

  // The last turn of a run that recounted, or -1.
  function LastRecount(count: Tokenizer, own: set<nat>, start: seq<Content>, turns: seq<Turn>): (k: int)
    ensures -1 <= k < |turns|
  {
    if turns == [] then -1
    else
      var init, t := turns[..|turns| - 1], turns[|turns| - 1];
      if Recounts(count, Replay(count, own, start, init), t) then |turns| - 1 else LastRecount(count, own, start, init)
  }

  /**
   * Whatever the components do, every own output ends equal to how it began if and only if no turn
   * recounted, or the last one that did proposed the own outputs in their places itself.
   */
  lemma {:induction false} OwnOutputsSurviveIff(count: Tokenizer, own: set<nat>, start: seq<Content>, turns: seq<Turn>)
    ensures InPlace(own, start, Replay(count, own, start, turns)) <==>
      var k := LastRecount(count, own, start, turns);
      k >= 0 ==> InPlace(own, start, turns[k].action.proposed)
  {
    if turns != [] {
      var init, t := turns[..|turns| - 1], turns[|turns| - 1];
      OwnOutputsSurviveIff(count, own, start, init);
      SettleInPlaceIff(count, own, start, Replay(count, own, start, init), t);
    }
  }

  // A turn that does not recount, or that proposes the own outputs in their places itself.
  ghost predicate KeepsOwn(count: Tokenizer, own: set<nat>, start: seq<Content>, before: seq<Content>, t: Turn) {
    Recounts(count, before, t) ==> InPlace(own, start, t.action.proposed)
  }

  ghost predicate InPlaceThrough(count: Tokenizer, own: set<nat>, start: seq<Content>, turns: seq<Turn>, n: nat)
    requires n <= |turns|
  {
    forall m :: 0 <= m <= n ==> InPlace(own, start, Replay(count, own, start, turns[..m]))
  }

  ghost predicate KeptThrough(count: Tokenizer, own: set<nat>, start: seq<Content>, turns: seq<Turn>, n: nat)
    requires n <= |turns|
  {
    forall k :: 0 <= k < n ==> KeepsOwn(count, own, start, Replay(count, own, start, turns[..k]), turns[k])
  }

  // They stay in place throughout a run if and only if every turn keeps them so.
  lemma {:induction false} OwnOutputsStayIff(count: Tokenizer, own: set<nat>, start: seq<Content>, turns: seq<Turn>, n: nat)
    requires n <= |turns|
    ensures InPlaceThrough(count, own, start, turns, n) <==> KeptThrough(count, own, start, turns, n)
  {
    if n == 0 {
      assert turns[..0] == [];
    } else {
      OwnOutputsStayIff(count, own, start, turns, n - 1);
      if InPlaceThrough(count, own, start, turns, n - 1) { StaysOneTurn(count, own, start, turns, n - 1); }
    }
  }

  lemma {:induction false} StaysOneTurn(count: Tokenizer, own: set<nat>, start: seq<Content>, turns: seq<Turn>, k: nat)
    requires k < |turns| && InPlace(own, start, Replay(count, own, start, turns[..k]))
    ensures InPlace(own, start, Replay(count, own, start, turns[..k + 1])) <==>
      KeepsOwn(count, own, start, Replay(count, own, start, turns[..k]), turns[k])
  {
    assert turns[..k + 1][..k] == turns[..k];
    SettleInPlaceIff(count, own, start, Replay(count, own, start, turns[..k]), turns[k]);
  }

  lemma {:induction false} CountKeptNoRecount(count: Tokenizer, own: set<nat>, start: seq<Content>, turns: seq<Turn>)
    requires CountKept(count, own, start, turns)
    ensures LastRecount(count, own, start, turns) == -1
  {
    if turns != [] {
      var n := |turns| - 1;
      assert turns[..n + 1] == turns;
      CountKeptPrefix(count, own, start, turns, n);
      CountKeptNoRecount(count, own, start, turns[..n]);
    }
  }

  // In particular, in a run that keeps the message count an own output ends equal to how it began.
  lemma {:induction false} OwnOutputsSurvive(
      count: Tokenizer, own: set<nat>, start: seq<Content>, turns: seq<Turn>, i: nat)
    requires CountKept(count, own, start, turns)
    requires i in own && i < |start|
    ensures |Replay(count, own, start, turns)| == |start|
    ensures Replay(count, own, start, turns)[i] == start[i]
  {
    assert turns[..|turns|] == turns;
    CountKeptNoRecount(count, own, start, turns);
    OwnOutputsSurviveIff(count, own, start, turns);
  }

  // The indices are taken once, before the run, so a kept count change loses the protection.
  lemma {:induction false} CountChangeLosesOwnOutput()
    ensures exists count: Tokenizer, start: seq<Content>, t: Turn ::
      && 0 < |start|
      && |Replay(count, {0}, start, [t])| < |start|
      && start[0] !in Replay(count, {0}, start, [t])
  {
    var count: Tokenizer := (s: string) => |s|;
    var start := [Content("tool", "report", "")];
    var t := Turn(Component("c", Reformat, true), Action([], false, false, [], false, false));
    assert start[..0] == [] && [t][..0] == [];
    assert Replay(count, {0}, start, []) == start;
    assert Replay(count, {0}, start, [t]) == [];
  }

  // ---- Attribution of discarded changes -------------------------------------------------------

  // The last report that changed message i, or -1.
  function Owner(reports: seq<Report>, i: nat): (c: int)
    ensures -1 <= c < |reports|
  {
    if reports == [] then -1
    else if i in reports[|reports| - 1].changed then |reports| - 1
    else Owner(reports[..|reports| - 1], i)
  }

  lemma {:induction false} OwnerOfOneMore(reports: seq<Report>, r: Report, i: nat)
    ensures Owner(reports + [r], i) == if i in r.changed then |reports| else Owner(reports, i)
  {
    assert (reports + [r])[..|reports|] == reports;
  }

  // The engine's owner table: each report in turn overwrites the entries it changed.
  function Assign(owner: map<nat, nat>, changed: seq<nat>, c: nat): map<nat, nat> {
    if changed == [] then owner else Assign(owner, changed[..|changed| - 1], c)[changed[|changed| - 1] := c]
  }

  function OwnerTable(reports: seq<Report>): map<nat, nat> {
    if reports == [] then map[]
    else Assign(OwnerTable(reports[..|reports| - 1]), reports[|reports| - 1].changed, |reports| - 1)
  }

  lemma {:induction false} AssignAt(owner: map<nat, nat>, changed: seq<nat>, c: nat, i: nat)
    ensures i in Assign(owner, changed, c) <==> i in changed || i in owner
    ensures i in changed ==> Assign(owner, changed, c)[i] == c
    ensures i !in changed && i in owner ==> Assign(owner, changed, c)[i] == owner[i]
  {
    if changed != [] { AssignAt(owner, changed[..|changed| - 1], c, i); }
  }

  lemma {:induction false} OwnerTableAt(reports: seq<Report>, i: nat)
    ensures i in OwnerTable(reports) <==> Owner(reports, i) >= 0
    ensures i in OwnerTable(reports) ==> OwnerTable(reports)[i] == Owner(reports, i)
  {
    if reports != [] {
      var init := reports[..|reports| - 1];
      OwnerTableAt(init, i);
      AssignAt(OwnerTable(init), reports[|reports| - 1].changed, |reports| - 1, i);
    }
  }

  ghost function Sum(m: map<nat, nat>): nat
    decreases |m|
  {
    if m == map[] then 0 else var k :| k in m; assert |(m - {k}).Keys| == |m.Keys| - 1; m[k] + Sum(m - {k})
  }

  // Taking out any one key takes out its value.
  lemma {:induction false} SumWithout(m: map<nat, nat>, k: nat)
    requires k in m
    ensures Sum(m) == m[k] + Sum(m - {k})
    decreases |m|
  {
    var p :| p in m && Sum(m) == m[p] + Sum(m - {p});
    if p != k {
      assert |(m - {p}).Keys| == |m.Keys| - 1;
      SumWithout(m - {p}, k);
      SumWithout(m - {k}, p) by { assert |(m - {k}).Keys| == |m.Keys| - 1; }
      assert m - {p} - {k} == m - {k} - {p};
    }
  }

  lemma {:induction false} SumCharge(m: map<nat, nat>, k: nat, n: nat)
    ensures Sum(m[k := Lookup(m, k) + n]) == Sum(m) + n
  {
    var after := m[k := Lookup(m, k) + n];
    SumWithout(after, k);
    assert after - {k} == m - {k};
    if k in m { SumWithout(m, k); } else { assert m - {k} == m; }
  }

  // The discards at the messages component c was the last to change.
  function ChargedTo(reports: seq<Report>, discarded: map<nat, nat>, c: nat): map<nat, nat> {
    map i | i in discarded && Owner(reports, i) == c :: discarded[i]
  }

  // The discards at messages some component changed at all.
  function Attributable(reports: seq<Report>, discarded: map<nat, nat>): map<nat, nat> {
    map i | i in discarded && Owner(reports, i) >= 0 :: discarded[i]
  }

  /**
   * `counts` is the exact bill for `discarded`: per component the discards at messages it was the
   * last to change, and in total the discards at messages any component changed.
   */
  ghost predicate Billed(reports: seq<Report>, discarded: map<nat, nat>, counts: map<nat, nat>) {
    && (forall c: nat :: Lookup(counts, c) == Sum(ChargedTo(reports, discarded, c)))
    && Sum(counts) == Sum(Attributable(reports, discarded))
  }

  lemma {:induction false} BillNothing(reports: seq<Report>)
    ensures Billed(reports, map[], map[])
  {
    forall c: nat ensures Lookup(map[], c) == Sum(ChargedTo(reports, map[], c)) {
      assert ChargedTo(reports, map[], c) == map[];
    }
    assert Attributable(reports, map[]) == map[];
  }

  lemma {:induction false} ChargeOne(reports: seq<Report>, done: map<nat, nat>, i: nat, n: nat, c: nat)
    requires i !in done
    ensures Sum(ChargedTo(reports, done[i := n], c))
         == Sum(ChargedTo(reports, done, c)) + if Owner(reports, i) == c then n else 0
  {
    var was, now := ChargedTo(reports, done, c), ChargedTo(reports, done[i := n], c);
    if Owner(reports, i) == c {
      SumWithout(now, i);
      assert now - {i} == was;
    } else {
      assert now == was;
    }
  }

  lemma {:induction false} ChargeAny(reports: seq<Report>, done: map<nat, nat>, i: nat, n: nat)
    requires i !in done
    ensures Sum(Attributable(reports, done[i := n]))
         == Sum(Attributable(reports, done)) + if Owner(reports, i) >= 0 then n else 0
  {
    var was, now := Attributable(reports, done), Attributable(reports, done[i := n]);
    if Owner(reports, i) >= 0 {
      SumWithout(now, i);
      assert now - {i} == was;
    } else {
      assert now == was;
    }
  }

  function ChargeOwner(counts: map<nat, nat>, owner: int, n: nat): map<nat, nat> {
    if owner >= 0 then counts[owner := Lookup(counts, owner) + n] else counts
  }

  lemma {:induction false} BillAt(reports: seq<Report>, done: map<nat, nat>, counts: map<nat, nat>, i: nat, n: nat, c: nat)
    requires Lookup(counts, c) == Sum(ChargedTo(reports, done, c)) && i !in done
    ensures Lookup(ChargeOwner(counts, Owner(reports, i), n), c) == Sum(ChargedTo(reports, done[i := n], c))
  {
    ChargeOne(reports, done, i, n, c);
  }

  // One more discard moves only its owner's charge, by exactly its size.
  lemma {:induction false} BillOneMore(reports: seq<Report>, done: map<nat, nat>, counts: map<nat, nat>, i: nat, n: nat)
    requires Billed(reports, done, counts) && i !in done
    ensures Billed(reports, done[i := n], ChargeOwner(counts, Owner(reports, i), n))
  {
    var next := ChargeOwner(counts, Owner(reports, i), n);
    assert Sum(next) == Sum(Attributable(reports, done[i := n])) by {
      ChargeAny(reports, done, i, n);
      if Owner(reports, i) >= 0 { SumCharge(counts, Owner(reports, i), n); }
    }
    forall c: nat ensures Lookup(next, c) == Sum(ChargedTo(reports, done[i := n], c)) {
      BillAt(reports, done, counts, i, n, c);
    }
  }

  // The message values before the first turn, and after each.
  function History(count: Tokenizer, own: set<nat>, start: seq<Content>, turns: seq<Turn>): (h: seq<seq<Content>>)
    ensures |h| == |turns| + 1
  {
    if turns == [] then [start]
    else History(count, own, start, turns[..|turns| - 1]) + [Replay(count, own, start, turns)]
  }

  lemma {:induction false} HistoryAt(count: Tokenizer, own: set<nat>, start: seq<Content>, turns: seq<Turn>, k: nat)
    requires k <= |turns|
    ensures History(count, own, start, turns)[k] == Replay(count, own, start, turns[..k])
    decreases |turns|
  {
    if k == |turns| {
      assert turns[..k] == turns;
    } else {
      HistoryAt(count, own, start, turns[..|turns| - 1], k);
      assert turns[..|turns| - 1][..k] == turns[..k];
    }
  }

  // Turn c changed message i, and no turn after it did; for c < 0, no turn did.
  predicate SettledAt(history: seq<seq<Content>>, i: nat, c: int)
    requires history != [] && forall k :: 0 <= k < |history| ==> i < |history[k]|
  {
    var final := history[|history| - 1][i];
    && -1 <= c < |history| - 1
    && (forall k :: c < k < |history| ==> history[k][i] == final)
    && (c >= 0 ==> history[c][i] != history[c + 1][i])
  }

  // One more turn settles the message now if it changes it, and leaves it settled where it was if not.
  lemma {:induction false} SettledOneMore(history: seq<seq<Content>>, next: seq<Content>, i: nat, c: int)
    requires history != [] && i < |next| && forall k :: 0 <= k < |history| ==> i < |history[k]|
    requires SettledAt(history, i, c)
    ensures SettledAt(history + [next], i, if history[|history| - 1][i] == next[i] then c else |history| - 1)
  {
  }

  /**
   * In a run that keeps the count, the report a discard is charged to really is the one whose change
   * was thrown away: the one turn that changed the message and after which nothing did.
   */
  lemma {:induction false} OwnerMadeTheFinalChange(
      count: Tokenizer, own: set<nat>, start: seq<Content>, turns: seq<Turn>, i: nat)
    requires CountKept(count, own, start, turns) && i < |start|
    ensures forall k :: 0 <= k <= |turns| ==> |History(count, own, start, turns)[k]| == |start|
    ensures forall c :: SettledAt(History(count, own, start, turns), i, c) <==> c == Owner(Reports(count, own, start, turns), i)
  {
    CountKeptHistory(count, own, start, turns);
    OwnerSettled(count, own, start, turns, i, History(count, own, start, turns));
  }

  lemma {:induction false} CountKeptHistory(count: Tokenizer, own: set<nat>, start: seq<Content>, turns: seq<Turn>)
    requires CountKept(count, own, start, turns)
    ensures forall k :: 0 <= k <= |turns| ==> |History(count, own, start, turns)[k]| == |start|
  {
    forall k | 0 <= k <= |turns| ensures |History(count, own, start, turns)[k]| == |start| { HistoryAt(count, own, start, turns, k); }
  }

  lemma {:induction false} OwnerSettled(
      count: Tokenizer, own: set<nat>, start: seq<Content>, turns: seq<Turn>, i: nat, h: seq<seq<Content>>)
    requires h == History(count, own, start, turns) && i < |start| && forall k :: 0 <= k < |h| ==> |h[k]| == |start|
    ensures SettledAt(h, i, Owner(Reports(count, own, start, turns), i))
  {
    if turns != [] {
      var init, t := turns[..|turns| - 1], turns[|turns| - 1];
      var was := h[..|turns|];
      assert was == History(count, own, start, init) && forall k :: 0 <= k < |was| ==> |was[k]| == |h[k]|;
      OwnerSettled(count, own, start, init, i, was);
      assert turns == init + [t] && h == was + [Replay(count, own, start, turns)];
      assert was[|init|] == Replay(count, own, start, init) by { if init == [] { assert was == [start]; } }
      SettledStep(count, own, start, init, t, i, was);
    }
  }

  lemma {:induction false} SettledStep(
      count: Tokenizer, own: set<nat>, start: seq<Content>, init: seq<Turn>, t: Turn, i: nat, was: seq<seq<Content>>)
    requires |was| == |init| + 1 && was[|init|] == Replay(count, own, start, init)
    requires (forall k :: 0 <= k < |was| ==> i < |was[k]|) && SettledAt(was, i, Owner(Reports(count, own, start, init), i))
    requires |Replay(count, own, start, init)| == |Replay(count, own, start, init + [t])|
    ensures SettledAt(was + [Replay(count, own, start, init + [t])], i, Owner(Reports(count, own, start, init + [t]), i))
  {
    OwnerOneTurnMore(count, own, start, init, t, i);
    SettledOneMore(was, Replay(count, own, start, init + [t]), i, Owner(Reports(count, own, start, init), i));
  }

  lemma {:induction false} OwnerOneTurnMore(count: Tokenizer, own: set<nat>, start: seq<Content>, init: seq<Turn>, t: Turn, i: nat)
    requires i < |Replay(count, own, start, init)| == |Replay(count, own, start, init + [t])|
    ensures Owner(Reports(count, own, start, init + [t]), i) ==
      if Replay(count, own, start, init)[i] == Replay(count, own, start, init + [t])[i] then Owner(Reports(count, own, start, init), i)
      else |init|
  {
    var was := Replay(count, own, start, init);
    OneTurnMore(count, own, start, init, t);
    OwnerOfOneMore(Reports(count, own, start, init), ReportOf(count, own, was, t), i);
    DiffListed(was, Settle(count, own, was, t), |was|, i);
  }
}
