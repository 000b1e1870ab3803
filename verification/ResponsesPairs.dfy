/**
 * Which Responses outputs are rebuilt, and what happens to the calls in them (apply/responses.go): the
 * rebuild finds exactly the summarizer's span, declines only where the wire cannot carry the output, and
 * never parts a call from its output.
 */
module ResponsesPairs {
  import opened Lists
  import opened Responses
  import opened ResponsesRebuild
  import opened ResponsesUndo

  // ---- Calls and outputs ----------------------------------------------------------------------------------

  predicate OfSide(call: bool, it: Item, id: string) {
    it.callID == id && if call then IsCall(it) else IsOutput(it)
  }

  ghost predicate Has(items: seq<Item>, call: bool, id: string) {
    exists j :: 0 <= j < |items| && OfSide(call, items[j], id)
  }

  function LastOf(items: seq<Item>, call: bool, id: string, n: nat): (k: int)
    requires n <= |items|
    ensures -1 <= k < n && (k >= 0 ==> OfSide(call, items[k], id))
  {
    if call then LastCall(items, id, n) else LastOutput(items, id, n)
  }

  // No id is called twice, or answered twice.
  ghost predicate UniqueIds(items: seq<Item>) {
    forall i, j, call, id ::
      0 <= i < |items| && 0 <= j < |items| && id != "" && OfSide(call, items[i], id) && OfSide(call, items[j], id) ==> i == j
  }

  lemma {:induction false} LastReaches(items: seq<Item>, call: bool, id: string, n: nat, k: nat)
    requires k < n <= |items| && OfSide(call, items[k], id)
    ensures LastOf(items, call, id, n) >= k
  {
    if k < n - 1 { LastReaches(items, call, id, n - 1, k); }
  }

  lemma {:induction false} LastIsOnly(items: seq<Item>, call: bool, id: string, k: nat)
    requires UniqueIds(items) && id != "" && k < |items| && OfSide(call, items[k], id)
    ensures LastOf(items, call, id, |items|) == k
  {
    LastReaches(items, call, id, |items|, k);
  }

  // A call and its output are cut together or kept together.
  lemma {:induction false} SameFate(items: seq<Item>, first: nat, last: nat, id: string, i: nat, j: nat)
    requires UniqueIds(items) && PairsWhole(items, first, last) && id != ""
    requires i < |items| && j < |items| && OfSide(true, items[i], id) && OfSide(false, items[j], id)
    ensures first <= i <= last <==> first <= j <= last
  {
    LastIsOnly(items, true, id, i);
    LastIsOnly(items, false, id, j);
    assert PairWhole(items, id, first, last);
  }

  // The write-back changes no item's kind or id.
  lemma {:induction false} WrittenSide(c: Job, call: bool, id: string, i: nat)
    requires Cut(c) && i < |c.items|
    ensures OfSide(call, c.Written()[i], id) <==> OfSide(call, c.items[i], id)
  {
    WrittenGivesBack(c);
  }

  lemma {:induction false} ResultAt(w: seq<Item>, first: nat, last: nat, summary: Item, k: nat)
    requires first <= last < |w| && k < |Assembled(w, first, last, summary)|
    ensures k == first ==> Assembled(w, first, last, summary)[k] == summary
    ensures k < first ==> Assembled(w, first, last, summary)[k] == w[k]
    ensures k > first ==> k + (last - first) < |w| && Assembled(w, first, last, summary)[k] == w[k + (last - first)]
  {
  }

  // What a side of an id has in the result is what it had outside the span.
  lemma {:induction false} KeptSide(c: Job, call: bool, id: string, j: nat)
    requires Cut(c) && id != "" && j < |c.items| && !(c.first <= j <= c.last) && OfSide(call, c.items[j], id)
    ensures Has(c.Result(), call, id)
  {
    WrittenSide(c, call, id, j);
    var k := if j < c.first then j else j - (c.last - c.first);
    ResultAt(c.Written(), c.first, c.last, SummaryItem(c.out[c.s].text), k);
    assert OfSide(call, c.Result()[k], id);
  }

  lemma {:induction false} FoundSide(c: Job, call: bool, id: string) returns (j: nat)
    requires Cut(c) && id != "" && Has(c.Result(), call, id)
    ensures j < |c.items| && !(c.first <= j <= c.last) && OfSide(call, c.items[j], id)
  {
    var k :| 0 <= k < |c.Result()| && OfSide(call, c.Result()[k], id);
    ResultAt(c.Written(), c.first, c.last, SummaryItem(c.out[c.s].text), k);
    j := if k < c.first then k else k + (c.last - c.first);
    WrittenSide(c, call, id, j);
  }

  /**
   * A call that stays has its output exactly when it had it before, an output that stays has its call, and
   * of an exchange that was cut nothing stays.
   */
  lemma {:induction false} NoPairIsParted(b: Body, out: seq<Msg>, after: Body, c: Job, call: bool, id: string, i: nat)
    requires Rebuilt(b, out) == Some(after) && c == JobOf(b, out) && UniqueIds(c.items)
    requires i < |c.items| && id != "" && OfSide(call, c.items[i], id)
    ensures after.input.Items?
    ensures !(c.first <= i <= c.last) ==> (Has(after.input.items, !call, id) <==> Has(c.items, !call, id))
    ensures c.first <= i <= c.last ==> !Has(after.input.items, call, id) && !Has(after.input.items, !call, id)
  {
    RebuiltCuts(b, out, c);
    CutPairsWhole(b, out, c);
    NoPairIsCutApart(c, call, id, i);
  }

  lemma {:induction false} CutPairsWhole(b: Body, out: seq<Msg>, c: Job)
    requires Span(b, out).Some? && c == JobOf(b, out)
    ensures PairsWhole(c.items, c.first, c.last)
  {
    RebuiltSpan(b, out, c);
  }

  lemma {:induction false} NoPairIsCutApart(c: Job, call: bool, id: string, i: nat)
    requires Cut(c) && UniqueIds(c.items) && PairsWhole(c.items, c.first, c.last)
    requires i < |c.items| && id != "" && OfSide(call, c.items[i], id)
    ensures !(c.first <= i <= c.last) ==> (Has(c.Result(), !call, id) <==> Has(c.items, !call, id))
    ensures c.first <= i <= c.last ==> !Has(c.Result(), call, id) && !Has(c.Result(), !call, id)
  {
    if Has(c.Result(), call, id) {
      var j := FoundSide(c, call, id);
      assert j == i;
    }
    if Has(c.Result(), !call, id) {
      var j := FoundSide(c, !call, id);
      OneFate(c, call, id, i, j);
    }
    if Has(c.items, !call, id) {
      var j :| 0 <= j < |c.items| && OfSide(!call, c.items[j], id);
      OneFate(c, call, id, i, j);
      if !(c.first <= j <= c.last) { KeptSide(c, !call, id, j); }
    }
  }

  lemma {:induction false} OneFate(c: Job, call: bool, id: string, i: nat, j: nat)
    requires UniqueIds(c.items) && PairsWhole(c.items, c.first, c.last) && id != ""
    requires i < |c.items| && j < |c.items| && OfSide(call, c.items[i], id) && OfSide(!call, c.items[j], id)
    ensures c.first <= i <= c.last <==> c.first <= j <= c.last
  {
    if call { SameFate(c.items, c.first, c.last, id, i, j); } else { SameFate(c.items, c.first, c.last, id, j, i); }
  }

  // ---- The span the summarizer cut --------------------------------------------------------------------------

  lemma {:induction false} HeadIsOnly(out: seq<Msg>, start: nat, n: nat, k: nat)
    requires start <= k < n <= |out| && IsSummary(out[k].text) && HeadIn(out, start, n) >= 0
    ensures HeadIn(out, start, n) == k
  {
    if k < n - 1 {
      HeadIsSeen(out, start, n - 1, k);
      HeadIsOnly(out, start, n - 1, k);
    }
  }

  lemma {:induction false} HeadIsSeen(out: seq<Msg>, start: nat, n: nat, k: nat)
    requires start <= k < n <= |out| && IsSummary(out[k].text)
    ensures HeadIn(out, start, n) != -1
  {
    if k < n - 1 { HeadIsSeen(out, start, n - 1, k); }
  }

  lemma {:induction false} HeadIsFound(out: seq<Msg>, start: nat, n: nat, k: nat)
    requires start <= k < n <= |out| && IsSummary(out[k].text)
    requires forall i :: start <= i < n && i != k ==> !IsSummary(out[i].text)
    ensures HeadIn(out, start, n) == k
  {
    if k < n - 1 { HeadIsFound(out, start, n - 1, k); } else { NoHead(out, start, k); }
  }

  lemma {:induction false} NoHead(out: seq<Msg>, start: nat, n: nat)
    requires start <= n <= |out| && forall i :: start <= i < n ==> !IsSummary(out[i].text)
    ensures HeadIn(out, start, n) == -1
  {
    if start < n { NoHead(out, start, n - 1); }
  }

  // Where a summarizer put one message for the span [s, e), a rebuild that succeeds cuts that span.
  lemma {:induction false} RecoversSpan(b: Body, before: seq<Msg>, summary: Msg, rest: seq<Msg>, e: nat)
    requires |Lead(b)| <= |before| && |rest| == |Slots(b)| - e && IsSummary(summary.text)
    requires Rebuilt(b, before + [summary] + rest).Some?
    ensures Span(b, before + [summary] + rest) == Some((|before|, e))
  {
    var out := before + [summary] + rest;
    assert out[|before|] == summary;
    HeadIsOnly(out, |Lead(b)|, |out|, |before|);
  }

  // The components kept every message outside the span, its role, and every text the wire cannot carry.
  ghost predicate Carries(slots: seq<Slot>, lead: nat, out: seq<Msg>, s: nat, e: nat) {
    && lead <= s < e <= |slots| && |out| == |slots| - (e - s) + 1
    && out[s].role == User && IsSummary(out[s].text)
    && (forall k :: lead <= k < |out| && k != s ==> !IsSummary(out[k].text))
    && (forall j :: lead <= j < |slots| ==> CarriedAt(slots, out, s, e, j))
  }

  predicate CarriedAt(slots: seq<Slot>, out: seq<Msg>, s: nat, e: nat, j: nat)
    requires s < e <= |slots| && |out| == |slots| - (e - s) + 1 && j < |slots|
  {
    s <= j < e || (&& out[OutIndex(j, s, e)].role == slots[j].pre.role
                   && (out[OutIndex(j, s, e)].text == slots[j].text || Writable(slots[j])))
  }

  lemma {:induction false} CarriedSurvives(items: seq<Item>, slots: seq<Slot>, lead: nat, out: seq<Msg>, s: nat, e: nat, first: nat, last: nat)
    requires Carries(slots, lead, out, s, e) && LaidOut(items, slots, lead) && Aligned(slots, s, e, first, last)
    ensures AllSurvive(slots, out, lead, |slots|, s, e, |items|, first, last)
  {
    forall j | lead <= j < |slots| ensures SurvivorAt(slots, out, s, e, |items|, first, last, j) {
      assert CarriedAt(slots, out, s, e, j);
      var i, k := OwnerOf(items, slots, lead, j);
      ItemSlotPlace(i, items[i], k);
      assert OnItsSide(slots, j, s, e, first, last);
    }
  }

  lemma {:induction false} SpanFound(b: Body, slots: seq<Slot>, lead: seq<Slot>, out: seq<Msg>, s: nat, e: nat)
    requires Safe(b, slots, s, e) && LeadKept(lead, out) && Carries(slots, |lead|, out, s, e)
    ensures SpanOf(b, slots, lead, out) == Some((s, e))
  {
    HeadIsFound(out, |lead|, |out|, s);
  }

  // Every output a summarizer and the components after it may leave for a safe span is rebuilt.
  lemma {:induction false} SafeSpansAreRebuilt(b: Body, out: seq<Msg>, s: nat, e: nat)
    requires Safe(b, Slots(b), s, e) && LeadKept(Lead(b), out) && Carries(Slots(b), |Lead(b)|, out, s, e)
    ensures Span(b, out) == Some((s, e)) && Rebuilt(b, out).Some?
  {
    SpanFound(b, Slots(b), Lead(b), out, s, e);
    BodyIsLaidOut(b);
    CarriedSurvives(b.input.items, Slots(b), |Lead(b)|, out, s, e, Slots(b)[s].place.item, Slots(b)[e - 1].place.item);
  }

  lemma {:induction false} SurvivingCarries(slots: seq<Slot>, lead: nat, out: seq<Msg>, s: nat, e: nat, count: nat, first: nat, last: nat)
    requires lead <= s < e <= |slots| && |out| == |slots| - (e - s) + 1
    requires out[s].role == User && HeadIn(out, lead, |out|) == s
    requires AllSurvive(slots, out, lead, |slots|, s, e, count, first, last)
    ensures Carries(slots, lead, out, s, e)
  {
    forall k | lead <= k < |out| && k != s ensures !IsSummary(out[k].text) {
      if IsSummary(out[k].text) { HeadIsOnly(out, lead, |out|, k); }
    }
    forall j | lead <= j < |slots| ensures CarriedAt(slots, out, s, e, j) {
      assert SurvivorAt(slots, out, s, e, count, first, last, j);
    }
  }

  // And nothing else is.
  lemma {:induction false} OnlySafeSpansAreRebuilt(b: Body, out: seq<Msg>, c: Job)
    requires Rebuilt(b, out).Some? && c == JobOf(b, out)
    ensures Safe(b, Slots(b), c.s, c.e) && LeadKept(Lead(b), out) && Carries(Slots(b), |Lead(b)|, out, c.s, c.e)
  {
    RebuiltCuts(b, out, c);
    RebuiltSpan(b, out, c);
    SurvivingCarries(c.slots, c.lead, out, c.s, c.e, |c.items|, c.first, c.last);
  }

  // ---- What may be cut ---------------------------------------------------------------------------------------

  lemma {:induction false} CoveredBetween(slots: seq<Slot>, i: nat, base: nat, own: seq<Slot>, n: nat)
    requires Holds(slots, i, base, own) && n <= |slots|
    ensures Covered(slots, i, n) == if n <= base then 0 else if n <= base + |own| then n - base else |own|
  {
    if n > 0 {
      CoveredBetween(slots, i, base, own, n - 1);
      assert Owns(slots, n - 1, i, base, own);
    }
  }

  // The slots counted for an item are the slots it is shown as.
  lemma {:induction false} CoveredIsShown(b: Body, i: nat)
    requires b.input.Items? && i < |b.input.items|
    ensures Covered(Slots(b), i, |Slots(b)|) == |ItemSlots(i, b.input.items[i])|
  {
    BodyIsLaidOut(b);
    HoldsItem(b.input.items, Slots(b), |Lead(b)|, i);
    CoveredBetween(Slots(b), i, Base(b.input.items, |Lead(b)|, i), ItemSlots(i, b.input.items[i]), |Slots(b)|);
  }

  // An item the summarizer saw all of: a known kind, with text or only objects in its payload.
  predicate Text(p: Payload) {
    p.Str? || (p.Arr? && p.bs != [] && forall j :: 0 <= j < |p.bs| ==> !p.bs[j].Junk?)
  }

  predicate WhollySeen(it: Item) {
    || it.kind.Reasoning?
    || IsCall(it)
    || (IsOutput(it) && Text(it.output))
    || (&& (it.kind.Untyped? || it.kind.MessageItem?) && Text(it.content)
        && !it.role.NoRole? && !it.role.ToolRole? && !it.role.OtherRole?)
  }

  lemma {:induction false} WhollyIff(b: Body, i: nat)
    requires b.input.Items? && i < |b.input.items|
    ensures WhollyAt(b.input.items, Slots(b), i) <==> WhollySeen(b.input.items[i])
  {
    CoveredIsShown(b, i);
    ShownPayload(b.input.items[i].output);
    ShownPayload(b.input.items[i].content);
  }

  lemma {:induction false} ShownPayload(p: Payload)
    ensures Shown(p) == if Text(p) then (if p.Str? then 1 else |p.bs|) else -1
  {
    if p.Arr? {
      if Text(p) { assert forall j :: 0 <= j < |p.bs| ==> IsObject(p.bs[j]); }
    }
  }

  // Nothing is cut that the summarizer did not see all of.
  lemma {:induction false} NothingUnseenIsCut(b: Body, s: nat, e: nat, i: nat)
    requires Safe(b, Slots(b), s, e) && Slots(b)[s].place.item <= i <= Slots(b)[e - 1].place.item
    ensures WhollySeen(b.input.items[i]) && ItemSlots(i, b.input.items[i]) != []
  {
    assert WhollyAt(b.input.items, Slots(b), i);
    WhollyIff(b, i);
    CoveredIsShown(b, i);
    ShownPayload(b.input.items[i].output);
    ShownPayload(b.input.items[i].content);
  }
}
