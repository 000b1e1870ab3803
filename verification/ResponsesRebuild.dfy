/**
 * Rebuilding a Responses body after a summarizer replaced a span of messages by one summary
 * (rebuildResponsesCountChanged in apply/responses.go).
 */
module ResponsesRebuild {
  import opened Lists
  import opened Responses

  const SUMMARY_HEADER: string := "=== History Summary ==="
  const CACHE_AWARE_SUMMARY_HEADER: string := "=== Compacted Context (cache-aware summary) ==="

  predicate IsSummary(text: string) {
    SUMMARY_HEADER <= text || CACHE_AWARE_SUMMARY_HEADER <= text
  }

  // The one summary among out[start..n]; -1 where there is none, -2 where there are several.
  function HeadIn(out: seq<Msg>, start: nat, n: nat): (h: int)
    requires start <= n <= |out|
    ensures -2 <= h < n && (h >= 0 ==> start <= h && IsSummary(out[h].text))
  {
    if n == start then -1
    else
      var h := HeadIn(out, start, n - 1);
      if !IsSummary(out[n - 1].text) then h else if h == -1 then n - 1 else -2
  }

  method FindHead(out: seq<Msg>, start: nat) returns (head: int)
    requires start <= |out|
    ensures head == (if HeadIn(out, start, |out|) >= 0 then HeadIn(out, start, |out|) else -1)
  {
    head := -1;
    for i := start to |out|
      invariant head == HeadIn(out, start, i) && head >= -1
    {
      if IsSummary(out[i].text) {
        if head >= 0 {
          SecondHead(out, start, i + 1, |out|);
          return -1;
        }
        head := i;
      }
    }
  }

  lemma {:induction false} SecondHead(out: seq<Msg>, start: nat, n: nat, m: nat)
    requires start <= n <= m <= |out| && HeadIn(out, start, n) == -2
    ensures HeadIn(out, start, m) == -2
    decreases m - n
  {
    if n < m { SecondHead(out, start, n + 1, m); }
  }

  // ---- Text written back into an item -------------------------------------------------------------------

  function SetBlock(bs: seq<Block>, j: nat, now: string): seq<Block> {
    if j < |bs| && bs[j].TextBlock? then bs[j := bs[j].(text := now)] else bs
  }

  function SetText(it: Item, f: Field, now: string): Item {
    match f
    case ContentStr => it.(content := Str(now))
    case ContentText(j) => if it.content.Arr? then it.(content := Arr(SetBlock(it.content.bs, j, now))) else it
    case OutputStr => it.(output := Str(now))
    case OutputText(j) => if it.output.Arr? then it.(output := Arr(SetBlock(it.output.bs, j, now))) else it
    case _ => it
  }

  function Step(it: Item, i: nat, slot: Slot, now: string): Item {
    if slot.place.At? && slot.place.item == i && now != slot.text then SetText(it, slot.place.field, now) else it
  }

  // Item i after the write-back of the first n slots; now[j] is the text slot j ends with.
  function Edited(it: Item, i: nat, slots: seq<Slot>, now: seq<string>, n: nat): Item
    requires n <= |slots| == |now|
  {
    if n == 0 then it else Step(Edited(it, i, slots, now, n - 1), i, slots[n - 1], now[n - 1])
  }

  // ---- The whole rebuild ----------------------------------------------------------------------------------

  // Which output message a kept slot became, the span [s, e) having become one.
  function OutIndex(j: nat, s: nat, e: nat): int
    requires s < e
  {
    if j < s then j else j - e + s + 1
  }

  function Now(slots: seq<Slot>, out: seq<Msg>, s: nat, e: nat): (now: seq<string>)
    requires s < e <= |slots| && |out| == |slots| - (e - s) + 1
    ensures |now| == |slots|
  {
    seq(|slots|, j requires 0 <= j < |slots| => if s <= j < e then slots[j].text else out[OutIndex(j, s, e)].text)
  }

  // writeSurvivor's tests: same role, outside the span, and an edit only where text can be written.
  predicate Survivor(m: Msg, slot: Slot, count: nat, first: nat, last: nat) {
    && m.role == slot.pre.role
    && slot.place.At? && slot.place.item < count && !(first <= slot.place.item <= last)
    && (m.text == slot.text || (!slot.isOpaque && slot.place.field != WholeItem))
  }

  // What slot j's message must satisfy, unless the summary replaced it.
  predicate SurvivorAt(slots: seq<Slot>, out: seq<Msg>, s: nat, e: nat, count: nat, first: nat, last: nat, j: nat)
    requires s < e <= |slots| && |out| == |slots| - (e - s) + 1 && j < |slots|
  {
    s <= j < e || Survivor(out[OutIndex(j, s, e)], slots[j], count, first, last)
  }

  ghost predicate AllSurvive(slots: seq<Slot>, out: seq<Msg>, lo: nat, hi: nat, s: nat, e: nat, count: nat, first: nat, last: nat)
    requires s < e <= |slots| && |out| == |slots| - (e - s) + 1 && hi <= |slots|
  {
    forall j :: lo <= j < hi ==> SurvivorAt(slots, out, s, e, count, first, last, j)
  }

  function EditedItems(items: seq<Item>, slots: seq<Slot>, now: seq<string>): (out: seq<Item>)
    requires |slots| == |now|
    ensures |out| == |items|
  {
    seq(|items|, i requires 0 <= i < |items| => Edited(items[i], i, slots, now, |slots|))
  }

  function SummaryItem(text: string): Item {
    Item(Untyped, UserRole, "", Str(text), Neither(""), "")
  }

  function Assembled(items: seq<Item>, first: nat, last: nat, summary: Item): seq<Item>
    requires first <= last < |items|
  {
    items[..first] + [summary] + items[last + 1..]
  }

  predicate LeadKept(lead: seq<Slot>, out: seq<Msg>) {
    lead != [] ==> out != [] && out[0] == lead[0].pre
  }

  // Where the summary stands in out and which slots it replaced; None where the rebuild declines to look.
  ghost function SpanOf(b: Body, slots: seq<Slot>, lead: seq<Slot>, out: seq<Msg>): (span: Option<(nat, nat)>)
    ensures span.Some? ==> b.input.Items? && Bounded(b.input.items, slots, span.value.0, span.value.1)
  {
    if !LeadKept(lead, out) || |out| > |slots| || |out| <= |lead| then None
    else
      var head := HeadIn(out, |lead|, |out|);
      var end := |slots| - (|out| - head - 1);
      if head < 0 || out[head].role != User || !Safe(b, slots, head, end) then None else Some((head, end))
  }

  // The body with the span [s, e) of slots replaced; None where a survivor cannot be written.
  ghost function Around(b: Body, slots: seq<Slot>, out: seq<Msg>, start: nat, s: nat, e: nat): Option<Body>
    requires s < e <= |slots| && |out| == |slots| - (e - s) + 1
    requires b.input.Items? && Bounded(b.input.items, slots, s, e)
  {
    var items, first, last := b.input.items, slots[s].place.item, slots[e - 1].place.item;
    if !AllSurvive(slots, out, start, |slots|, s, e, |items|, first, last) then None
    else Some(b.(input := Items(Assembled(EditedItems(items, slots, Now(slots, out, s, e)), first, last, SummaryItem(out[s].text)))))
  }

  ghost function RebuiltFrom(b: Body, slots: seq<Slot>, lead: seq<Slot>, out: seq<Msg>): Option<Body> {
    var span := SpanOf(b, slots, lead, out);
    if span.None? then None else Around(b, slots, out, |lead|, span.value.0, span.value.1)
  }

  ghost function Span(b: Body, out: seq<Msg>): (span: Option<(nat, nat)>)
    ensures span.Some? ==> b.input.Items? && Bounded(b.input.items, Slots(b), span.value.0, span.value.1)
  {
    SpanOf(b, Slots(b), Lead(b), out)
  }

  ghost function Rebuilt(b: Body, out: seq<Msg>): Option<Body> {
    RebuiltFrom(b, Slots(b), Lead(b), out)
  }

  // ---- The loops ------------------------------------------------------------------------------------------

  function Current(edits: map<nat, Item>, items: seq<Item>, i: nat): Item
    requires i < |items|
  {
    if i in edits then edits[i] else items[i]
  }

  ghost predicate Tracks(edits: map<nat, Item>, items: seq<Item>, slots: seq<Slot>, now: seq<string>, n: nat)
    requires n <= |slots| == |now|
  {
    forall i :: 0 <= i < |items| ==> Current(edits, items, i) == Edited(items[i], i, slots, now, n)
  }

  // Slots that keep their text, or stand outside the items, change nothing.
  lemma {:induction false} Skips(it: Item, i: nat, slots: seq<Slot>, now: seq<string>, m: nat, n: nat)
    requires m <= n <= |slots| == |now|
    requires forall j :: m <= j < n ==> now[j] == slots[j].text || !slots[j].place.At?
    ensures Edited(it, i, slots, now, n) == Edited(it, i, slots, now, m)
    decreases n
  {
    if m < n { Skips(it, i, slots, now, m, n - 1); }
  }

  method WriteSurvivor(items: seq<Item>, edits: map<nat, Item>, slot: Slot, m: Msg, first: nat, last: nat)
    returns (ok: bool, after: map<nat, Item>)
    ensures ok <==> Survivor(m, slot, |items|, first, last)
    ensures ok ==> forall i :: 0 <= i < |items| ==> Current(after, items, i) == Step(Current(edits, items, i), i, slot, m.text)
  {
    after := edits;
    if m.role != slot.pre.role { return false, after; }
    if !slot.place.At? { return false, after; }
    var itemIdx := slot.place.item;
    if itemIdx >= |items| || first <= itemIdx <= last { return false, after; }
    if m.text != slot.text {
      if slot.isOpaque || slot.place.field == WholeItem { return false, after; }
      after := edits[itemIdx := SetText(Current(edits, items, itemIdx), slot.place.field, m.text)];
    }
    return true, after;
  }

  // writeSurvivor over the slots lo..hi, all before the span or all after it.
  method WriteSurvivors(items: seq<Item>, edits0: map<nat, Item>, slots: seq<Slot>, out: seq<Msg>,
                        lo: nat, hi: nat, s: nat, e: nat, first: nat, last: nat)
    returns (ok: bool, edits: map<nat, Item>)
    requires s < e <= |slots| && |out| == |slots| - (e - s) + 1
    requires lo <= hi <= s || e <= lo <= hi <= |slots|
    requires Tracks(edits0, items, slots, Now(slots, out, s, e), lo)
    ensures ok <==> AllSurvive(slots, out, lo, hi, s, e, |items|, first, last)
    ensures ok ==> Tracks(edits, items, slots, Now(slots, out, s, e), hi)
  {
    edits := edits0;
    for j := lo to hi
      invariant AllSurvive(slots, out, lo, j, s, e, |items|, first, last)
      invariant Tracks(edits, items, slots, Now(slots, out, s, e), j)
    {
      ok, edits := WriteSurvivor(items, edits, slots[j], out[OutIndex(j, s, e)], first, last);
      if !ok {
        assert !SurvivorAt(slots, out, s, e, |items|, first, last, j);
        return;
      }
    }
    ok := true;
  }

  method Assemble(items: seq<Item>, edits: map<nat, Item>, first: nat, last: nat, summary: Item, ghost edited: seq<Item>)
    returns (parts: seq<Item>)
    requires first <= last < |items| == |edited|
    requires forall i :: 0 <= i < |items| ==> Current(edits, items, i) == edited[i]
    ensures parts == Assembled(edited, first, last, summary)
  {
    parts := [];
    for i := 0 to |items|
      invariant i <= first ==> parts == edited[..i]
      invariant first < i <= last + 1 ==> parts == edited[..first] + [summary]
      invariant last < i ==> parts == edited[..first] + [summary] + edited[last + 1..i]
    {
      if i == first { parts := parts + [summary]; }
      if i < first || last < i { parts := parts + [Current(edits, items, i)]; }
    }
  }

  lemma {:induction false} LeadSlot(b: Body)
    ensures LeadsWith(Slots(b), Lead(b))
  {
    if b.input.Items? && Lead(b) == [] && |Slots(b)| > 0 {
      assert Slots(b) == SlotsUpTo(b.input.items, |b.input.items|);
      var i, k := FlatOwner(ItemSlots, b.input.items, |b.input.items|, 0);
      ItemSlotPlace(i, b.input.items[i], k);
    }
  }

  // The slots open with the instructions exactly when there are any.
  predicate LeadsWith(slots: seq<Slot>, lead: seq<Slot>) {
    && |lead| <= 1
    && (|slots| > 0 && slots[0].place == Instructions <==> lead != [])
    && (lead != [] ==> slots[0] == lead[0])
  }

  lemma {:induction false} ItemSlotPlace(i: nat, it: Item, k: nat)
    requires k < |ItemSlots(i, it)|
    ensures ItemSlots(i, it)[k].place.At? && ItemSlots(i, it)[k].place.item == i
  {
  }

  method Rebuild(b: Body, norm: seq<Msg>, slots: seq<Slot>, out: seq<Msg>) returns (r: Option<Body>)
    requires slots == Slots(b) && norm == Pres(slots)
    ensures r == Rebuilt(b, out)
  {
    LeadSlot(b);
    r := RebuildFrom(b, norm, slots, Lead(b), out);
  }

  method RebuildFrom(b: Body, norm: seq<Msg>, slots: seq<Slot>, ghost lead: seq<Slot>, out: seq<Msg>) returns (r: Option<Body>)
    requires LeadsWith(slots, lead) && |norm| == |slots|
    ensures r == RebuiltFrom(b, slots, lead, out)
  {
    var start := 0;
    if |slots| > 0 && slots[0].place == Instructions {
      if |out| == 0 || out[0] != slots[0].pre { return None; }
      start := 1;
    }
    if |out| > |norm| || |out| <= start { return None; }
    var head := FindHead(out, start);
    if head < start || out[head].role != User { return None; }
    var spanEnd := |slots| - (|out| - head - 1);
    var safe := SpanSafe(b, slots, head, spanEnd);
    if !safe { return None; }
    r := RebuildAround(b, slots, out, start, head, spanEnd);
  }

  method RebuildAround(b: Body, slots: seq<Slot>, out: seq<Msg>, start: nat, s: nat, e: nat) returns (r: Option<Body>)
    requires start <= s < e <= |slots| && |out| == |slots| - (e - s) + 1
    requires b.input.Items? && Bounded(b.input.items, slots, s, e)
    requires forall j :: 0 <= j < start ==> !slots[j].place.At?
    ensures r == Around(b, slots, out, start, s, e)
  {
    var items, first, last := b.input.items, slots[s].place.item, slots[e - 1].place.item;
    ghost var now := Now(slots, out, s, e);
    var edits: map<nat, Item> := map[];
    forall i | 0 <= i < |items| ensures Edited(items[i], i, slots, now, start) == items[i] {
      Skips(items[i], i, slots, now, 0, start);
    }
    var ok;
    ok, edits := WriteSurvivors(items, edits, slots, out, start, s, s, e, first, last);
    if !ok { return None; }
    forall i | 0 <= i < |items| ensures Edited(items[i], i, slots, now, e) == Edited(items[i], i, slots, now, s) {
      Skips(items[i], i, slots, now, s, e);
    }
    ok, edits := WriteSurvivors(items, edits, slots, out, e, |slots|, s, e, first, last);
    if !ok { return None; }
    var parts := Assemble(items, edits, first, last, SummaryItem(out[s].text), EditedItems(items, slots, now));
    return Some(b.(input := Items(parts)));
  }
}
