/**
 * What a Responses body is shown as, and exactly which spans a summarizer may cut, told from the items alone
 * (normalizeResponses and responsesSummarySpanSafe in apply/responses.go).
 */
module ResponsesRules {
  import opened Lists
  import opened Responses
  import opened ResponsesRebuild
  import opened ResponsesUndo
  import opened ResponsesPairs

  // ---- What an item is shown as ---------------------------------------------------------------------------------

  // The text a field holds.
  function TextAt(it: Item, f: Field): Option<string> {
    match f
    case ContentStr => if it.content.Str? then Some(it.content.s) else None
    case ContentText(j) =>
      if it.content.Arr? && j < |it.content.bs| && it.content.bs[j].TextBlock? then Some(it.content.bs[j].text) else None
    case OutputStr => if it.output.Str? then Some(it.output.s) else None
    case OutputText(j) =>
      if it.output.Arr? && j < |it.output.bs| && it.output.bs[j].TextBlock? then Some(it.output.bs[j].text) else None
    case _ => None
  }

  predicate IsOutputField(f: Field) {
    f.OutputStr? || f.OutputText? || f.OutputBlock?
  }

  // An item that is a message: by its type, or by having a role.
  predicate IsMessage(it: Item) {
    !it.kind.Reasoning? && !IsCall(it) && !IsOutput(it) && (it.kind.MessageItem? || !it.role.NoRole?)
  }

  // The role its messages show under.
  predicate ShownRole(it: Item, r: Role) {
    if IsOutput(it) then r == Tool
    else if it.kind.Reasoning? || IsCall(it) then r == Assistant
    else
      && (r == System <==> it.role.SystemRole? || it.role.DeveloperRole?)
      && (r == Assistant <==> it.role.AssistantRole?)
      && (r == Tool <==> it.role.ToolRole?)
  }

  // A slot shows the text of its own field, or is opaque and shows none; its message is the item's.
  lemma {:induction false} SlotShows(i: nat, it: Item, k: nat)
    requires k < |ItemSlots(i, it)|
    ensures var slot := ItemSlots(i, it)[k];
      && slot.place.At? && slot.place.item == i && slot.pre.text == slot.text && ShownRole(it, slot.pre.role)
      && (IsOutput(it) <==> IsOutputField(slot.place.field))
      && (slot.isOpaque <==> slot.place.field.WholeItem? || slot.place.field.ContentBlock? || slot.place.field.OutputBlock?)
      && (!slot.isOpaque ==> TextAt(it, slot.place.field) == Some(slot.text))
      && (slot.place.field.WholeItem? <==> it.kind.Reasoning? || IsCall(it))
  {
  }

  // A field the item shows its text through.
  predicate Shows(it: Item, f: Field) {
    TextAt(it, f).Some? && if IsOutputField(f) then IsOutput(it) else IsMessage(it)
  }

  // Every such text has its slot.
  lemma {:induction false} TextIsShown(i: nat, it: Item, f: Field) returns (k: nat)
    requires Shows(it, f)
    ensures k < |ItemSlots(i, it)| && ItemSlots(i, it)[k].place == At(i, f) && !ItemSlots(i, it)[k].isOpaque
  {
    k := if f.ContentText? || f.OutputText? then f.j else 0;
  }

  // And every payload block, text or not, has one, in order; calls and reasoning have the one of the whole item.
  lemma {:induction false} SlotsCount(i: nat, it: Item)
    ensures var n := |ItemSlots(i, it)|;
      if it.kind.Reasoning? || IsCall(it) then n == 1
      else
        var p := if IsOutput(it) then it.output else it.content;
        n == if !IsOutput(it) && !IsMessage(it) then 0 else if p.Str? then 1 else if p.Arr? then |p.bs| else 0
    ensures forall k, m :: 0 <= k < m < |ItemSlots(i, it)| ==> ItemSlots(i, it)[k].place != ItemSlots(i, it)[m].place
  {
  }

  // The instructions are shown first, as the system's, and an input that is one string as the user's.
  lemma {:induction false} OpeningShows(b: Body)
    ensures b.instructions.Some? ==>
      Slots(b) != [] && Slots(b)[0] == Slot(Instructions, b.instructions.value, Msg(System, b.instructions.value, ""), false)
    ensures |Slots(b)| == (if b.instructions.Some? then 1 else 0)
         + (if b.input.Items? then Off(ItemSlots, b.input.items, |b.input.items|) else if b.input.Whole? then 1 else 0)
    ensures b.input.Whole? ==> Slots(b)[|Slots(b)| - 1] == Slot(InputString, b.input.text, Msg(User, b.input.text, ""), false)
  {
  }

  // A message is taken for the summary by how its text begins.
  lemma {:induction false} SummaryIff(text: string)
    ensures IsSummary(text) <==>
      || (|text| >= 23 && text[..23] == "=== History Summary ===")
      || (|text| >= 47 && text[..47] == "=== Compacted Context (cache-aware summary) ===")
  {
    assert |SUMMARY_HEADER| == 23 && |CACHE_AWARE_SUMMARY_HEADER| == 47;
  }

  // ---- Which spans may be cut -----------------------------------------------------------------------------------

  // The last item of its id on the call side, or on the output side, is within the range.
  ghost predicate CallWithin(items: seq<Item>, id: string, first: nat, last: nat) {
    exists k :: 0 <= k < |items| && first <= k <= last && IsCall(items[k]) && items[k].callID == id
             && forall j :: k < j < |items| ==> !(IsCall(items[j]) && items[j].callID == id)
  }

  ghost predicate OutputWithin(items: seq<Item>, id: string, first: nat, last: nat) {
    exists k :: 0 <= k < |items| && first <= k <= last && IsOutput(items[k]) && items[k].callID == id
             && forall j :: k < j < |items| ==> !(IsOutput(items[j]) && items[j].callID == id)
  }

  lemma {:induction false} LastCallIs(items: seq<Item>, id: string, n: nat, k: nat)
    requires k < n <= |items| && IsCall(items[k]) && items[k].callID == id
    ensures k <= LastCall(items, id, n)
  {
    if k < n - 1 { LastCallIs(items, id, n - 1, k); }
  }

  lemma {:induction false} LastOutputIs(items: seq<Item>, id: string, n: nat, k: nat)
    requires k < n <= |items| && IsOutput(items[k]) && items[k].callID == id
    ensures k <= LastOutput(items, id, n)
  {
    if k < n - 1 { LastOutputIs(items, id, n - 1, k); }
  }

  lemma {:induction false} WithinIs(items: seq<Item>, id: string, first: nat, last: nat)
    ensures CallWithin(items, id, first, last) <==> first <= LastCall(items, id, |items|) <= last
    ensures OutputWithin(items, id, first, last) <==> first <= LastOutput(items, id, |items|) <= last
  {
    var c, o := LastCall(items, id, |items|), LastOutput(items, id, |items|);
    forall j | 0 <= j < |items| && IsCall(items[j]) && items[j].callID == id ensures j <= c { LastCallIs(items, id, |items|, j); }
    forall j | 0 <= j < |items| && IsOutput(items[j]) && items[j].callID == id ensures j <= o { LastOutputIs(items, id, |items|, j); }
  }

  /**
   * The slots [s, e) are those of whole items first..last, each of which was wholly seen, and no id has its call
   * inside and its output outside or the other way round.
   */
  ghost predicate Cuttable(b: Body, s: int, e: int, first: nat, last: nat)
    requires b.input.Items?
  {
    var items, lead := b.input.items, |Lead(b)|;
    && first <= last < |items|
    && s == Base(items, lead, first) && e == Base(items, lead, last + 1)
    && (forall i :: first <= i <= last ==> WhollySeen(items[i]))
    && (forall id :: id != "" ==> (CallWithin(items, id, first, last) <==> OutputWithin(items, id, first, last)))
  }

  lemma {:induction false} PairsAre(items: seq<Item>, first: nat, last: nat)
    ensures PairsWhole(items, first, last) <==>
      forall id :: id != "" ==> (CallWithin(items, id, first, last) <==> OutputWithin(items, id, first, last))
  {
    forall id ensures PairWhole(items, id, first, last) <==> (CallWithin(items, id, first, last) <==> OutputWithin(items, id, first, last)) {
      WithinIs(items, id, first, last);
    }
  }

  lemma {:induction false} SafeIsCuttable(b: Body, s: int, e: int) returns (first: nat, last: nat)
    requires b.input.Items? && Safe(b, Slots(b), s, e)
    ensures Cuttable(b, s, e, first, last)
  {
    var items, slots := b.input.items, Slots(b);
    first, last := slots[s].place.item, slots[e - 1].place.item;
    BodyIsLaidOut(b);
    SpanIsWholeItems(items, slots, |Lead(b)|, s, e, first, last);
    forall i | first <= i <= last ensures WhollySeen(items[i]) { NothingUnseenIsCut(b, s, e, i); }
    PairsAre(items, first, last);
  }

  lemma {:induction false} SeenHasSlots(i: nat, it: Item)
    requires WhollySeen(it)
    ensures ItemSlots(i, it) != []
  {
  }

  lemma {:induction false} BaseGrows(items: seq<Item>, lead: nat, i: nat, j: nat)
    requires i <= j <= |items|
    ensures Base(items, lead, i) <= Base(items, lead, j)
    ensures i < j ==> Base(items, lead, i) + |ItemSlots(i, items[i])| <= Base(items, lead, j)
    decreases j
  {
    if i < j { BaseGrows(items, lead, i, j - 1); }
  }

  // A slot of item i lies in the range of items first..last exactly when i does.
  lemma {:induction false} InRange(items: seq<Item>, lead: nat, first: nat, last: nat, i: nat, k: nat)
    requires first <= last < |items| && i < |items| && k < |ItemSlots(i, items[i])|
    ensures first <= i <= last <==> Base(items, lead, first) <= Base(items, lead, i) + k < Base(items, lead, last + 1)
  {
    if i < first { BaseGrows(items, lead, i, first); } else { BaseGrows(items, lead, first, i); }
    if i <= last { BaseGrows(items, lead, i, last + 1); } else { BaseGrows(items, lead, last + 1, i); }
  }

  lemma {:induction false} SidesOf(b: Body, s: int, e: int, first: nat, last: nat, j: nat)
    requires b.input.Items? && Cuttable(b, s, e, first, last) && j < |Slots(b)|
    ensures OnItsSide(Slots(b), j, s, e, first, last)
  {
    var items, slots, lead := b.input.items, Slots(b), |Lead(b)|;
    BodyIsLaidOut(b);
    if j >= lead {
      var i, k := OwnerOf(items, slots, lead, j);
      ItemSlotPlace(i, items[i], k);
      InRange(items, lead, first, last, i, k);
    }
  }

  // The first and the last slot of an item that has some.
  lemma {:induction false} ItemEnds(items: seq<Item>, slots: seq<Slot>, lead: nat, i: nat)
    requires LaidOut(items, slots, lead) && i < |items| && ItemSlots(i, items[i]) != []
    ensures Base(items, lead, i) < Base(items, lead, i + 1) <= |slots|
    ensures Names(slots[Base(items, lead, i)], i) && Names(slots[Base(items, lead, i + 1) - 1], i)
  {
    var n := |ItemSlots(i, items[i])| - 1;
    SlotOf(items, slots, lead, i, 0);
    SlotOf(items, slots, lead, i, n);
    ItemSlotPlace(i, items[i], 0);
    ItemSlotPlace(i, items[i], n);
    BaseNext(items, lead, i);
  }

  lemma {:induction false} BaseNext(items: seq<Item>, lead: nat, i: nat)
    requires i < |items|
    ensures Base(items, lead, i + 1) == Base(items, lead, i) + |ItemSlots(i, items[i])|
  {
  }

  lemma {:induction false} CuttableEnds(b: Body, s: int, e: int, first: nat, last: nat)
    requires b.input.Items? && Cuttable(b, s, e, first, last)
    ensures 0 <= s < e <= |Slots(b)| && Names(Slots(b)[s], first) && Names(Slots(b)[e - 1], last)
  {
    var items, slots, lead := b.input.items, Slots(b), |Lead(b)|;
    BodyIsLaidOut(b);
    SeenHasSlots(first, items[first]);
    SeenHasSlots(last, items[last]);
    ItemEnds(items, slots, lead, first);
    ItemEnds(items, slots, lead, last);
    BaseGrows(items, lead, first, last);
  }

  lemma {:induction false} CuttableIsSafe(b: Body, s: int, e: int, first: nat, last: nat)
    requires b.input.Items? && Cuttable(b, s, e, first, last)
    ensures Safe(b, Slots(b), s, e)
  {
    CuttableEnds(b, s, e, first, last);
    forall j | 0 <= j < |Slots(b)| ensures OnItsSide(Slots(b), j, s, e, first, last) { SidesOf(b, s, e, first, last, j); }
    forall i | first <= i <= last ensures WhollyAt(b.input.items, Slots(b), i) { WhollyIff(b, i); }
    PairsAre(b.input.items, first, last);
  }

  // A span may be cut if and only if it is whole items, all wholly seen, that part no call from its output.
  lemma {:induction false} SafeIff(b: Body, s: int, e: int)
    requires b.input.Items?
    ensures Safe(b, Slots(b), s, e) <==> exists first: nat, last: nat :: Cuttable(b, s, e, first, last)
  {
    if Safe(b, Slots(b), s, e) { var first, last := SafeIsCuttable(b, s, e); }
    if first: nat, last: nat :| Cuttable(b, s, e, first, last) { CuttableIsSafe(b, s, e, first, last); }
  }
}
