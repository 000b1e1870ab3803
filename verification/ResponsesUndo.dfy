/**
 * What a rebuilt Responses body promises (apply/responses.go): it cut exactly the summarizer's span,
 * it shows the components' output, the stash undoes it, and no call is parted from its output.
 */
module ResponsesUndo {
  import opened Lists
  import opened Responses
  import opened ResponsesRebuild

  // ---- Where an item's slots are ----------------------------------------------------------------------

  // The slots: `lead` for the instructions, which are no item's, then each item's in turn.
  ghost predicate LaidOut(items: seq<Item>, slots: seq<Slot>, lead: nat) {
    && lead <= |slots| && slots[lead..] == Flat(ItemSlots, items, |items|)
    && forall j :: 0 <= j < lead ==> !slots[j].place.At?
  }

  lemma {:induction false} BodyIsLaidOut(b: Body)
    requires b.input.Items?
    ensures LaidOut(b.input.items, Slots(b), |Lead(b)|)
  {
  }

  // The first slot of item i.
  function Base(items: seq<Item>, lead: nat, i: nat): nat
    requires i <= |items|
  {
    lead + Off(ItemSlots, items, i)
  }

  lemma {:induction false} SlotOf(items: seq<Item>, slots: seq<Slot>, lead: nat, i: nat, k: nat)
    requires LaidOut(items, slots, lead) && i < |items| && k < |ItemSlots(i, items[i])|
    ensures Base(items, lead, i) + k < |slots| && slots[Base(items, lead, i) + k] == ItemSlots(i, items[i])[k]
  {
    FlatAt(ItemSlots, items, |items|, i, k);
    assert slots[lead..][Off(ItemSlots, items, i) + k] == slots[Base(items, lead, i) + k];
  }

  lemma {:induction false} OwnerOf(items: seq<Item>, slots: seq<Slot>, lead: nat, j: nat) returns (i: nat, k: nat)
    requires LaidOut(items, slots, lead) && lead <= j < |slots|
    ensures i < |items| && k < |ItemSlots(i, items[i])| && j == Base(items, lead, i) + k
    ensures slots[j] == ItemSlots(i, items[i])[k]
  {
    i, k := FlatOwner(ItemSlots, items, |items|, j - lead);
    assert slots[lead..][j - lead] == slots[j];
  }

  predicate Names(slot: Slot, i: nat) {
    slot.place.At? && slot.place.item == i
  }

  // An item's own slots stand at base, and no other slot names it.
  predicate Owns(slots: seq<Slot>, j: nat, i: nat, base: nat, own: seq<Slot>)
    requires j < |slots|
  {
    && (Names(slots[j], i) <==> base <= j < base + |own|)
    && (base <= j < base + |own| ==> slots[j] == own[j - base])
  }

  ghost predicate Holds(slots: seq<Slot>, i: nat, base: nat, own: seq<Slot>) {
    base + |own| <= |slots| && forall j :: 0 <= j < |slots| ==> Owns(slots, j, i, base, own)
  }

  lemma {:induction false} OwnsAt(items: seq<Item>, slots: seq<Slot>, lead: nat, i: nat, j: nat)
    requires LaidOut(items, slots, lead) && i < |items| && j < |slots|
    ensures Owns(slots, j, i, Base(items, lead, i), ItemSlots(i, items[i]))
  {
    var base, own := Base(items, lead, i), ItemSlots(i, items[i]);
    if base <= j < base + |own| {
      SlotOf(items, slots, lead, i, j - base);
      ItemSlotPlace(i, items[i], j - base);
    } else if j >= lead {
      var o, k := OwnerOf(items, slots, lead, j);
      ItemSlotPlace(o, items[o], k);
    }
  }

  lemma {:induction false} HoldsItem(items: seq<Item>, slots: seq<Slot>, lead: nat, i: nat)
    requires LaidOut(items, slots, lead) && i < |items|
    ensures Holds(slots, i, Base(items, lead, i), ItemSlots(i, items[i]))
  {
    forall j | 0 <= j < |slots| ensures Owns(slots, j, i, Base(items, lead, i), ItemSlots(i, items[i])) {
      OwnsAt(items, slots, lead, i, j);
    }
    FlatPrefix(ItemSlots, items, i + 1, |items|);
  }

  // ---- A safe span is whole items -----------------------------------------------------------------------

  // A safe span runs from the first slot of its first item to the last slot of its last item.
  lemma {:induction false} SpanIsWholeItems(items: seq<Item>, slots: seq<Slot>, lead: nat, s: int, e: int, first: nat, last: nat)
    requires LaidOut(items, slots, lead) && 0 <= s < e <= |slots| && first <= last < |items|
    requires Names(slots[s], first) && Names(slots[e - 1], last) && Aligned(slots, s, e, first, last)
    ensures s == Base(items, lead, first) && e == Base(items, lead, last + 1)
  {
    HoldsItem(items, slots, lead, first);
    HoldsItem(items, slots, lead, last);
    EdgesOf(slots, s, e, first, last, Base(items, lead, first), ItemSlots(first, items[first]),
            Base(items, lead, last), ItemSlots(last, items[last]));
  }

  lemma {:induction false} EdgesOf(slots: seq<Slot>, s: int, e: int, first: nat, last: nat,
                                   lo: nat, ownFirst: seq<Slot>, hi: nat, ownLast: seq<Slot>)
    requires 0 <= s < e <= |slots| && Names(slots[s], first) && Names(slots[e - 1], last)
    requires first <= last && Aligned(slots, s, e, first, last)
    requires Holds(slots, first, lo, ownFirst) && Holds(slots, last, hi, ownLast)
    ensures s == lo && e == hi + |ownLast|
  {
    assert Owns(slots, s, first, lo, ownFirst) && Owns(slots, e - 1, last, hi, ownLast);
    var z := hi + |ownLast| - 1;
    assert Owns(slots, lo, first, lo, ownFirst) && Owns(slots, z, last, hi, ownLast);
    assert OnItsSide(slots, lo, s, e, first, last) && OnItsSide(slots, z, s, e, first, last);
  }

  // ---- What the write-back does to one item ---------------------------------------------------------------

  function Renewed(slot: Slot, now: string): Slot {
    slot.(text := now, pre := slot.pre.(text := now))
  }

  predicate Writable(slot: Slot) {
    !slot.isOpaque && slot.place.At? && slot.place.field != WholeItem
  }

  // Writing a slot's text changes that slot's text and no other.
  lemma {:induction false} SetTextSlot(i: nat, it: Item, k: nat, now: string)
    requires k < |ItemSlots(i, it)| && Writable(ItemSlots(i, it)[k])
    ensures var after := SetText(it, ItemSlots(i, it)[k].place.field, now);
      ItemSlots(i, after) == ItemSlots(i, it)[k := Renewed(ItemSlots(i, it)[k], now)]
  {
    var after := SetText(it, ItemSlots(i, it)[k].place.field, now);
    assert ItemSlots(i, after) == ItemSlots(i, it)[k := Renewed(ItemSlots(i, it)[k], now)];
  }

  lemma {:induction false} RenewedSame(i: nat, it: Item, k: nat)
    requires k < |ItemSlots(i, it)|
    ensures Renewed(ItemSlots(i, it)[k], ItemSlots(i, it)[k].text) == ItemSlots(i, it)[k]
  {
  }

  predicate SlotAfter(i: nat, it: Item, cur: Item, now: seq<string>, base: nat, n: nat, k: nat)
    requires k < |ItemSlots(i, it)| == |ItemSlots(i, cur)| && base + |ItemSlots(i, it)| <= |now|
  {
    ItemSlots(i, cur)[k] == if base + k < n then Renewed(ItemSlots(i, it)[k], now[base + k]) else ItemSlots(i, it)[k]
  }

  ghost predicate PartlyEdited(i: nat, it: Item, cur: Item, now: seq<string>, base: nat, n: nat) {
    && |ItemSlots(i, it)| == |ItemSlots(i, cur)| && base + |ItemSlots(i, it)| <= |now|
    && forall k :: 0 <= k < |ItemSlots(i, it)| ==> SlotAfter(i, it, cur, now, base, n, k)
  }

  // Each text that changes sits where text can be written.
  ghost predicate Allowed(slots: seq<Slot>, now: seq<string>) {
    |now| == |slots| && forall j :: 0 <= j < |slots| ==> now[j] == slots[j].text || Writable(slots[j]) || !slots[j].place.At?
  }

  lemma {:induction false} OtherSlotStep(i: nat, it: Item, cur: Item, now: seq<string>, base: nat, n: nat)
    requires n > 0 && PartlyEdited(i, it, cur, now, base, n - 1) && !(base <= n - 1 < base + |ItemSlots(i, it)|)
    ensures PartlyEdited(i, it, cur, now, base, n)
  {
    forall k | 0 <= k < |ItemSlots(i, it)| ensures SlotAfter(i, it, cur, now, base, n, k) {
      assert SlotAfter(i, it, cur, now, base, n - 1, k);
    }
  }

  lemma {:induction false} OwnSlotStep(i: nat, it: Item, cur: Item, now: seq<string>, base: nat, k: nat, n: nat)
    requires n == base + k + 1 && PartlyEdited(i, it, cur, now, base, n - 1) && k < |ItemSlots(i, it)|
    requires var slot := ItemSlots(i, it)[k]; now[base + k] == slot.text || Writable(slot)
    ensures PartlyEdited(i, it, Step(cur, i, ItemSlots(i, it)[k], now[base + k]), now, base, n)
  {
    var slot := ItemSlots(i, it)[k];
    var after := Step(cur, i, slot, now[base + k]);
    assert SlotAfter(i, it, cur, now, base, n - 1, k);
    ItemSlotPlace(i, it, k);
    RenewedSame(i, it, k);
    if now[base + k] != slot.text { SetTextSlot(i, cur, k, now[base + k]); }
    forall m | 0 <= m < |ItemSlots(i, it)| ensures SlotAfter(i, it, after, now, base, n, m) {
      assert SlotAfter(i, it, cur, now, base, n - 1, m);
    }
  }

  lemma {:induction false} EditedSlots(i: nat, it: Item, slots: seq<Slot>, now: seq<string>, base: nat, n: nat)
    requires n <= |slots| && Holds(slots, i, base, ItemSlots(i, it)) && Allowed(slots, now)
    ensures PartlyEdited(i, it, Edited(it, i, slots, now, n), now, base, n)
  {
    if n == 0 {
      forall k | 0 <= k < |ItemSlots(i, it)| ensures SlotAfter(i, it, it, now, base, n, k) {
      }
    } else {
      var cur := Edited(it, i, slots, now, n - 1);
      EditedSlots(i, it, slots, now, base, n - 1);
      assert Owns(slots, n - 1, i, base, ItemSlots(i, it));
      if base <= n - 1 < base + |ItemSlots(i, it)| {
        OwnSlotStep(i, it, cur, now, base, n - 1 - base, n);
      } else {
        OtherSlotStep(i, it, cur, now, base, n);
      }
    }
  }

  // An item no slot of which changes comes back as it was.
  lemma {:induction false} UntouchedItem(it: Item, i: nat, slots: seq<Slot>, now: seq<string>, n: nat)
    requires n <= |slots| == |now|
    requires forall j :: 0 <= j < |now| && Names(slots[j], i) ==> now[j] == slots[j].text
    ensures Edited(it, i, slots, now, n) == it
  {
    if n > 0 { UntouchedItem(it, i, slots, now, n - 1); }
  }

  // Two items alike but for the words in their text fields.
  predicate SameButWords(x: Block, y: Block) {
    x == y || (x.TextBlock? && y.TextBlock? && y == x.(text := y.text))
  }

  ghost predicate SameShape(x: Payload, y: Payload) {
    || x == y
    || (x.Str? && y.Str?)
    || (x.Arr? && y.Arr? && |x.bs| == |y.bs| && forall j :: 0 <= j < |x.bs| ==> SameButWords(x.bs[j], y.bs[j]))
  }

  ghost predicate SameButText(x: Item, y: Item) {
    && y == x.(content := y.content, output := y.output)
    && SameShape(x.content, y.content) && SameShape(x.output, y.output)
  }

  lemma {:induction false} StepKeepsShape(x: Item, y: Item, i: nat, slot: Slot, now: string, k: nat)
    requires SameButText(x, y) && k < |ItemSlots(i, x)| && slot == ItemSlots(i, x)[k]
    ensures SameButText(x, Step(y, i, slot, now))
  {
  }

  lemma {:induction false} EditedKeepsShape(i: nat, it: Item, slots: seq<Slot>, now: seq<string>, base: nat, n: nat)
    requires n <= |slots| == |now| && Holds(slots, i, base, ItemSlots(i, it))
    ensures SameButText(it, Edited(it, i, slots, now, n))
  {
    if n > 0 {
      EditedKeepsShape(i, it, slots, now, base, n - 1);
      assert Owns(slots, n - 1, i, base, ItemSlots(i, it));
      if Names(slots[n - 1], i) {
        StepKeepsShape(it, Edited(it, i, slots, now, n - 1), i, slots[n - 1], now[n - 1], n - 1 - base);
      }
    }
  }

  // ---- A rebuild that succeeded ---------------------------------------------------------------------------

  // The summary out[s] replaced the slots [s, e), which are those of the items first..last.
  datatype Job = Job(items: seq<Item>, slots: seq<Slot>, lead: nat, out: seq<Msg>, s: nat, e: nat, first: nat, last: nat) {
    predicate Fits() {
      && lead <= s < e <= |slots| && |out| == |slots| - (e - s) + 1
      && first <= last < |items|
    }

    function Texts(): (now: seq<string>)
      requires Fits()
      ensures |now| == |slots|
    {
      Now(slots, out, s, e)
    }

    // The items with every survivor's text written back.
    function Written(): (w: seq<Item>)
      requires Fits()
      ensures |w| == |items|
    {
      EditedItems(items, slots, Texts())
    }

    function Result(): seq<Item>
      requires Fits()
    {
      Assembled(Written(), first, last, SummaryItem(out[s].text))
    }
  }

  ghost predicate Cut(c: Job) {
    && c.Fits() && LaidOut(c.items, c.slots, c.lead)
    && Names(c.slots[c.s], c.first) && Names(c.slots[c.e - 1], c.last)
    && Aligned(c.slots, c.s, c.e, c.first, c.last)
    && AllSurvive(c.slots, c.out, c.lead, |c.slots|, c.s, c.e, |c.items|, c.first, c.last)
  }

  // The job a successful rebuild did.
  ghost function JobOf(b: Body, out: seq<Msg>): Job
    requires Span(b, out).Some?
  {
    var s, e := Span(b, out).value.0, Span(b, out).value.1;
    Job(b.input.items, Slots(b), |Lead(b)|, out, s, e, Slots(b)[s].place.item, Slots(b)[e - 1].place.item)
  }

  lemma {:induction false} SpanFacts(b: Body, slots: seq<Slot>, lead: seq<Slot>, out: seq<Msg>, s: nat, e: nat)
    requires SpanOf(b, slots, lead, out) == Some((s, e))
    ensures Safe(b, slots, s, e) && |lead| <= s && |out| == |slots| - (e - s) + 1
    ensures LeadKept(lead, out) && out[s].role == User && HeadIn(out, |lead|, |out|) == s
  {
  }

  lemma {:induction false} AroundFacts(b: Body, slots: seq<Slot>, lead: nat, out: seq<Msg>, c: Job)
    requires b.input.Items? && Bounded(b.input.items, slots, c.s, c.e) && lead <= c.s && |out| == |slots| - (c.e - c.s) + 1
    requires Around(b, slots, out, lead, c.s, c.e).Some? && Safe(b, slots, c.s, c.e) && LaidOut(b.input.items, slots, lead)
    requires c == Job(b.input.items, slots, lead, out, c.s, c.e, slots[c.s].place.item, slots[c.e - 1].place.item)
    ensures Cut(c) && Around(b, slots, out, lead, c.s, c.e).value == b.(input := Items(c.Result()))
  {
  }

  lemma {:induction false} FromCuts(b: Body, slots: seq<Slot>, lead: seq<Slot>, out: seq<Msg>, c: Job)
    requires b.input.Items? && RebuiltFrom(b, slots, lead, out).Some? && LaidOut(b.input.items, slots, |lead|)
    requires SpanOf(b, slots, lead, out) == Some((c.s, c.e))
    requires c == Job(b.input.items, slots, |lead|, out, c.s, c.e, slots[c.s].place.item, slots[c.e - 1].place.item)
    ensures Cut(c) && RebuiltFrom(b, slots, lead, out).value == b.(input := Items(c.Result()))
  {
    SpanFacts(b, slots, lead, out, c.s, c.e);
    AroundFacts(b, slots, |lead|, out, c);
  }

  lemma {:induction false} RebuiltCuts(b: Body, out: seq<Msg>, c: Job)
    requires Rebuilt(b, out).Some? && c == JobOf(b, out)
    ensures b.input.Items? && Cut(c) && Rebuilt(b, out).value == b.(input := Items(c.Result()))
  {
    BodyIsLaidOut(b);
    FromCuts(b, Slots(b), Lead(b), out, c);
  }

  lemma {:induction false} RebuiltSpan(b: Body, out: seq<Msg>, c: Job)
    requires Span(b, out).Some? && c == JobOf(b, out)
    ensures b.input.Items? && Safe(b, Slots(b), c.s, c.e) && c.s < |out|
    ensures LeadKept(Lead(b), out) && out[c.s].role == User && c.lead <= |out| && HeadIn(out, c.lead, |out|) == c.s
  {
    SpanFacts(b, Slots(b), Lead(b), out, c.s, c.e);
  }

  lemma {:induction false} WritesAllowed(c: Job)
    requires Cut(c)
    ensures Allowed(c.slots, c.Texts())
  {
    forall j | 0 <= j < |c.slots| ensures c.Texts()[j] == c.slots[j].text || Writable(c.slots[j]) || !c.slots[j].place.At? {
      if j >= c.lead { assert SurvivorAt(c.slots, c.out, c.s, c.e, |c.items|, c.first, c.last, j); }
    }
  }

  // An item's slots, after the write-back, show what the components left in them.
  lemma {:induction false} WrittenSlots(c: Job, i: nat)
    requires Cut(c) && i < |c.items|
    ensures PartlyEdited(i, c.items[i], c.Written()[i], c.Texts(), Base(c.items, c.lead, i), |c.slots|)
  {
    WritesAllowed(c);
    HoldsItem(c.items, c.slots, c.lead, i);
    EditedSlots(i, c.items[i], c.slots, c.Texts(), Base(c.items, c.lead, i), |c.slots|);
  }

  // ---- The stash undoes the rebuild -------------------------------------------------------------------------

  function PutBack(items: seq<Item>, at: nat, stash: seq<Item>): seq<Item>
    requires at < |items|
  {
    items[..at] + stash + items[at + 1..]
  }

  lemma {:induction false} CutItemUnwritten(c: Job, i: nat)
    requires Cut(c) && c.first <= i <= c.last
    ensures c.Written()[i] == c.items[i]
  {
    var now := c.Texts();
    forall j | 0 <= j < |now| && Names(c.slots[j], i) ensures now[j] == c.slots[j].text {
      assert OnItsSide(c.slots, j, c.s, c.e, c.first, c.last);
    }
    UntouchedItem(c.items[i], i, c.slots, now, |c.slots|);
  }

  lemma {:induction false} PutBackParts(written: seq<Item>, items: seq<Item>, first: nat, last: nat, summary: Item)
    requires first <= last < |items| == |written| && forall i :: first <= i <= last ==> written[i] == items[i]
    ensures PutBack(Assembled(written, first, last, summary), first, items[first..last + 1]) == written
  {
    var cut := Assembled(written, first, last, summary);
    assert cut[..first] == written[..first] && cut[first + 1..] == written[last + 1..];
    assert items[first..last + 1] == written[first..last + 1];
  }

  lemma {:induction false} CutItemsUnwritten(c: Job)
    requires Cut(c)
    ensures forall i :: c.first <= i <= c.last ==> c.Written()[i] == c.items[i]
  {
    forall i | c.first <= i <= c.last ensures c.Written()[i] == c.items[i] { CutItemUnwritten(c, i); }
  }

  lemma {:induction false} BackIsWritten(c: Job)
    requires c.Fits() && forall i :: c.first <= i <= c.last ==> c.Written()[i] == c.items[i]
    ensures c.first < |c.Result()| && PutBack(c.Result(), c.first, c.items[c.first..c.last + 1]) == c.Written()
  {
    PutBackParts(c.Written(), c.items, c.first, c.last, SummaryItem(c.out[c.s].text));
  }

  predicate TextsKept(c: Job)
    requires c.Fits()
  {
    forall j :: 0 <= j < |c.slots| ==> c.Texts()[j] == c.slots[j].text
  }

  /**
   * The original items again: those of the span byte for byte, the others changed at most in the text the
   * components themselves rewrote, and exactly the original where they rewrote none.
   */
  ghost predicate GivesBack(c: Job, back: seq<Item>)
    requires c.Fits()
  {
    && |back| == |c.items|
    && (forall i :: 0 <= i < |back| ==> SameButText(c.items[i], back[i]))
    && (forall i :: c.first <= i <= c.last ==> back[i] == c.items[i])
    && (TextsKept(c) ==> back == c.items)
  }

  lemma {:induction false} WrittenGivesBack(c: Job)
    requires Cut(c)
    ensures GivesBack(c, c.Written())
  {
    var w := c.Written();
    forall i | 0 <= i < |w| ensures SameButText(c.items[i], w[i]) && (TextsKept(c) ==> w[i] == c.items[i]) {
      HoldsItem(c.items, c.slots, c.lead, i);
      EditedKeepsShape(i, c.items[i], c.slots, c.Texts(), Base(c.items, c.lead, i), |c.slots|);
      if TextsKept(c) { UntouchedItem(c.items[i], i, c.slots, c.Texts(), |c.slots|); }
    }
    CutItemsUnwritten(c);
  }

  lemma {:induction false} CutGivesBack(c: Job)
    requires Cut(c)
    ensures c.first < |c.Result()| && GivesBack(c, PutBack(c.Result(), c.first, c.items[c.first..c.last + 1]))
  {
    CutItemsUnwritten(c);
    BackIsWritten(c);
    WrittenGivesBack(c);
  }

  // What the summarizer stashed is what the rebuild removed.
  lemma {:induction false} StashIsCut(b: Body, out: seq<Msg>, c: Job)
    requires Rebuilt(b, out).Some? && c == JobOf(b, out)
    ensures b.input.Items? && Bounded(b.input.items, Slots(b), c.s, c.e) && c.Fits()
    ensures CutItems(b, Slots(b), c.s, c.e) == c.items[c.first..c.last + 1]
  {
  }

  // Putting the stashed items back in place of the summary undoes the rebuild.
  lemma {:induction false} StashUndoesRebuild(b: Body, out: seq<Msg>, after: Body, c: Job, stash: seq<Item>)
    requires Rebuilt(b, out) == Some(after) && c == JobOf(b, out)
    requires b.input.Items? && Bounded(b.input.items, Slots(b), c.s, c.e) && stash == CutItems(b, Slots(b), c.s, c.e)
    ensures after.input.Items? && c.Fits() && c.first < |after.input.items|
    ensures GivesBack(c, PutBack(after.input.items, c.first, stash))
  {
    RebuiltCuts(b, out, c);
    StashIsCut(b, out, c);
    CutGivesBack(c);
  }

  // ---- The rebuilt body shows the components' output ----------------------------------------------------------

  // What a component sees of a message, and of a slot of the body.
  datatype Seen = Seen(role: Role, text: string)

  function See(slot: Slot): Seen {
    Seen(slot.pre.role, slot.text)
  }

  function SeeAll(slots: seq<Slot>): (out: seq<Seen>)
    ensures |out| == |slots|
  {
    seq(|slots|, k requires 0 <= k < |slots| => See(slots[k]))
  }

  function SeenIn(out: seq<Msg>): (seen: seq<Seen>)
    ensures |seen| == |out|
  {
    seq(|out|, k requires 0 <= k < |out| => Seen(out[k].role, out[k].text))
  }

  function ItemSeen(it: Item): seq<Seen> {
    SeeAll(ItemSlots(0, it))
  }

  // What is seen of an item does not depend on where it stands.
  lemma {:induction false} SeenAnywhere(i: nat, it: Item)
    ensures SeeAll(ItemSlots(i, it)) == ItemSeen(it)
  {
    assert |ItemSlots(i, it)| == |ItemSlots(0, it)|;
    assert forall k :: 0 <= k < |ItemSlots(i, it)| ==> See(ItemSlots(i, it)[k]) == See(ItemSlots(0, it)[k]);
  }

  lemma {:induction false} SeeConcat(x: seq<Slot>, y: seq<Slot>)
    ensures SeeAll(x + y) == SeeAll(x) + SeeAll(y)
  {
  }

  lemma {:induction false} ItemsSeen(items: seq<Item>, n: nat)
    requires n <= |items|
    ensures SeeAll(Flat(ItemSlots, items, n)) == Gather(ItemSeen, items, 0, n)
  {
    if n > 0 {
      ItemsSeen(items, n - 1);
      SeenAnywhere(n - 1, items[n - 1]);
      SeeConcat(Flat(ItemSlots, items, n - 1), ItemSlots(n - 1, items[n - 1]));
    }
  }

  // What each slot past the instructions shows once the write-back is done.
  function NewlySeen(slots: seq<Slot>, now: seq<string>, lead: nat): (seen: seq<Seen>)
    requires lead <= |slots| == |now|
    ensures |seen| == |slots| - lead
  {
    seq(|slots| - lead, q requires 0 <= q < |slots| - lead => Seen(slots[lead + q].pre.role, now[lead + q]))
  }

  lemma {:induction false} WrittenItemSeen(i: nat, it: Item, cur: Item, slots: seq<Slot>, now: seq<string>, lead: nat, base: nat)
    requires PartlyEdited(i, it, cur, now, base, |slots|) && Holds(slots, i, base, ItemSlots(i, it))
    requires lead <= base && |now| == |slots|
    ensures ItemSeen(cur) == NewlySeen(slots, now, lead)[base - lead..base - lead + |ItemSlots(i, it)|]
  {
    SeenAnywhere(i, cur);
    forall k | 0 <= k < |ItemSlots(i, it)| ensures See(ItemSlots(i, cur)[k]) == NewlySeen(slots, now, lead)[base - lead + k] {
      assert SlotAfter(i, it, cur, now, base, |slots|, k);
      assert Owns(slots, base + k, i, base, ItemSlots(i, it));
    }
  }

  function Offset(items: seq<Item>): nat -> nat {
    (i: nat) => if i <= |items| then Off(ItemSlots, items, i) else 0
  }

  lemma {:induction false} WrittenSlice(c: Job, i: nat)
    requires Cut(c) && i < |c.items|
    ensures Slices(ItemSeen, c.Written(), NewlySeen(c.slots, c.Texts(), c.lead), Offset(c.items), i)
  {
    WrittenSlots(c, i);
    HoldsItem(c.items, c.slots, c.lead, i);
    WrittenItemSeen(i, c.items[i], c.Written()[i], c.slots, c.Texts(), c.lead, Base(c.items, c.lead, i));
  }

  lemma {:induction false} NewItemsSeen(items: seq<Item>, w: seq<Item>, whole: seq<Seen>, first: nat, last: nat, text: string)
    requires first <= last < |w| == |items| && |whole| == Off(ItemSlots, items, |items|)
    requires forall i: nat :: i < |w| ==> Slices(ItemSeen, w, whole, Offset(items), i)
    ensures Off(ItemSlots, items, first) <= |whole| && Off(ItemSlots, items, last + 1) <= |whole|
    ensures var ys := Assembled(w, first, last, SummaryItem(text));
      SeeAll(Flat(ItemSlots, ys, |ys|))
        == whole[..Off(ItemSlots, items, first)] + [Seen(User, text)] + whole[Off(ItemSlots, items, last + 1)..]
  {
    var ys := Assembled(w, first, last, SummaryItem(text));
    ItemsSeen(ys, |ys|);
    GatherReplaced(ItemSeen, w, first, last, SummaryItem(text));
    SummarySeen(text);
    GatherEnds(ItemSeen, w, whole, Offset(items), first, last + 1);
  }

  lemma {:induction false} SummarySeen(text: string)
    ensures ItemSeen(SummaryItem(text)) == [Seen(User, text)]
  {
  }

  predicate KeptSeen(out: seq<Msg>, lead: nat, s: nat, e: nat, whole: seq<Seen>, j: nat)
    requires lead <= s < e <= lead + |whole| && |out| == lead + |whole| - (e - s) + 1
    requires lead <= j < lead + |whole|
  {
    s <= j < e || SeenIn(out)[OutIndex(j, s, e)] == whole[j - lead]
  }

  // The output, read off the slots: the kept ones in place, the summary where the span was.
  lemma {:induction false} OutputInParts(lead: seq<Slot>, out: seq<Msg>, s: nat, e: nat, whole: seq<Seen>)
    requires |lead| <= s < e <= |lead| + |whole| && |out| == |lead| + |whole| - (e - s) + 1
    requires forall j :: 0 <= j < |lead| ==> SeenIn(out)[j] == See(lead[j])
    requires forall j :: |lead| <= j < |lead| + |whole| ==> KeptSeen(out, |lead|, s, e, whole, j)
    requires out[s].role == User
    ensures SeeAll(lead) + (whole[..s - |lead|] + [Seen(User, out[s].text)] + whole[e - |lead|..]) == SeenIn(out)
  {
    var all := SeeAll(lead) + (whole[..s - |lead|] + [Seen(User, out[s].text)] + whole[e - |lead|..]);
    forall k | 0 <= k < |out| ensures all[k] == SeenIn(out)[k] {
      if s < k {
        assert KeptSeen(out, |lead|, s, e, whole, k + (e - s) - 1);
      } else if |lead| <= k < s {
        assert KeptSeen(out, |lead|, s, e, whole, k);
      }
    }
  }

  lemma {:induction false} SurvivorSeen(slots: seq<Slot>, lead: nat, out: seq<Msg>, s: nat, e: nat, count: nat, first: nat, last: nat, j: nat)
    requires lead <= s < e <= |slots| && |out| == |slots| - (e - s) + 1 && lead <= j < |slots|
    requires AllSurvive(slots, out, lead, |slots|, s, e, count, first, last)
    ensures KeptSeen(out, lead, s, e, NewlySeen(slots, Now(slots, out, s, e), lead), j)
  {
    assert SurvivorAt(slots, out, s, e, count, first, last, j);
  }

  ghost predicate Sliced(c: Job, whole: seq<Seen>)
    requires c.Fits()
  {
    forall i: nat :: i < |c.items| ==> Slices(ItemSeen, c.Written(), whole, Offset(c.items), i)
  }

  lemma {:induction false} CutIsSliced(c: Job)
    requires Cut(c)
    ensures Sliced(c, NewlySeen(c.slots, c.Texts(), c.lead))
    ensures c.s == Base(c.items, c.lead, c.first) && c.e == Base(c.items, c.lead, c.last + 1)
    ensures |c.slots| == Base(c.items, c.lead, |c.items|)
  {
    var whole := NewlySeen(c.slots, c.Texts(), c.lead);
    forall i: nat | i < |c.items| ensures Slices(ItemSeen, c.Written(), whole, Offset(c.items), i) { WrittenSlice(c, i); }
    SpanIsWholeItems(c.items, c.slots, c.lead, c.s, c.e, c.first, c.last);
  }

  lemma {:induction false} ResultSeen(c: Job, whole: seq<Seen>)
    requires c.Fits() && Sliced(c, whole) && |whole| == |c.slots| - c.lead
    requires c.s == Base(c.items, c.lead, c.first) && c.e == Base(c.items, c.lead, c.last + 1)
    requires |c.slots| == Base(c.items, c.lead, |c.items|)
    ensures SeeAll(Flat(ItemSlots, c.Result(), |c.Result()|)) == whole[..c.s - c.lead] + [Seen(User, c.out[c.s].text)] + whole[c.e - c.lead..]
  {
    NewItemsSeen(c.items, c.Written(), whole, c.first, c.last, c.out[c.s].text);
  }

  lemma {:induction false} OutputRead(slots: seq<Slot>, lead: seq<Slot>, out: seq<Msg>, s: nat, e: nat, count: nat, first: nat, last: nat, whole: seq<Seen>)
    requires |lead| <= s < e <= |slots| && |out| == |slots| - (e - s) + 1 && out[s].role == User
    requires AllSurvive(slots, out, |lead|, |slots|, s, e, count, first, last)
    requires whole == NewlySeen(slots, Now(slots, out, s, e), |lead|)
    requires forall j :: 0 <= j < |lead| ==> SeenIn(out)[j] == See(lead[j])
    ensures SeeAll(lead) + (whole[..s - |lead|] + [Seen(User, out[s].text)] + whole[e - |lead|..]) == SeenIn(out)
  {
    forall j | |lead| <= j < |lead| + |whole| ensures KeptSeen(out, |lead|, s, e, whole, j) {
      SurvivorSeen(slots, |lead|, out, s, e, count, first, last, j);
    }
    OutputInParts(lead, out, s, e, whole);
  }

  lemma {:induction false} LeadSeen(b: Body, out: seq<Msg>)
    requires LeadKept(Lead(b), out)
    ensures |Lead(b)| <= |out| && forall j :: 0 <= j < |Lead(b)| ==> SeenIn(out)[j] == See(Lead(b)[j])
  {
  }

  lemma {:induction false} CutShowsOutput(c: Job, lead: seq<Slot>, listed: seq<Slot>)
    requires Cut(c) && |lead| == c.lead && c.out[c.s].role == User && listed == Flat(ItemSlots, c.Result(), |c.Result()|)
    requires forall j :: 0 <= j < |lead| ==> SeenIn(c.out)[j] == See(lead[j])
    ensures SeeAll(lead) + SeeAll(listed) == SeenIn(c.out)
  {
    CutIsSliced(c);
    ResultSeen(c, NewlySeen(c.slots, c.Texts(), c.lead));
    OutputRead(c.slots, lead, c.out, c.s, c.e, |c.items|, c.first, c.last, NewlySeen(c.slots, c.Texts(), c.lead));
  }

  /**
   * Normalizing the rebuilt body gives the components' output back, message by message, in role and
   * text: nothing they wrote is lost, repeated or out of place.
   */
  lemma {:induction false} RebuiltShowsOutput(b: Body, out: seq<Msg>, after: Body)
    requires Rebuilt(b, out) == Some(after)
    ensures SeeAll(Slots(after)) == SeenIn(out)
  {
    RebuiltCuts(b, out, JobOf(b, out));
    RebuiltSpan(b, out, JobOf(b, out));
    LeadSeen(b, out);
    CutShowsOutput(JobOf(b, out), Lead(b), SlotsUpTo(after.input.items, |after.input.items|));
    SeeConcat(Lead(b), SlotsUpTo(after.input.items, |after.input.items|));
  }
}
