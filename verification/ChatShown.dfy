/**
 * What a Messages body is shown to the components as, told from the body alone (normalize in apply/apply.go).
 */
module ChatShown {
  import opened Lists
  import opened ChatRebuild
  import opened ChatEmission
  import opened ChatTools
  import Reminders

  // The text a field of a user message with tool results holds.
  function TextAt(m: Message, f: Field): Option<string> {
    if m.content.Blocks? && !f.WholeMessage? && f.b < |m.content.bs| then BlockText(m.content.bs[f.b], f) else None
  }

  function BlockText(blk: Block, f: Field): Option<string> {
    match f
    case ToolStr(_) => if blk.ToolResult? && blk.output.OutStr? then Some(blk.output.s) else None
    case ToolInner(_, k) =>
      if blk.ToolResult? && blk.output.OutArr? && k < |blk.output.bs| && blk.output.bs[k].InnerText? then Some(blk.output.bs[k].text) else None
    case SiblingText(_) => if blk.TextBlock? then Some(blk.text) else None
    case _ => None
  }

  // The Messages wire's user message that carries a tool_result.
  ghost predicate CarriesResult(d: Dialect, m: Message) {
    d.anthropic && m.role == User && m.content.Blocks? && exists b :: 0 <= b < |m.content.bs| && m.content.bs[b].ToolResult?
  }

  // A text of such a message as one slot: a tool output as a tool message of its call, its trailing reminders set
  // aside, and a text beside it as the user's.
  predicate ShowsText(i: nat, m: Message, slot: Slot) {
    && slot.bi == i && TextAt(m, slot.field) == Some(slot.preText)
    && (slot.field.SiblingText? ==> slot.tail == "" && slot.pre == Chat(User, slot.preText, None, ""))
    && (!slot.field.SiblingText? ==>
      && (slot.pre.text, slot.tail) == Reminders.Split(slot.preText)
      && slot.pre.role == Tool && slot.pre.rest == ""
      && slot.pre.callID == if m.content.bs[slot.field.b].id == "" then None else Some(m.content.bs[slot.field.b].id))
  }

  lemma {:induction false} BlockShows(i: nat, m: Message, b: nat, k: nat)
    requires m.content.Blocks? && b < |m.content.bs| && k < |BlockSlots(i)(b, m.content.bs[b])|
    ensures ShowsText(i, m, BlockSlots(i)(b, m.content.bs[b])[k]) && BlockSlots(i)(b, m.content.bs[b])[k].field.b == b
  {
    var blk := m.content.bs[b];
    if blk.ToolResult? && blk.output.OutArr? {
      var j, z := FlatOwner(InnerSlots(i, b, blk.id), blk.output.bs, |blk.output.bs|, k);
    }
  }

  // A slot is a text of its message, or the message itself as the chat schema reads it.
  lemma {:induction false} SlotShows(d: Dialect, i: nat, m: Message, k: nat)
    requires k < |MessageSlots(d)(i, m)|
    ensures var slot := MessageSlots(d)(i, m)[k];
      if slot.field.WholeMessage? then slot.bi == i && slot.tail == "" && d.decode(m) == Some(slot.pre) && |MessageSlots(d)(i, m)| == 1
      else CarriesResult(d, m) && ShowsText(i, m, slot)
  {
    if SplitSlots(d, i, m) != [] {
      var b, j := FlatOwner(BlockSlots(i), m.content.bs, |m.content.bs|, k);
      BlockShows(i, m, b, j);
    }
  }

  lemma {:induction false} BlockTextShown(i: nat, b: nat, blk: Block, f: Field) returns (k: nat)
    requires !f.WholeMessage? && f.b == b && BlockText(blk, f).Some?
    ensures k < |BlockSlots(i)(b, blk)| && BlockSlots(i)(b, blk)[k].field == f
  {
    k := 0;
    if f.ToolInner? {
      FlatAt(InnerSlots(i, b, blk.id), blk.output.bs, |blk.output.bs|, f.k, 0);
      k := Off(InnerSlots(i, b, blk.id), blk.output.bs, f.k);
    }
  }

  lemma {:induction false} SplitTextShown(d: Dialect, i: nat, m: Message, f: Field) returns (k: nat)
    requires CarriesResult(d, m) && TextAt(m, f).Some?
    ensures k < |SplitSlots(d, i, m)| && SplitSlots(d, i, m)[k].field == f
  {
    var bs := m.content.bs;
    assert HasToolResult(bs);
    var j := BlockTextShown(i, f.b, bs[f.b], f);
    FlatAt(BlockSlots(i), bs, |bs|, f.b, j);
    k := Off(BlockSlots(i), bs, f.b) + j;
  }

  // Every text of a message with tool results has its slot.
  lemma {:induction false} TextIsShown(d: Dialect, i: nat, m: Message, f: Field) returns (k: nat)
    requires CarriesResult(d, m) && TextAt(m, f).Some?
    ensures k < |MessageSlots(d)(i, m)| && MessageSlots(d)(i, m)[k].field == f
  {
    k := SplitTextShown(d, i, m, f);
    assert SplitSlots(d, i, m) != [];
  }

  // Any other message is shown whole where the chat schema can read it, and not at all where it cannot.
  lemma {:induction false} WholeIsShown(d: Dialect, i: nat, m: Message)
    requires !CarriesResult(d, m) || forall f :: TextAt(m, f).None?
    ensures if d.decode(m).None? then MessageSlots(d)(i, m) == [] else MessageSlots(d)(i, m) == [Slot(i, WholeMessage, "", "", d.decode(m).value)]
  {
    if SplitSlots(d, i, m) != [] {
      var b, j := FlatOwner(BlockSlots(i), m.content.bs, |m.content.bs|, 0);
      BlockShows(i, m, b, j);
      assert false;
    }
  }

  // No text is shown twice.
  lemma {:induction false} ShownOnce(d: Dialect, i: nat, m: Message, k: nat, n: nat)
    requires k < n < |MessageSlots(d)(i, m)|
    ensures MessageSlots(d)(i, m)[k].field != MessageSlots(d)(i, m)[n].field
  {
    SlotShows(d, i, m, k);
    SlotShows(d, i, m, n);
    if SplitSlots(d, i, m) != [] {
      var bs := m.content.bs;
      var b, x := FlatOwner(BlockSlots(i), bs, |bs|, k);
      var c, y := FlatOwner(BlockSlots(i), bs, |bs|, n);
      BlockShows(i, m, b, x);
      BlockShows(i, m, c, y);
      if b == c { BlockShownOnce(i, b, bs[b], x, y); }
    }
  }

  lemma {:induction false} BlockShownOnce(i: nat, b: nat, blk: Block, k: nat, n: nat)
    requires k < n < |BlockSlots(i)(b, blk)|
    ensures BlockSlots(i)(b, blk)[k].field != BlockSlots(i)(b, blk)[n].field
  {
    if blk.ToolResult? && blk.output.OutArr? {
      var x, y := FlatOwner(InnerSlots(i, b, blk.id), blk.output.bs, |blk.output.bs|, k);
      var z, w := FlatOwner(InnerSlots(i, b, blk.id), blk.output.bs, |blk.output.bs|, n);
    }
  }

  // ---- Which calls have a slot --------------------------------------------------------------------------------------

  // Block b of message i is a tool_result of that call, shown to the components, with a string for its content.
  ghost predicate StringResult(d: Dialect, msgs: seq<Message>, i: nat, b: nat, id: string) {
    && i < |msgs| && CarriesResult(d, msgs[i]) && b < |msgs[i].content.bs|
    && var blk := msgs[i].content.bs[b]; blk.ToolResult? && blk.output.OutStr? && blk.id == id
  }

  lemma {:induction false} IDIsFound(msgs: seq<Message>, slots: seq<Slot>, id: string, n: nat, k: nat)
    requires k < n <= |slots| && id != "" && IDAt(msgs, slots[k]) == id
    ensures k <= SlotOfID(msgs, slots, id, n)
  {
    if k < n - 1 { IDIsFound(msgs, slots, id, n - 1, k); }
  }

  lemma {:induction false} StringResultHasSlot(d: Dialect, msgs: seq<Message>, i: nat, b: nat, id: string) returns (k: nat)
    requires StringResult(d, msgs, i, b, id)
    ensures k < |Slots(d, msgs)| && Slots(d, msgs)[k].bi == i && Slots(d, msgs)[k].field == ToolStr(b)
    ensures IDAt(msgs, Slots(d, msgs)[k]) == id
  {
    assert TextAt(msgs[i], ToolStr(b)).Some?;
    var j := TextIsShown(d, i, msgs[i], ToolStr(b));
    OwnMessage(d, i, msgs[i], j);
    FlatAt(MessageSlots(d), msgs, |msgs|, i, j);
    k := Off(MessageSlots(d), msgs, i) + j;
  }

  lemma {:induction false} SlotIsStringResult(d: Dialect, msgs: seq<Message>, k: nat)
    requires k < |Slots(d, msgs)| && IDAt(msgs, Slots(d, msgs)[k]) != ""
    ensures var slot := Slots(d, msgs)[k];
      slot.field.ToolStr? && StringResult(d, msgs, slot.bi, slot.field.b, IDAt(msgs, slot))
  {
    var i, j := SlotsWithin(d, msgs, k);
    SlotShows(d, i, msgs[i], j);
  }

  // A tool message of a call that some string tool_result carries.
  ghost predicate AnswersString(d: Dialect, msgs: seq<Message>, c: Chat) {
    c.role == Tool && c.callID.Some? && c.callID.value != "" && exists i: nat, b: nat :: StringResult(d, msgs, i, b, c.callID.value)
  }

  /**
   * A tool message finds a slot by its call exactly when some tool_result of that call has a string for its
   * content, and then one that points at such a block.
   */
  lemma {:induction false} CallHasSlotIff(d: Dialect, msgs: seq<Message>, c: Chat)
    ensures var k := ToolSlot(msgs, Slots(d, msgs), c);
      && (k >= 0 <==> AnswersString(d, msgs, c))
      && (k >= 0 ==> var slot := Slots(d, msgs)[k];
            slot.field.ToolStr? && StringResult(d, msgs, slot.bi, slot.field.b, c.callID.value))
  {
    var slots := Slots(d, msgs);
    var k := ToolSlot(msgs, slots, c);
    if k >= 0 { SlotIsStringResult(d, msgs, k); }
    if c.role == Tool && c.callID.Some? && c.callID.value != "" {
      if i: nat, b: nat :| StringResult(d, msgs, i, b, c.callID.value) {
        var j := StringResultHasSlot(d, msgs, i, b, c.callID.value);
        IDIsFound(msgs, slots, c.callID.value, |slots|, j);
      }
    }
  }
}
