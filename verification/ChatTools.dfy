/**
 * Tool messages through the Messages rebuild (writeBackToolText and rebuildCountChanged in
 * apply/apply.go): a kept tool message is matched to its tool_result by its call, and its text reaches
 * that block.
 */
module ChatTools {
  import opened Lists
  import opened ChatRebuild
  import opened ChatEmission
  import Reminders

  // ---- The slots of string outputs -----------------------------------------------------------------------------

  predicate Located(msgs: seq<Message>, slot: Slot) {
    slot.bi < |msgs| && msgs[slot.bi].content.Blocks? && slot.field.ToolStr? && slot.field.b < |msgs[slot.bi].content.bs|
  }

  function BlockOf(msgs: seq<Message>, slot: Slot): Block
    requires Located(msgs, slot)
  {
    msgs[slot.bi].content.bs[slot.field.b]
  }

  // The slot points at a tool_result whose content is the string it recorded.
  ghost predicate PointsAtString(msgs: seq<Message>, slot: Slot) {
    && Located(msgs, slot) && BlockOf(msgs, slot).ToolResult? && BlockOf(msgs, slot).output == OutStr(slot.preText)
    && slot.pre == ToolChat(Reminders.Split(slot.preText).0, BlockOf(msgs, slot).id)
    && slot.tail == Reminders.Split(slot.preText).1
  }

  lemma {:induction false} StringSlotPoints(d: Dialect, msgs: seq<Message>, k: nat)
    requires k < |Slots(d, msgs)| && Slots(d, msgs)[k].field.ToolStr?
    ensures PointsAtString(msgs, Slots(d, msgs)[k])
  {
    var i, j := SlotsWithin(d, msgs, k);
    if SplitSlots(d, i, msgs[i]) != [] {
      var bs := msgs[i].content.bs;
      var b, z := FlatOwner(BlockSlots(i), bs, |bs|, j);
      InnerIsNotString(i, b, bs[b], z);
    }
  }

  lemma {:induction false} InnerIsNotString(i: nat, b: nat, blk: Block, z: nat)
    requires z < |BlockSlots(i)(b, blk)| && BlockSlots(i)(b, blk)[z].field.ToolStr?
    ensures blk.ToolResult? && blk.output.OutStr? && BlockSlots(i)(b, blk)[z] == ToolSlotFor(i, ToolStr(b), blk.output.s, blk.id)
  {
    if blk.ToolResult? && blk.output.OutArr? {
      var k, y := FlatOwner(InnerSlots(i, b, blk.id), blk.output.bs, |blk.output.bs|, z);
      assert false;
    }
  }

  ghost predicate Consistent(msgs: seq<Message>, slots: seq<Slot>) {
    forall k :: 0 <= k < |slots| && IDAt(msgs, slots[k]) != "" ==>
      slots[k].pre.role == Tool && slots[k].pre.callID == Some(IDAt(msgs, slots[k]))
  }

  lemma {:induction false} NormalizedConsistent(d: Dialect, msgs: seq<Message>)
    ensures Consistent(msgs, Slots(d, msgs))
  {
    var slots := Slots(d, msgs);
    forall k | 0 <= k < |slots| && IDAt(msgs, slots[k]) != ""
      ensures slots[k].pre.role == Tool && slots[k].pre.callID == Some(IDAt(msgs, slots[k]))
    {
      StringSlotPoints(d, msgs, k);
    }
  }

  // ---- The write-back keeps every id --------------------------------------------------------------------------

  lemma {:induction false} OutputKeepsID(m: Message, field: Field, text: string, b: nat)
    ensures BlockID(SetOutput(m, field, text), b) == BlockID(m, b)
  {
  }

  lemma {:induction false} WroteKeepsID(msgs: seq<Message>, slots: seq<Slot>, out: seq<Chat>, n: nat, slot: Slot)
    requires n <= |out|
    ensures IDAt(Wrote(msgs, slots, out, n), slot) == IDAt(msgs, slot)
  {
    if n > 0 {
      WroteKeepsID(msgs, slots, out, n - 1, slot);
      var k := ToolSlot(msgs, slots, out[n - 1]);
      if k >= 0 && slot.field.ToolStr? && slot.bi == slots[k].bi && slot.bi < |msgs| {
        OutputKeepsID(Wrote(msgs, slots, out, n - 1)[slot.bi], slots[k].field, Tailed(slots[k], out[n - 1].text), slot.field.b);
      }
    }
  }

  lemma {:induction false} SameIDs(a: seq<Message>, b: seq<Message>, slots: seq<Slot>, id: string, n: nat)
    requires n <= |slots| && forall k :: 0 <= k < |slots| ==> IDAt(a, slots[k]) == IDAt(b, slots[k])
    ensures SlotOfID(a, slots, id, n) == SlotOfID(b, slots, id, n)
  {
    if n > 0 { SameIDs(a, b, slots, id, n - 1); }
  }

  lemma {:induction false} WroteKeepsToolSlot(msgs: seq<Message>, slots: seq<Slot>, out: seq<Chat>, c: Chat)
    ensures ToolSlot(Wrote(msgs, slots, out, |out|), slots, c) == ToolSlot(msgs, slots, c)
  {
    forall k | 0 <= k < |slots| ensures IDAt(Wrote(msgs, slots, out, |out|), slots[k]) == IDAt(msgs, slots[k]) {
      WroteKeepsID(msgs, slots, out, |out|, slots[k]);
    }
    if c.callID.Some? { SameIDs(Wrote(msgs, slots, out, |out|), msgs, slots, c.callID.value, |slots|); }
  }

  // ---- Who answers a string output -------------------------------------------------------------------------------

  predicate Answers(msgs: seq<Message>, slots: seq<Slot>, c: Chat, k: nat) {
    ToolSlot(msgs, slots, c) == k
  }

  // No string output is answered by two messages.
  ghost predicate OneAnswer(msgs: seq<Message>, slots: seq<Slot>, out: seq<Chat>) {
    forall i, j :: 0 <= i < j < |out| && ToolSlot(msgs, slots, out[i]) >= 0 ==>
      ToolSlot(msgs, slots, out[i]) != ToolSlot(msgs, slots, out[j])
  }

  // A slot reached by its id is the one its own pre-image would reach.
  lemma {:induction false} OwnReading(msgs: seq<Message>, slots: seq<Slot>, c: Chat, k: nat)
    requires Consistent(msgs, slots) && k < |slots| && Answers(msgs, slots, c, k)
    ensures Answers(msgs, slots, slots[k].pre, k)
  {
  }

  // A tool message whose call has a string slot is matched to it, whatever happened to its text.
  lemma {:induction false} ToolFindsItsSlot(msgs: seq<Message>, slots: seq<Slot>, out: seq<Chat>, t: seq<int>, i: nat)
    requires i < |out| && t == Trace(msgs, slots, out, |out|) && Consistent(msgs, slots) && OneAnswer(msgs, slots, out)
    requires ToolSlot(msgs, slots, out[i]) >= 0
    ensures t[i] == ToolSlot(msgs, slots, out[i])
  {
    var k := ToolSlot(msgs, slots, out[i]);
    OwnReading(msgs, slots, out[i], k);
    TraceAt(msgs, slots, out, i, t);
    if k in Used(t[..i]) {
      var j :| 0 <= j < i && t[..i][j] == k;
      MatchesAreRight(msgs, slots, out, t, j);
      assert false;
    }
  }

  lemma {:induction false} WroteConsistent(msgs: seq<Message>, slots: seq<Slot>, out: seq<Chat>)
    requires Consistent(msgs, slots)
    ensures Consistent(Wrote(msgs, slots, out, |out|), slots)
  {
    forall k | 0 <= k < |slots| ensures IDAt(Wrote(msgs, slots, out, |out|), slots[k]) == IDAt(msgs, slots[k]) {
      WroteKeepsID(msgs, slots, out, |out|, slots[k]);
    }
  }

  lemma {:induction false} WroteOneAnswer(msgs: seq<Message>, slots: seq<Slot>, out: seq<Chat>)
    requires OneAnswer(msgs, slots, out)
    ensures OneAnswer(Wrote(msgs, slots, out, |out|), slots, out)
  {
    forall i | 0 <= i < |out| ensures ToolSlot(Wrote(msgs, slots, out, |out|), slots, out[i]) == ToolSlot(msgs, slots, out[i]) {
      WroteKeepsToolSlot(msgs, slots, out, out[i]);
    }
  }

  // ---- The text reaches its block -------------------------------------------------------------------------------

  // Nothing but tool outputs changes: not the roles, not the number of blocks, not what else a block holds.
  predicate SameButOutput(x: Block, y: Block) {
    x == y || (x.ToolResult? && y.ToolResult? && y == x.(output := y.output))
  }

  ghost predicate SameButOutputs(x: Message, y: Message) {
    || x == y
    || (&& x.content.Blocks? && y.content.Blocks? && y == x.(content := y.content) && |x.content.bs| == |y.content.bs|
        && forall b :: 0 <= b < |x.content.bs| ==> SameButOutput(x.content.bs[b], y.content.bs[b]))
  }

  lemma {:induction false} WroteKeepsRest(msgs: seq<Message>, slots: seq<Slot>, out: seq<Chat>, n: nat, i: nat)
    requires n <= |out| && i < |msgs|
    ensures SameButOutputs(msgs[i], Wrote(msgs, slots, out, n)[i])
  {
    if n > 0 { WroteKeepsRest(msgs, slots, out, n - 1, i); }
  }

  lemma {:induction false} OtherBlockKept(m: Message, field: Field, text: string, b: nat)
    requires m.content.Blocks? && b < |m.content.bs| && (field.ToolStr? ==> field.b != b)
    ensures var after := SetOutput(m, field, text);
      after.content.Blocks? && |after.content.bs| == |m.content.bs| && after.content.bs[b] == m.content.bs[b]
  {
  }

  // Slots of different ids point at different blocks.
  lemma {:induction false} OtherSlotOtherBlock(msgs: seq<Message>, slots: seq<Slot>, k: nat, c: Chat)
    requires k < |slots| && IDAt(msgs, slots[k]) != "" && SlotOfID(msgs, slots, IDAt(msgs, slots[k]), |slots|) == k
    requires ToolSlot(msgs, slots, c) >= 0 && ToolSlot(msgs, slots, c) != k
    ensures var o := slots[ToolSlot(msgs, slots, c)]; o.bi != slots[k].bi || o.field.b != slots[k].field.b
  {
  }

  lemma {:induction false} OtherBlockStays(msgs: seq<Message>, now: seq<Message>, slots: seq<Slot>, c: Chat, k: nat)
    requires k < |slots| && Located(now, slots[k]) && !Answers(msgs, slots, c, k)
    requires IDAt(msgs, slots[k]) != "" && SlotOfID(msgs, slots, IDAt(msgs, slots[k]), |slots|) == k
    ensures Located(WriteOne(msgs, now, slots, c), slots[k])
    ensures BlockOf(WriteOne(msgs, now, slots, c), slots[k]) == BlockOf(now, slots[k])
  {
    var o := ToolSlot(msgs, slots, c);
    if o >= 0 {
      OtherSlotOtherBlock(msgs, slots, k, c);
      if slots[o].bi == slots[k].bi {
        OtherBlockKept(now[slots[k].bi], slots[o].field, Tailed(slots[o], c.text), slots[k].field.b);
      }
    }
  }

  // A block whose call no output message answers keeps its bytes.
  lemma {:induction false} UnansweredBlockStays(msgs: seq<Message>, slots: seq<Slot>, out: seq<Chat>, n: nat, k: nat)
    requires n <= |out| && k < |slots| && Located(msgs, slots[k])
    requires IDAt(msgs, slots[k]) != "" && SlotOfID(msgs, slots, IDAt(msgs, slots[k]), |slots|) == k
    requires forall j :: 0 <= j < n ==> !Answers(msgs, slots, out[j], k)
    ensures Located(Wrote(msgs, slots, out, n), slots[k])
    ensures BlockOf(Wrote(msgs, slots, out, n), slots[k]) == BlockOf(msgs, slots[k])
  {
    if n > 0 {
      UnansweredBlockStays(msgs, slots, out, n - 1, k);
      OtherBlockStays(msgs, Wrote(msgs, slots, out, n - 1), slots, out[n - 1], k);
    }
  }

  lemma {:induction false} AnswerIsWritten(msgs: seq<Message>, now: seq<Message>, slots: seq<Slot>, c: Chat, k: nat)
    requires k < |slots| && Located(now, slots[k]) && Answers(msgs, slots, c, k)
    requires BlockOf(now, slots[k]).ToolResult? && BlockOf(now, slots[k]).output == OutStr(slots[k].preText)
    ensures Located(WriteOne(msgs, now, slots, c), slots[k])
    ensures BlockOf(WriteOne(msgs, now, slots, c), slots[k]) == BlockOf(now, slots[k]).(output := OutStr(Tailed(slots[k], c.text)))
  {
  }

  // An output's new text, the reminders that ended the old one after it.
  function Answered(preText: string, text: string): string {
    Reminders.SplitIsLosslessAndFinal(preText);
    Reminders.WriteTail(preText, Reminders.Split(preText).1, text)
  }

  lemma {:induction false} TailedIsAnswered(msgs: seq<Message>, slot: Slot, text: string)
    requires PointsAtString(msgs, slot)
    ensures Tailed(slot, text) == Answered(slot.preText, text)
  {
    Reminders.SplitIsLosslessAndFinal(slot.preText);
  }

  // The output message that answers a block's call leaves its text there, followed by the block's reminders.
  lemma {:induction false} TextReachesBlock(msgs: seq<Message>, slots: seq<Slot>, out: seq<Chat>, n: nat, k: nat, j: nat)
    requires j < n <= |out| && k < |slots| && OneAnswer(msgs, slots, out) && PointsAtString(msgs, slots[k])
    requires IDAt(msgs, slots[k]) != "" && SlotOfID(msgs, slots, IDAt(msgs, slots[k]), |slots|) == k
    requires Answers(msgs, slots, out[j], k)
    ensures Located(Wrote(msgs, slots, out, n), slots[k])
    ensures BlockOf(Wrote(msgs, slots, out, n), slots[k])
         == BlockOf(msgs, slots[k]).(output := OutStr(Answered(slots[k].preText, out[j].text)))
  {
    TailedIsAnswered(msgs, slots[k], out[j].text);
    if j == n - 1 {
      forall i | 0 <= i < j ensures !Answers(msgs, slots, out[i], k) { AnsweredOnce(msgs, slots, out, k, i, j); }
      UnansweredBlockStays(msgs, slots, out, n - 1, k);
      AnswerIsWritten(msgs, Wrote(msgs, slots, out, n - 1), slots, out[j], k);
    } else {
      TextReachesBlock(msgs, slots, out, n - 1, k, j);
      AnsweredOnce(msgs, slots, out, k, j, n - 1);
      OtherBlockStays(msgs, Wrote(msgs, slots, out, n - 1), slots, out[n - 1], k);
    }
  }

  lemma {:induction false} AnsweredOnce(msgs: seq<Message>, slots: seq<Slot>, out: seq<Chat>, k: nat, i: nat, j: nat)
    requires OneAnswer(msgs, slots, out) && i < j < |out|
    ensures !(Answers(msgs, slots, out[i], k) && Answers(msgs, slots, out[j], k))
  {
  }
}
