/**
 * The Messages adapter's write-back after a component changed the message count (normalize,
 * writeBackToolText and rebuildCountChanged in apply/apply.go).
 */
module ChatRebuild {
  import opened Lists
  import Reminders

  // ---- The wire and the components' view of it ------------------------------------------------------------

  datatype Role = User | Assistant | System | Tool | OtherRole(name: string)

  // A block inside a tool_result; InnerText is a text block whose text is a string.
  datatype Inner = InnerText(text: string, rest: string) | InnerOther(raw: string)

  datatype Output = OutStr(s: string) | OutArr(bs: seq<Inner>) | OutOther(raw: string)

  datatype Block = ToolResult(id: string, output: Output, rest: string) | TextBlock(text: string, rest: string) | OtherBlock(raw: string)

  datatype Content = Text(s: string) | Blocks(bs: seq<Block>) | ContentOther(raw: string)

  datatype Message = Message(role: Role, content: Content, rest: string)

  // A message as the components see it.
  datatype Chat = Chat(role: Role, text: string, callID: Option<string>, rest: string)

  // What the chat schema reads of a whole message; None where it cannot.
  datatype Dialect = Dialect(anthropic: bool, decode: Message -> Option<Chat>)

  datatype Field = WholeMessage | ToolStr(b: nat) | ToolInner(b: nat, k: nat) | SiblingText(b: nat)

  datatype Slot = Slot(bi: nat, field: Field, preText: string, tail: string, pre: Chat)

  function ToolChat(text: string, id: string): Chat {
    Chat(Tool, text, if id == "" then None else Some(id), "")
  }

  function ToolSlotFor(i: nat, field: Field, text: string, id: string): Slot {
    var (body, tail) := Reminders.Split(text);
    Slot(i, field, text, tail, ToolChat(body, id))
  }

  function InnerSlots(i: nat, b: nat, id: string): (nat, Inner) -> seq<Slot> {
    (k: nat, x: Inner) => if x.InnerText? then [ToolSlotFor(i, ToolInner(b, k), x.text, id)] else []
  }

  function BlockSlots(i: nat): (nat, Block) -> seq<Slot> {
    (b: nat, blk: Block) =>
      if blk.ToolResult? then
        (if blk.output.OutStr? then [ToolSlotFor(i, ToolStr(b), blk.output.s, blk.id)]
         else if blk.output.OutArr? then Flat(InnerSlots(i, b, blk.id), blk.output.bs, |blk.output.bs|)
         else [])
      else if blk.TextBlock? then [Slot(i, SiblingText(b), blk.text, "", Chat(User, blk.text, None, ""))]
      else []
  }

  predicate HasToolResult(bs: seq<Block>) {
    exists b :: 0 <= b < |bs| && bs[b].ToolResult?
  }

  // The slots of the blocks of a user message that carries a tool_result.
  function SplitSlots(d: Dialect, i: nat, m: Message): seq<Slot> {
    if d.anthropic && m.role == User && m.content.Blocks? && HasToolResult(m.content.bs)
    then Flat(BlockSlots(i), m.content.bs, |m.content.bs|)
    else []
  }

  function MessageSlots(d: Dialect): (nat, Message) -> seq<Slot> {
    (i: nat, m: Message) =>
      if SplitSlots(d, i, m) != [] then SplitSlots(d, i, m)
      else
        var c := d.decode(m);
        if c.Some? then [Slot(i, WholeMessage, "", "", c.value)] else []
  }

  function Slots(d: Dialect, msgs: seq<Message>): seq<Slot> {
    Flat(MessageSlots(d), msgs, |msgs|)
  }

  // normalize: the pipeline's messages are the slots' pre-images.
  method Normalize(d: Dialect, msgs: seq<Message>) returns (norm: seq<Chat>, slots: seq<Slot>)
    ensures slots == Slots(d, msgs)
    ensures |norm| == |slots| && forall k :: 0 <= k < |slots| ==> norm[k] == slots[k].pre
  {
    slots := [];
    for i := 0 to |msgs|
      invariant slots == Flat(MessageSlots(d), msgs, i)
    {
      slots := slots + MessageSlots(d)(i, msgs[i]);
    }
    norm := seq(|slots|, k requires 0 <= k < |slots| => slots[k].pre);
  }

  // ---- Which slot a tool message came from ------------------------------------------------------------------

  // toolCallIDAt: the id of the tool_result a string-content slot points at, "" for any other slot.
  function IDAt(msgs: seq<Message>, slot: Slot): string {
    if slot.field.ToolStr? && slot.bi < |msgs| then BlockID(msgs[slot.bi], slot.field.b) else ""
  }

  function BlockID(m: Message, b: nat): string {
    if m.content.Blocks? && b < |m.content.bs| && m.content.bs[b].ToolResult? then m.content.bs[b].id else ""
  }

  // The last slot of that id among the first n, or -1.
  function SlotOfID(msgs: seq<Message>, slots: seq<Slot>, id: string, n: nat): (k: int)
    requires n <= |slots|
    ensures -1 <= k < n && (k >= 0 ==> id != "" && IDAt(msgs, slots[k]) == id)
  {
    if n == 0 || id == "" then -1 else if IDAt(msgs, slots[n - 1]) == id then n - 1 else SlotOfID(msgs, slots, id, n - 1)
  }

  function ToolSlot(msgs: seq<Message>, slots: seq<Slot>, c: Chat): (k: int)
    ensures -1 <= k < |slots|
    ensures k >= 0 ==> c.role == Tool && c.callID.Some? && c.callID.value != "" && IDAt(msgs, slots[k]) == c.callID.value
  {
    if c.role == Tool && c.callID.Some? then SlotOfID(msgs, slots, c.callID.value, |slots|) else -1
  }

  method IndexTools(msgs: seq<Message>, slots: seq<Slot>) returns (byID: map<string, nat>)
    ensures forall id :: SlotOfID(msgs, slots, id, |slots|) == if id in byID then byID[id] else -1
  {
    byID := map[];
    for k := 0 to |slots|
      invariant forall id :: SlotOfID(msgs, slots, id, k) == if id in byID then byID[id] else -1
    {
      var id := IDAt(msgs, slots[k]);
      if id != "" { byID := byID[id := k]; }
    }
  }

  // ---- Text written back into the body ----------------------------------------------------------------------

  // writeTail: the rewritten text followed by the reminders the slot set aside.
  function Tailed(slot: Slot, cur: string): string {
    if |slot.tail| <= |slot.preText| then Reminders.WriteTail(slot.preText, slot.tail, cur) else cur
  }

  function SetOutput(m: Message, field: Field, text: string): Message {
    if field.ToolStr? && m.content.Blocks? && field.b < |m.content.bs| && m.content.bs[field.b].ToolResult?
    then m.(content := Blocks(m.content.bs[field.b := m.content.bs[field.b].(output := OutStr(text))]))
    else m
  }

  // One output message's effect: its slot's block takes its text, unless that is what the block held.
  function WriteOne(base: seq<Message>, msgs: seq<Message>, slots: seq<Slot>, c: Chat): (after: seq<Message>)
    ensures |after| == |msgs|
  {
    var k := ToolSlot(base, slots, c);
    if k >= 0 && Tailed(slots[k], c.text) != slots[k].preText && slots[k].bi < |msgs|
    then msgs[slots[k].bi := SetOutput(msgs[slots[k].bi], slots[k].field, Tailed(slots[k], c.text))]
    else msgs
  }

  function Wrote(msgs: seq<Message>, slots: seq<Slot>, out: seq<Chat>, n: nat): (after: seq<Message>)
    requires n <= |out|
    ensures |after| == |msgs|
  {
    if n == 0 then msgs else WriteOne(msgs, Wrote(msgs, slots, out, n - 1), slots, out[n - 1])
  }

  method WriteBackToolText(msgs: seq<Message>, slots: seq<Slot>, out: seq<Chat>) returns (after: seq<Message>)
    ensures after == Wrote(msgs, slots, out, |out|)
  {
    var byID := IndexTools(msgs, slots);
    after := msgs;
    for i := 0 to |out|
      invariant after == Wrote(msgs, slots, out, i)
    {
      if out[i].role == Tool && out[i].callID.Some? && out[i].callID.value in byID {
        var k := byID[out[i].callID.value];
        assert k == ToolSlot(msgs, slots, out[i]);
        var txt := Tailed(slots[k], out[i].text);
        if txt != slots[k].preText && slots[k].bi < |after| {
          after := after[slots[k].bi := SetOutput(after[slots[k].bi], slots[k].field, txt)];
        }
      } else {
        assert ToolSlot(msgs, slots, out[i]) == -1;
      }
    }
  }

  // ---- The rebuild --------------------------------------------------------------------------------------------

  // A message of the rebuilt array: a body message, or an output message marshaled fresh.
  datatype Part = Kept(bi: nat) | New(c: Chat)

  datatype Wired = FromBody(m: Message) | Marshaled(c: Chat)

  datatype State = State(used: set<nat>, emitted: set<nat>, parts: seq<Part>)

  function FirstEqual(slots: seq<Slot>, used: set<nat>, c: Chat, k: nat): (r: int)
    requires k <= |slots|
    ensures -1 <= r < |slots|
    ensures r >= 0 ==> k <= r && r !in used && slots[r].pre == c
    decreases |slots| - k
  {
    if k == |slots| then -1 else if k !in used && slots[k].pre == c then k else FirstEqual(slots, used, c, k + 1)
  }

  // By id first, then by the bytes of the pre-image.
  function MatchOf(msgs: seq<Message>, slots: seq<Slot>, used: set<nat>, c: Chat): (k: int)
    ensures -1 <= k < |slots| && k !in used
  {
    var k := ToolSlot(msgs, slots, c);
    if k >= 0 && k !in used then k else FirstEqual(slots, used, c, 0)
  }

  function Step(msgs: seq<Message>, slots: seq<Slot>, st: State, c: Chat): Option<State> {
    var k := MatchOf(msgs, slots, st.used, c);
    if k < 0 then Some(st.(parts := st.parts + [New(c)]))
    else if slots[k].bi >= |msgs| then None
    else if slots[k].bi in st.emitted then Some(st.(used := st.used + {k}))
    else Some(State(st.used + {k}, st.emitted + {slots[k].bi}, st.parts + [Kept(slots[k].bi)]))
  }

  function After(msgs: seq<Message>, slots: seq<Slot>, out: seq<Chat>, n: nat): Option<State>
    requires n <= |out|
  {
    if n == 0 then Some(State({}, {}, []))
    else
      var st := After(msgs, slots, out, n - 1);
      if st.None? then None else Step(msgs, slots, st.value, out[n - 1])
  }

  function Wire(msgs: seq<Message>, p: Part): Wired {
    if p.New? then Marshaled(p.c) else if p.bi < |msgs| then FromBody(msgs[p.bi]) else Marshaled(Chat(User, "", None, ""))
  }

  function WireAll(msgs: seq<Message>, parts: seq<Part>): (out: seq<Wired>)
    ensures |out| == |parts|
  {
    seq(|parts|, i requires 0 <= i < |parts| => Wire(msgs, parts[i]))
  }

  function CoveredSet(slots: seq<Slot>, n: nat): set<nat>
    requires n <= |slots|
  {
    if n == 0 then {} else CoveredSet(slots, n - 1) + {slots[n - 1].bi}
  }

  function Rebuilt(msgs: seq<Message>, slots: seq<Slot>, out: seq<Chat>): Option<seq<Wired>> {
    if |CoveredSet(slots, |slots|)| != |msgs| then None
    else
      var written := Wrote(msgs, slots, out, |out|);
      var st := After(written, slots, out, |out|);
      if st.None? then None else Some(WireAll(written, st.value.parts))
  }

  method FindEqual(slots: seq<Slot>, used: set<nat>, c: Chat) returns (r: int)
    ensures r == FirstEqual(slots, used, c, 0)
  {
    for k := 0 to |slots|
      invariant FirstEqual(slots, used, c, 0) == FirstEqual(slots, used, c, k)
    {
      if k !in used && slots[k].pre == c { return k; }
    }
    return -1;
  }

  method RebuildCountChanged(msgs: seq<Message>, slots: seq<Slot>, out: seq<Chat>) returns (r: Option<seq<Wired>>)
    ensures r == Rebuilt(msgs, slots, out)
  {
    var covered: set<nat> := {};
    for k := 0 to |slots|
      invariant covered == CoveredSet(slots, k)
    {
      covered := covered + {slots[k].bi};
    }
    if |covered| != |msgs| { return None; }
    var written := WriteBackToolText(msgs, slots, out);
    r := EmitAll(written, slots, out);
  }

  method EmitAll(msgs: seq<Message>, slots: seq<Slot>, out: seq<Chat>) returns (r: Option<seq<Wired>>)
    ensures var st := After(msgs, slots, out, |out|);
      r == if st.None? then None else Some(WireAll(msgs, st.value.parts))
  {
    var used: set<nat>, emitted: set<nat>, parts: seq<Part> := {}, {}, [];
    var byID := IndexTools(msgs, slots);
    for i := 0 to |out|
      invariant After(msgs, slots, out, i) == Some(State(used, emitted, parts))
    {
      var matched := -1;
      if out[i].role == Tool && out[i].callID.Some? && out[i].callID.value in byID && byID[out[i].callID.value] !in used {
        matched := byID[out[i].callID.value];
      }
      if matched < 0 { matched := FindEqual(slots, used, out[i]); }
      assert matched == MatchOf(msgs, slots, used, out[i]);
      if matched < 0 {
        parts := parts + [New(out[i])];
      } else {
        var bi := slots[matched].bi;
        if bi >= |msgs| {
          StaysNone(msgs, slots, out, i + 1, |out|);
          return None;
        }
        used := used + {matched};
        if bi !in emitted {
          emitted, parts := emitted + {bi}, parts + [Kept(bi)];
        }
      }
    }
    return Some(WireAll(msgs, parts));
  }

  lemma {:induction false} StaysNone(msgs: seq<Message>, slots: seq<Slot>, out: seq<Chat>, i: nat, n: nat)
    requires i <= n <= |out| && After(msgs, slots, out, i).None?
    ensures After(msgs, slots, out, n).None?
    decreases n
  {
    if i < n { StaysNone(msgs, slots, out, i, n - 1); }
  }
}
