/**
 * The Responses adapter (apply/responses.go): the items of a request body shown to the components as
 * messages, the span a summarizer may cut, the stash of what it cut, and the body rebuilt around the
 * one summary message.
 */
module Responses {
  import opened Lists

  // ---- The wire ---------------------------------------------------------------------------------------

  // A block of an array payload: a text block, any other object, or something that is no object.
  datatype Block = TextBlock(kind: string, text: string, rest: string) | OtherBlock(kind: string, raw: string) | Junk(raw: string)

  // A field that may hold a string or an array of blocks. Neither covers a missing field.
  datatype Payload = Str(s: string) | Arr(bs: seq<Block>) | Neither(raw: string)

  // An item's type and role fields; Untyped and NoRole where the field is missing or empty.
  datatype Kind = Untyped | MessageItem | Reasoning | FunctionCall | CustomToolCall
                | FunctionCallOutput | CustomToolCallOutput | OtherKind(name: string)

  datatype RoleField = NoRole | UserRole | AssistantRole | SystemRole | DeveloperRole | ToolRole | OtherRole(name: string)

  // An item of `input`. An absent call id reads as "".
  datatype Item = Item(kind: Kind, role: RoleField, callID: string, content: Payload, output: Payload, rest: string)

  datatype Input = Items(items: seq<Item>) | Whole(text: string) | NoInput(raw: string)

  datatype Body = Body(instructions: Option<string>, input: Input, rest: string)

  predicate IsCall(it: Item) {
    it.kind.FunctionCall? || it.kind.CustomToolCall?
  }

  predicate IsOutput(it: Item) {
    it.kind.FunctionCallOutput? || it.kind.CustomToolCallOutput?
  }

  // ---- The components' view ---------------------------------------------------------------------------

  datatype Role = User | System | Assistant | Tool

  // extra is whatever a message carries beside its role and text: a call, a tool call's id.
  datatype Msg = Msg(role: Role, text: string, extra: string)

  // Where a slot's text sits inside its item. Opaque items and blocks have no text to write.
  datatype Field = WholeItem | ContentStr | ContentBlock(j: nat) | ContentText(j: nat)
                 | OutputStr | OutputBlock(j: nat) | OutputText(j: nat)

  datatype Place = Instructions | InputString | At(item: nat, field: Field)

  // pre is the normalized message itself, as it was before any component ran.
  datatype Slot = Slot(place: Place, text: string, pre: Msg, isOpaque: bool)

  function RoleOf(role: RoleField): Role {
    match role
    case SystemRole => System
    case DeveloperRole => System
    case AssistantRole => Assistant
    case ToolRole => Tool
    case _ => User
  }

  function BlockKind(b: Block): string {
    if b.Junk? then "" else b.kind
  }

  function OutputSlot(i: nat, id: string, j: nat, b: Block): Slot {
    if b.TextBlock? then Slot(At(i, OutputText(j)), b.text, Msg(Tool, b.text, id), false)
    else
      var text := "[non-text tool output block " + BlockKind(b) + " preserved for expansion]";
      Slot(At(i, OutputBlock(j)), text, Msg(Tool, text, id), true)
  }

  function ContentSlot(i: nat, role: RoleField, j: nat, b: Block): Slot {
    if b.TextBlock? then Slot(At(i, ContentText(j)), b.text, Msg(RoleOf(role), b.text, ""), false)
    else
      var text := "[non-text " + BlockKind(b) + " block preserved for expansion]";
      Slot(At(i, ContentBlock(j)), text, Msg(RoleOf(role), text, ""), true)
  }

  // The slots one item is shown as; none where it is only carried along.
  function ItemSlots(i: nat, it: Item): seq<Slot> {
    if it.kind.Reasoning? then [Slot(At(i, WholeItem), "", Msg(Assistant, "", ""), true)]
    else if IsCall(it) then [Slot(At(i, WholeItem), "", Msg(Assistant, "", it.rest), true)]
    else if IsOutput(it) then
      match it.output
      case Str(s) => [Slot(At(i, OutputStr), s, Msg(Tool, s, it.callID), false)]
      case Arr(bs) => seq(|bs|, j requires 0 <= j < |bs| => OutputSlot(i, it.callID, j, bs[j]))
      case Neither(_) => []
    else if !it.kind.MessageItem? && it.role.NoRole? then []
    else
      match it.content
      case Str(s) => [Slot(At(i, ContentStr), s, Msg(RoleOf(it.role), s, ""), false)]
      case Arr(bs) => seq(|bs|, j requires 0 <= j < |bs| => ContentSlot(i, it.role, j, bs[j]))
      case Neither(_) => []
  }

  function SlotsUpTo(items: seq<Item>, n: nat): seq<Slot>
    requires n <= |items|
  {
    Flat(ItemSlots, items, n)
  }

  function Lead(b: Body): seq<Slot> {
    if b.instructions.Some?
    then [Slot(Instructions, b.instructions.value, Msg(System, b.instructions.value, ""), false)]
    else []
  }

  function Slots(b: Body): seq<Slot> {
    match b.input
    case Whole(text) => Lead(b) + [Slot(InputString, text, Msg(User, text, ""), false)]
    case Items(items) => Lead(b) + SlotsUpTo(items, |items|)
    case NoInput(_) => Lead(b)
  }

  function Pres(slots: seq<Slot>): (out: seq<Msg>)
    ensures |out| == |slots|
  {
    seq(|slots|, k requires 0 <= k < |slots| => slots[k].pre)
  }

  // normalizeResponses.
  method Normalize(b: Body) returns (out: seq<Msg>, slots: seq<Slot>)
    ensures slots == Slots(b)
    ensures out == Pres(slots)
  {
    match b.input {
      case Whole(text) => slots := Lead(b) + [Slot(InputString, text, Msg(User, text, ""), false)];
      case NoInput(_) => slots := Lead(b);
      case Items(items) => slots := NormalizeItems(Lead(b), items);
    }
    out := Pres(slots);
  }

  method NormalizeItems(lead: seq<Slot>, items: seq<Item>) returns (slots: seq<Slot>)
    ensures slots == lead + SlotsUpTo(items, |items|)
  {
    slots := lead;
    for i := 0 to |items|
      invariant slots == lead + SlotsUpTo(items, i)
    {
      var more := ItemSlots(i, items[i]);
      Assoc(lead, SlotsUpTo(items, i), more);
      slots := slots + more;
    }
  }

  // ---- The span a summarizer may cut --------------------------------------------------------------------

  predicate IsObject(b: Block) {
    !b.Junk?
  }

  // How many slots an item must be shown as to be wholly represented, or -1 where it never is.
  function Represented(it: Item): int {
    if it.kind.Reasoning? || IsCall(it) then 1
    else if IsOutput(it) then Shown(it.output)
    else if !it.kind.Untyped? && !it.kind.MessageItem? then -1
    else if it.role.NoRole? || it.role.ToolRole? || it.role.OtherRole? then -1
    else Shown(it.content)
  }

  function Shown(p: Payload): int {
    match p
    case Str(_) => 1
    case Arr(bs) => if bs == [] || (exists j :: 0 <= j < |bs| && !IsObject(bs[j])) then -1 else |bs|
    case Neither(_) => -1
  }

  function Covered(slots: seq<Slot>, i: nat, n: nat): nat
    requires n <= |slots|
  {
    if n == 0 then 0
    else Covered(slots, i, n - 1) + (if slots[n - 1].place.At? && slots[n - 1].place.item == i then 1 else 0)
  }

  // The last item of the kind with that id among the first n, or -1.
  function LastCall(items: seq<Item>, id: string, n: nat): (k: int)
    requires n <= |items|
    ensures -1 <= k < n
    ensures k >= 0 ==> IsCall(items[k]) && items[k].callID == id
  {
    if n == 0 then -1 else if IsCall(items[n - 1]) && items[n - 1].callID == id then n - 1 else LastCall(items, id, n - 1)
  }

  function LastOutput(items: seq<Item>, id: string, n: nat): (k: int)
    requires n <= |items|
    ensures -1 <= k < n
    ensures k >= 0 ==> IsOutput(items[k]) && items[k].callID == id
  {
    if n == 0 then -1 else if IsOutput(items[n - 1]) && items[n - 1].callID == id then n - 1 else LastOutput(items, id, n - 1)
  }

  predicate PairWhole(items: seq<Item>, id: string, first: nat, last: nat) {
    (first <= LastCall(items, id, |items|) <= last) == (first <= LastOutput(items, id, |items|) <= last)
  }

  // Where the slots of a span begin and end on the wire.
  predicate Bounded(items: seq<Item>, slots: seq<Slot>, start: int, end: int) {
    && 0 <= start < end <= |slots|
    && slots[start].place.At? && slots[end - 1].place.At?
    && slots[start].place.item <= slots[end - 1].place.item < |items|
  }

  predicate OnItsSide(slots: seq<Slot>, j: nat, start: int, end: int, first: nat, last: nat)
    requires j < |slots|
  {
    slots[j].place.At? ==> (first <= slots[j].place.item <= last <==> start <= j < end)
  }

  // responsesSummarySpanSafe: whole items, all of them representable, no call apart from its output.
  ghost predicate Safe(b: Body, slots: seq<Slot>, start: int, end: int) {
    && b.input.Items?
    && Bounded(b.input.items, slots, start, end)
    && var items, first, last := b.input.items, slots[start].place.item, slots[end - 1].place.item;
    && Aligned(slots, start, end, first, last)
    && Wholly(items, slots, first, last)
    && PairsWhole(items, first, last)
  }

  // No slot of a cut item is outside the span, and no other slot inside it.
  ghost predicate Aligned(slots: seq<Slot>, start: int, end: int, first: nat, last: nat) {
    forall j :: 0 <= j < |slots| ==> OnItsSide(slots, j, start, end, first, last)
  }

  predicate WhollyAt(items: seq<Item>, slots: seq<Slot>, i: nat)
    requires i < |items|
  {
    Covered(slots, i, |slots|) == Represented(items[i])
  }

  ghost predicate Wholly(items: seq<Item>, slots: seq<Slot>, first: nat, last: nat)
    requires last < |items|
  {
    forall i :: first <= i <= last ==> WhollyAt(items, slots, i)
  }

  ghost predicate PairsWhole(items: seq<Item>, first: nat, last: nat) {
    forall id :: id != "" ==> PairWhole(items, id, first, last)
  }

  method CountCovered(slots: seq<Slot>, start: nat, end: nat, first: nat, last: nat) returns (ok: bool, covered: map<nat, nat>)
    ensures ok <==> Aligned(slots, start, end, first, last)
    ensures ok ==> forall i: nat :: first <= i <= last ==>
      Covered(slots, i, |slots|) == if i in covered then covered[i] else 0
  {
    covered := map[];
    for j := 0 to |slots|
      invariant forall k :: 0 <= k < j ==> OnItsSide(slots, k, start, end, first, last)
      invariant forall i: nat :: first <= i <= last ==> Covered(slots, i, j) == if i in covered then covered[i] else 0
    {
      if slots[j].place.At? {
        var idx := slots[j].place.item;
        if first <= idx <= last {
          if j < start || j >= end {
            assert !OnItsSide(slots, j, start, end, first, last);
            return false, covered;
          }
          covered := covered[idx := (if idx in covered then covered[idx] else 0) + 1];
        } else if start <= j < end {
          assert !OnItsSide(slots, j, start, end, first, last);
          return false, covered;
        }
      }
    }
    ok := true;
  }

  // The two maps from id to the last item of each side.
  method IndexSides(items: seq<Item>) returns (calls: map<string, nat>, outputs: map<string, nat>)
    ensures forall id :: id != "" ==> LastCall(items, id, |items|) == if id in calls then calls[id] else -1
    ensures forall id :: id != "" ==> LastOutput(items, id, |items|) == if id in outputs then outputs[id] else -1
    ensures "" !in calls && "" !in outputs
  {
    calls, outputs := map[], map[];
    for i := 0 to |items|
      invariant forall id :: id != "" ==> LastCall(items, id, i) == if id in calls then calls[id] else -1
      invariant forall id :: id != "" ==> LastOutput(items, id, i) == if id in outputs then outputs[id] else -1
      invariant "" !in calls && "" !in outputs
    {
      var id := items[i].callID;
      if id != "" {
        if IsCall(items[i]) { calls := calls[id := i]; }
        else if IsOutput(items[i]) { outputs := outputs[id := i]; }
      }
    }
  }

  // Every id in `these` that is inside on its own side is inside on the other.
  method SameSide(these: map<string, nat>, others: map<string, nat>, first: nat, last: nat) returns (ok: bool)
    ensures ok <==> forall id :: id in these ==> OnSameSide(these, others, id, first, last)
  {
    var ids := these.Keys;
    while ids != {}
      invariant ids <= these.Keys
      invariant forall id :: id in these && id !in ids ==> OnSameSide(these, others, id, first, last)
    {
      var id :| id in ids;
      var here := first <= these[id] <= last;
      if (here && (id !in others || !(first <= others[id] <= last))) || (!here && id in others && first <= others[id] <= last) {
        assert !OnSameSide(these, others, id, first, last);
        return false;
      }
      ids := ids - {id};
    }
    return true;
  }

  predicate OnSameSide(these: map<string, nat>, others: map<string, nat>, id: string, first: nat, last: nat) {
    (id in these && first <= these[id] <= last) == (id in others && first <= others[id] <= last)
  }

  method SpanSafe(b: Body, slots: seq<Slot>, start: int, end: int) returns (ok: bool)
    ensures ok <==> Safe(b, slots, start, end)
  {
    if !b.input.Items? || start < 0 || end > |slots| || end <= start { return false; }
    if !slots[start].place.At? || !slots[end - 1].place.At? { return false; }
    var items, first, last := b.input.items, slots[start].place.item, slots[end - 1].place.item;
    if last < first || last >= |items| { return false; }
    var sides, covered := CountCovered(slots, start, end, first, last);
    if !sides { return false; }
    var whole := AllWhole(items, slots, first, last, covered);
    if !whole { return false; }
    ok := PairsKept(items, first, last);
  }

  method AllWhole(items: seq<Item>, slots: seq<Slot>, first: nat, last: nat, covered: map<nat, nat>) returns (ok: bool)
    requires first <= last < |items|
    requires forall i: nat :: first <= i <= last ==> Covered(slots, i, |slots|) == if i in covered then covered[i] else 0
    ensures ok <==> Wholly(items, slots, first, last)
  {
    for i := first to last + 1
      invariant forall k :: first <= k < i ==> WhollyAt(items, slots, k)
    {
      var seen := if i in covered then covered[i] else 0;
      if seen == 0 || Represented(items[i]) != seen {
        assert !WhollyAt(items, slots, i);
        return false;
      }
    }
    return true;
  }

  method PairsKept(items: seq<Item>, first: nat, last: nat) returns (ok: bool)
    ensures ok <==> PairsWhole(items, first, last)
  {
    var calls, outputs := IndexSides(items);
    var a := SameSide(calls, outputs, first, last);
    if !a {
      var id :| id in calls && !OnSameSide(calls, outputs, id, first, last);
      assert !PairWhole(items, id, first, last);
      return false;
    }
    var c := SameSide(outputs, calls, first, last);
    if !c {
      var id :| id in outputs && !OnSameSide(outputs, calls, id, first, last);
      assert !PairWhole(items, id, first, last);
      return false;
    }
    forall id | id != "" ensures PairWhole(items, id, first, last) {
      assert id in calls ==> OnSameSide(calls, outputs, id, first, last);
      assert id in outputs ==> OnSameSide(outputs, calls, id, first, last);
    }
    return true;
  }

  // The items a safe span covers.
  function CutItems(b: Body, slots: seq<Slot>, start: int, end: int): seq<Item>
    requires b.input.Items? && Bounded(b.input.items, slots, start, end)
  {
    b.input.items[slots[start].place.item..slots[end - 1].place.item + 1]
  }

  // responsesSummaryStash.
  method Stash(b: Body, slots: seq<Slot>, start: int, end: int) returns (stash: Option<seq<Item>>)
    ensures stash.Some? <==> Safe(b, slots, start, end)
    ensures stash.Some? ==> stash.value == CutItems(b, slots, start, end)
  {
    var ok := SpanSafe(b, slots, start, end);
    if !ok { return None; }
    var items, first, last := b.input.items, slots[start].place.item, slots[end - 1].place.item;
    var buf := [];
    for i := first to last + 1
      invariant buf == items[first..i]
    {
      buf := buf + [items[i]];
    }
    return Some(buf);
  }
}
