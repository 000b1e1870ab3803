/**
 * Every breakpoint the host adds or moves: the splice anchor, the in-band move and the tail mark
 * (apply/breakpoint.go), the one-hour head (apply/headttl.go) and the appended ask
 * (cheapmodel/anthropic.go).
 */
module Breakpoints {
  import opened Lists
  import opened Wire
  import opened MarkPlaces
  import SystemSplit

  // A block of a message, or (bi == -1) the message itself.
  datatype Pos = Pos(mi: nat, bi: int)

  predicate Valid(ms: seq<Message>, p: Pos) {
    && p.mi < |ms|
    && -1 <= p.bi < |BlocksOf(ms[p.mi])|
    && (p.bi >= 0 ==> BlocksOf(ms[p.mi])[p.bi].Obj?)
  }

  function MarkAt(ms: seq<Message>, p: Pos): Control
    requires Valid(ms, p)
  {
    if p.bi < 0 then ms[p.mi].control else BlocksOf(ms[p.mi])[p.bi].control
  }

  function WithControl(m: Message, bi: int, c: Control): Message
    requires -1 <= bi < |BlocksOf(m)| && (bi >= 0 ==> BlocksOf(m)[bi].Obj?)
  {
    if bi < 0 then m.(control := c) else m.(content := Blocks(BlocksOf(m)[bi := BlocksOf(m)[bi].(control := c)]))
  }

  function SetAt(ms: seq<Message>, p: Pos, c: Control): (out: seq<Message>)
    requires Valid(ms, p)
    ensures |out| == |ms|
  {
    ms[p.mi := WithControl(ms[p.mi], p.bi, c)]
  }

  // ---- lastMessageMark and blocksAfter ------------------------------------------------------------

  function LastMarkedBlock(bs: seq<Elem>, n: nat): (bi: int)
    requires n <= |bs|
    ensures -1 <= bi < n
    ensures bi >= 0 ==> bs[bi].Obj? && bs[bi].control.Mark?
  {
    if n == 0 then -1 else if ControlOf(bs[n - 1]) != [] then n - 1 else LastMarkedBlock(bs, n - 1)
  }

  // The last block mark of a message, or -1 where it has none.
  function LastBlockMark(m: Message): (bi: int)
    ensures -1 <= bi < |BlocksOf(m)|
    ensures bi >= 0 ==> BlocksOf(m)[bi].Obj? && BlocksOf(m)[bi].control.Mark?
  {
    LastMarkedBlock(BlocksOf(m), |BlocksOf(m)|)
  }

  function LastMarkIn(ms: seq<Message>, n: nat): (p: Option<Pos>)
    requires n <= |ms|
    ensures p.Some? ==> p.value.mi < n && Valid(ms, p.value) && MarkAt(ms, p.value).Mark?
  {
    if n == 0 then None
    else
      var bi := LastBlockMark(ms[n - 1]);
      if bi >= 0 || ms[n - 1].control.Mark? then Some(Pos(n - 1, bi)) else LastMarkIn(ms, n - 1)
  }

  function LastMessageMark(ms: seq<Message>): (p: Option<Pos>)
    ensures p.Some? ==> Valid(ms, p.value) && MarkAt(ms, p.value).Mark?
  {
    LastMarkIn(ms, |ms|)
  }

  method FindLastMessageMark(ms: seq<Message>) returns (p: Option<Pos>)
    ensures p == LastMessageMark(ms)
  {
    for mi := |ms| downto 0
      invariant LastMarkIn(ms, mi) == LastMessageMark(ms)
    {
      var bs := BlocksOf(ms[mi]);
      for bi := |bs| downto 0
        invariant LastMarkedBlock(bs, bi) == LastBlockMark(ms[mi])
      {
        if bs[bi].Obj? && bs[bi].control.Mark? { return Some(Pos(mi, bi)); }
      }
      if ms[mi].control.Mark? { return Some(Pos(mi, -1)); }
    }
    return None;
  }

  function Width(m: Message): nat {
    if m.content.Blocks? then |m.content.bs| else 1
  }

  function Widths(ms: seq<Message>): nat {
    if ms == [] then 0 else Widths(ms[..|ms| - 1]) + Width(ms[|ms| - 1])
  }

  // The content blocks after a mark, up to the end.
  function BlocksAfter(ms: seq<Message>, p: Pos): int
    requires Valid(ms, p)
  {
    (if p.bi < 0 then 0 else |BlocksOf(ms[p.mi])| - 1 - p.bi) + Widths(ms[p.mi + 1..])
  }

  // ---- The placer ---------------------------------------------------------------------------------

  // A string content becomes the one text block it means.
  function AsBlocks(m: Message): Message {
    if m.content.Text? && m.content.s != ""
    then m.(content := Blocks([Obj("text", Some(m.content.s), Absent, Absent, "", "")]))
    else m
  }

  function Work(ms: seq<Message>): (out: seq<Message>)
    requires ms != []
    ensures |out| == |ms|
  {
    ms[|ms| - 1 := AsBlocks(ms[|ms| - 1])]
  }

  lemma {:induction false} WorkKeeps(ms: seq<Message>, p: Pos)
    requires ms != [] && Valid(ms, p)
    ensures Valid(Work(ms), p) && MarkAt(Work(ms), p) == MarkAt(ms, p)
  {
  }

  // lastBlockTarget: the last block of the last message, if it can take a mark.
  function LastBlockTarget(ms: seq<Message>): (p: Option<Pos>)
    requires ms != []
    ensures p.Some? ==> Valid(Work(ms), p.value) && p.value.mi == |ms| - 1
    ensures p.Some? ==> p.value.bi == |BlocksOf(Work(ms)[|ms| - 1])| - 1 >= 0
  {
    var bs := BlocksOf(AsBlocks(ms[|ms| - 1]));
    if bs == [] then None
    else
      var e := bs[|bs| - 1];
      if e.Bare? || e.kind == "thinking" || e.kind == "redacted_thinking" then None
      else if e.kind == "text" && SystemSplit.TextOf(e) == "" then None
      else Some(Pos(|ms| - 1, |bs| - 1))
  }

  // placeBreakpoint: None where the mark was not placed. from is the mark a move removes.
  function Place(b: Body, target: Pos, mark: Control, from: Option<Pos>): Option<Body>
    requires Valid(b.messages, target) && target.bi >= 0
    requires from.Some? ==> Valid(b.messages, from.value) && from.value != target
  {
    if ElemMarks(BlocksOf(b.messages[target.mi])[target.bi]) > 0 then None
    else if from.None? && Wire.Breakpoints(b) >= MAX_BREAKPOINTS then None
    else
      var kept := if from.Some? then SetAt(b.messages, from.value, Absent) else b.messages;
      Some(b.(messages := SetAt(kept, target, mark)))
  }

  // ---- The host's edits ---------------------------------------------------------------------------

  function AnchorBlock(bs: seq<Elem>, toolID: string): (bi: int)
    ensures -1 <= bi < |bs|
    ensures bi >= 0 ==> bs[bi].Obj? && bs[bi].kind == "tool_result" && bs[bi].toolID == toolID
  {
    if bs == [] then -1
    else
      var before := AnchorBlock(bs[..|bs| - 1], toolID);
      if before >= 0 then before
      else if bs[|bs| - 1].Obj? && bs[|bs| - 1].kind == "tool_result" && bs[|bs| - 1].toolID == toolID then |bs| - 1
      else -1
  }

  // The first tool_result of that id in the last message that has one.
  function AnchorTarget(ms: seq<Message>, toolID: string): (p: Option<Pos>)
    ensures p.Some? ==> Valid(ms, p.value) && p.value.bi >= 0
  {
    if ms == [] then None
    else
      var bi := AnchorBlock(BlocksOf(ms[|ms| - 1]), toolID);
      if bi >= 0 then Some(Pos(|ms| - 1, bi)) else AnchorTarget(ms[..|ms| - 1], toolID)
  }

  function Or(b: Body, placed: Option<Body>): Body {
    if placed.Some? then placed.value else b
  }

  function Anchor(b: Body, toolID: string): Body {
    var p := AnchorTarget(b.messages, toolID);
    if toolID == "" || p.None? then b else Or(b, Place(b, p.value, Mark("", "ephemeral"), None))
  }

  function InBand(b: Body): Body {
    var ms := b.messages;
    var from := LastMessageMark(ms);
    if ms == [] || from.None? then b
    else
      var target := LastBlockTarget(ms);
      WorkKeeps(ms, from.value);
      if target.None? || from == target then b
      else if BlocksAfter(Work(ms), from.value) > LOOKBACK_BLOCKS then b
      else Or(b, Place(b.(messages := Work(ms)), target.value, MarkAt(ms, from.value), from))
  }

  // markTail. after is the JSON size of what follows the client's last mark.
  const TAIL_MIN_BYTES: nat := 4096

  function MarkTail(b: Body, after: nat): Body {
    var ms := b.messages;
    var from := LastMessageMark(ms);
    if ms == [] || from.None? || after <= TAIL_MIN_BYTES then b
    else
      var target := LastBlockTarget(ms);
      if target.None? then b
      else Or(b, Place(b.(messages := Work(ms)), target.value, MarkAt(ms, from.value), None))
  }

  function OneHourElem(e: Elem): Elem {
    if e.Obj? && e.control.Mark? then e.(control := e.control.(ttl := "1h")) else e
  }

  function OneHourAll(es: seq<Elem>): (out: seq<Elem>)
    ensures |out| == |es|
  {
    if es == [] then [] else OneHourAll(es[..|es| - 1]) + [OneHourElem(es[|es| - 1])]
  }

  // upgradeHeadTTL's loops over one array.
  method UpgradeArray(es: seq<Elem>) returns (out: seq<Elem>, upgraded: bool)
    ensures out == OneHourAll(es)
    ensures !upgraded ==> out == es
    ensures upgraded <==> ArrayControls(es) != []
  {
    out, upgraded := [], false;
    assert es[..|es|] == es;
    for i := 0 to |es|
      invariant out == OneHourAll(es[..i])
      invariant !upgraded ==> out == es[..i]
      invariant upgraded <==> Gather(ControlOf, es, 0, i) != []
    {
      assert es[..i + 1][..i] == es[..i];
      if es[i].Obj? && es[i].control.Mark? {
        out := out + [if es[i].control.ttl == "1h" then es[i] else es[i].(control := es[i].control.(ttl := "1h"))];
        upgraded := true;
      } else {
        out := out + [es[i]];
      }
    }
  }

  function HeadTTL(b: Body): Body {
    b.(tools := OneHourAll(b.tools), system := OneHourAll(b.system))
  }

  // lastBreakpoint: the field itself, whatever it holds.
  function LastField(bs: seq<Elem>): Control {
    if bs == [] then Absent
    else if bs[|bs| - 1].Obj? && bs[|bs| - 1].control != Absent then bs[|bs| - 1].control
    else LastField(bs[..|bs| - 1])
  }

  function LastBreakpoint(m: Message): Control {
    if m.control != Absent then m.control else LastField(BlocksOf(m))
  }

  function Appended(role: string, text: string, cc: Control): Message {
    if cc == Absent then Message(role, Text(text), Absent, "")
    else Message(role, Blocks([Obj("text", Some(text), cc, Absent, "", "")]), Absent, "")
  }

  const ASK_BRIDGE: string := "Understood."

  function Bridge(b: Body): seq<Message> {
    if b.messages == [] then []
    else
      var last := b.messages[|b.messages| - 1];
      var cc := if last.role == "system" || last.role == "user" then LastBreakpoint(last) else Absent;
      var copied := if Wire.Breakpoints(b) >= MAX_BREAKPOINTS then Absent else cc;
      if last.role == "system" || (last.role == "user" && cc != Absent)
      then [Appended("assistant", ASK_BRIDGE, copied)] else []
  }

  // insertAskMessage appends to the messages one by one.
  method InsertAsk(b: Body, ask: string) returns (out: Body)
    ensures out == Asked(b, ask)
  {
    var parts := b.messages;
    var bridge := Bridge(b);
    if bridge != [] { parts := parts + [bridge[0]]; }
    parts := parts + [Appended("user", ask, Absent)];
    Assoc(b.messages, bridge, [Appended("user", ask, Absent)]);
    return b.(messages := parts);
  }

  function Asked(b: Body, ask: string): Body {
    b.(messages := b.messages + Bridge(b) + [Appended("user", ask, Absent)])
  }

  // ---- The cap --------------------------------------------------------------------------------------

  lemma {:induction false} SetCounts(ms: seq<Message>, p: Pos, c: Control)
    requires Valid(ms, p)
    ensures MessagesMarks(SetAt(ms, p, c)) + One(MarkAt(ms, p)) == MessagesMarks(ms) + One(c)
  {
    var m := ms[p.mi];
    MessagesMarksUpdate(ms, p.mi, WithControl(m, p.bi, c));
    if p.bi >= 0 { ArrayMarksUpdate(BlocksOf(m), p.bi, BlocksOf(m)[p.bi].(control := c)); }
  }

  lemma {:induction false} WorkCounts(ms: seq<Message>)
    requires ms != []
    ensures MessagesMarks(Work(ms)) == MessagesMarks(ms)
  {
    var m := ms[|ms| - 1];
    MessagesMarksUpdate(ms, |ms| - 1, AsBlocks(m));
    if AsBlocks(m) != m { SystemSplit.OfOne(BlocksOf(AsBlocks(m))[0]); }
  }

  // Placing a mark moves one, or adds one below the cap.
  lemma {:induction false} PlaceCounts(b: Body, target: Pos, mark: Control, from: Option<Pos>)
    requires Valid(b.messages, target) && target.bi >= 0 && mark.Mark?
    requires from.Some? ==> Valid(b.messages, from.value) && from.value != target && MarkAt(b.messages, from.value).Mark?
    ensures var out := Place(b, target, mark, from);
      out.Some? ==> Wire.Breakpoints(out.value) == Wire.Breakpoints(b) + (if from.Some? then 0 else 1)
    ensures from.None? && Place(b, target, mark, from).Some? ==> Wire.Breakpoints(b) < MAX_BREAKPOINTS
  {
    if from.Some? {
      SetCounts(b.messages, from.value, Absent);
      SetCounts(SetAt(b.messages, from.value, Absent), target, mark);
    } else {
      SetCounts(b.messages, target, mark);
    }
  }

  lemma {:induction false} OneHourCounts(es: seq<Elem>)
    ensures ArrayMarks(OneHourAll(es)) == ArrayMarks(es)
  {
    if es != [] {
      OneHourCounts(es[..|es| - 1]);
      assert OneHourAll(es)[..|es| - 1] == OneHourAll(es[..|es| - 1]);
    }
  }

  // The edits the host may make, in any order and number. Follow is content the host appends itself,
  // such as an answered tool call; it carries no mark.
  datatype Edit =
    | Split(rule: SystemSplit.Rule)
    | Head
    | AnchorOn(toolID: string)
    | Move
    | Tail(after: nat)
    | Ask(text: string)
    | Follow(ms: seq<Message>)

  function Apply(b: Body, e: Edit): Body {
    match e
    case Split(rule) => b.(system := SystemSplit.Split(rule, b.system))
    case Head => HeadTTL(b)
    case AnchorOn(toolID) => Anchor(b, toolID)
    case Move => InBand(b)
    case Tail(after) => MarkTail(b, after)
    case Ask(text) => Asked(b, text)
    case Follow(ms) => b.(messages := b.messages + ms)
  }

  function Run(b: Body, edits: seq<Edit>): Body {
    if edits == [] then b else Apply(Run(b, edits[..|edits| - 1]), edits[|edits| - 1])
  }

  ghost predicate FollowsUnmarked(edits: seq<Edit>) {
    forall i :: 0 <= i < |edits| && edits[i].Follow? ==> forall p :: !Marked(Body([], [], edits[i].ms), p)
  }

  lemma {:induction false} AskCounts(b: Body, text: string)
    ensures Wire.Breakpoints(Asked(b, text)) <= if Wire.Breakpoints(b) < MAX_BREAKPOINTS then Wire.Breakpoints(b) + 1 else Wire.Breakpoints(b)
  {
    var ask := Appended("user", text, Absent);
    MessagesMarksConcat(b.messages + Bridge(b), [ask]);
    MessagesMarksConcat(b.messages, Bridge(b));
    OfMessage(ask);
    if Bridge(b) != [] { OfMessage(Bridge(b)[0]); }
  }

  lemma {:induction false} OfMessage(m: Message)
    ensures MessagesMarks([m]) == MessageMarks(m)
    ensures |BlocksOf(m)| == 1 ==> ArrayMarks(BlocksOf(m)) == ElemMarks(BlocksOf(m)[0])
  {
    var one := [m];
    assert one[..0] == [];
    if |BlocksOf(m)| == 1 {
      SystemSplit.OfOne(BlocksOf(m)[0]);
      assert BlocksOf(m) == [BlocksOf(m)[0]];
    }
  }

  lemma {:induction false} ApplyWithinCap(b: Body, e: Edit)
    requires e.Follow? ==> MessagesMarks(e.ms) == 0
    ensures Wire.Breakpoints(Apply(b, e)) <= if Wire.Breakpoints(b) < MAX_BREAKPOINTS then MAX_BREAKPOINTS else Wire.Breakpoints(b)
  {
    match e
    case Split(rule) => SystemSplit.SplitKeepsAll(rule, b.system);
    case Head => OneHourCounts(b.tools); OneHourCounts(b.system);
    case AnchorOn(toolID) =>
      var p := AnchorTarget(b.messages, toolID);
      if p.Some? { PlaceCounts(b, p.value, Mark("", "ephemeral"), None); }
    case Move => MoveCounts(b);
    case Tail(after) =>
      if b.messages != [] && LastMessageMark(b.messages).Some? && LastBlockTarget(b.messages).Some? {
        WorkCounts(b.messages);
        PlaceCounts(b.(messages := Work(b.messages)), LastBlockTarget(b.messages).value,
                    MarkAt(b.messages, LastMessageMark(b.messages).value), None);
      }
    case Ask(text) => AskCounts(b, text);
    case Follow(ms) => MessagesMarksConcat(b.messages, ms);
  }

  lemma {:induction false} MoveCounts(b: Body)
    ensures Wire.Breakpoints(InBand(b)) == Wire.Breakpoints(b)
  {
    var ms := b.messages;
    var from := LastMessageMark(ms);
    if ms != [] && from.Some? && LastBlockTarget(ms).Some? && from != LastBlockTarget(ms) {
      WorkKeeps(ms, from.value);
      WorkCounts(ms);
      PlaceCounts(b.(messages := Work(ms)), LastBlockTarget(ms).value, MarkAt(ms, from.value), from);
    }
  }

  lemma {:induction false} UnmarkedCounts(ms: seq<Message>)
    requires forall p :: !Marked(Body([], [], ms), p)
    ensures MessagesMarks(ms) == 0
  {
    var b := Body([], [], ms);
    BreakpointsArePlaces(b);
    assert MarkSet(b) == {};
  }

  lemma {:induction false} CountNeverOverTheCap(b: Body, edits: seq<Edit>)
    requires FollowsUnmarked(edits)
    ensures Wire.Breakpoints(Run(b, edits)) <= MAX_BREAKPOINTS || Wire.Breakpoints(Run(b, edits)) <= Wire.Breakpoints(b)
  {
    if edits != [] {
      var init, e := edits[..|edits| - 1], edits[|edits| - 1];
      CountNeverOverTheCap(b, init);
      if e.Follow? { UnmarkedCounts(e.ms); }
      ApplyWithinCap(Run(b, init), e);
    }
  }

  /**
   * Whatever the host does and however often, the request never carries breakpoints at more places, over
   * tools, system, messages and blocks, than the provider's four, or than the client itself sent.
   */
  lemma {:induction false} NeverOverTheCap(b: Body, edits: seq<Edit>)
    requires FollowsUnmarked(edits)
    ensures |MarkSet(Run(b, edits))| <= MAX_BREAKPOINTS || |MarkSet(Run(b, edits))| <= |MarkSet(b)|
    ensures forall p :: p in MarkSet(Run(b, edits)) <==> Marked(Run(b, edits), p)
  {
    CountNeverOverTheCap(b, edits);
    BreakpointsArePlaces(b);
    BreakpointsArePlaces(Run(b, edits));
  }

  // The ask leaves every message it was given in place, and a trailing system message is followed by an
  // assistant turn, as the provider requires.
  lemma {:induction false} AskKeepsPrefix(b: Body, text: string)
    ensures var out, n := Asked(b, text).messages, |b.messages|;
      && n < |out| <= n + 2
      && out[..n] == b.messages
      && out[|out| - 1] == Appended("user", text, Absent)
      && (n > 0 && out[n - 1].role == "system" ==> out[n].role == "assistant")
  {
  }
}
