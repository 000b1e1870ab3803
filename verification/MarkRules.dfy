/**
 * Exactly when each host edit acts, and where (apply/breakpoint.go, apply/headttl.go, cheapmodel/anthropic.go):
 * told from the marked places and the blocks of the request alone.
 */
module MarkRules {
  import opened Lists
  import opened Wire
  import opened MarkPlaces
  import opened Breakpoints
  import opened MarkOrder

  // ---- The last mark in messages -----------------------------------------------------------------------------------

  function PlaceOf(p: Pos): Spot {
    if p.bi < 0 then Spot(Messages, p.mi, false) else Spot(BlocksIn(p.mi), p.bi, false)
  }

  predicate InTalk(p: Spot) {
    p.part.Messages? || p.part.BlocksIn?
  }

  // A cache_control mark in messages.
  predicate TalkMark(b: Body, p: Spot) {
    Marked(b, p) && InTalk(p) && !p.point
  }

  lemma {:induction false} LastBlockIsLast(bs: seq<Elem>, n: nat, i: nat)
    requires i < n <= |bs| && FieldOf(bs, i, false).Mark?
    ensures i <= LastMarkedBlock(bs, n)
  {
    if i < n - 1 { LastBlockIsLast(bs, n - 1, i); }
  }

  lemma {:induction false} LastMarkFound(b: Body, n: nat, q: Spot)
    requires n <= |b.messages| && TalkMark(b, q) && InMessages(q, n)
    ensures var p := LastMarkIn(b.messages, n);
      p.Some? && (PlaceOf(p.value) == q || Earlier(q, PlaceOf(p.value)))
  {
    var bs := BlocksOf(b.messages[n - 1]);
    if InMessages(q, n - 1) {
      if LastMarkIn(b.messages, n) == LastMarkIn(b.messages, n - 1) { LastMarkFound(b, n - 1, q); }
    } else if q.part.BlocksIn? {
      LastBlockIsLast(bs, |bs|, q.i);
    }
  }

  // The scan finds the last mark in messages, a message coming before its blocks, and finds one if there is any.
  lemma {:induction false} LastMarkIsLast(b: Body)
    ensures var p := LastMessageMark(b.messages);
      if p.None? then forall q :: !TalkMark(b, q)
      else
        && TalkMark(b, PlaceOf(p.value)) && FieldAt(b, PlaceOf(p.value)) == MarkAt(b.messages, p.value)
        && forall q :: TalkMark(b, q) ==> q == PlaceOf(p.value) || Earlier(q, PlaceOf(p.value))
  {
    forall q | TalkMark(b, q)
      ensures var p := LastMessageMark(b.messages); p.Some? && (q == PlaceOf(p.value) || Earlier(q, PlaceOf(p.value)))
    {
      LastMarkFound(b, |b.messages|, q);
    }
  }

  // ---- How far back it is -------------------------------------------------------------------------------------------

  datatype Cell = Cell(mi: nat, bi: nat)

  // A content block of a message; anything but an array counts as one.
  predicate IsCell(ms: seq<Message>, c: Cell) {
    c.mi < |ms| && c.bi < if ms[c.mi].content.Blocks? then |ms[c.mi].content.bs| else 1
  }

  // It comes after a mark: in a later message, or in the mark's own after the marked block.
  predicate Follows(p: Pos, c: Cell) {
    c.mi > p.mi || (c.mi == p.mi && 0 <= p.bi < c.bi)
  }

  ghost function Row(mi: nat, lo: nat, hi: nat): set<Cell>
    requires lo <= hi
  {
    if lo == hi then {} else Row(mi, lo, hi - 1) + {Cell(mi, hi - 1)}
  }

  lemma {:induction false} RowHas(mi: nat, lo: nat, hi: nat, c: Cell)
    requires lo <= hi
    ensures c in Row(mi, lo, hi) <==> c.mi == mi && lo <= c.bi < hi
  {
    if lo < hi { RowHas(mi, lo, hi - 1, c); }
  }

  lemma {:induction false} RowCount(mi: nat, lo: nat, hi: nat)
    requires lo <= hi
    ensures |Row(mi, lo, hi)| == hi - lo
  {
    if lo < hi {
      RowCount(mi, lo, hi - 1);
      RowHas(mi, lo, hi - 1, Cell(mi, hi - 1));
    }
  }

  ghost function Rows(ms: seq<Message>, lo: nat, n: nat): set<Cell>
    requires lo <= n <= |ms|
  {
    if lo == n then {} else Rows(ms, lo, n - 1) + Row(n - 1, 0, Width(ms[n - 1]))
  }

  lemma {:induction false} RowsHas(ms: seq<Message>, lo: nat, n: nat, c: Cell)
    requires lo <= n <= |ms|
    ensures c in Rows(ms, lo, n) <==> IsCell(ms, c) && lo <= c.mi < n
  {
    if lo < n {
      RowsHas(ms, lo, n - 1, c);
      RowHas(n - 1, 0, Width(ms[n - 1]), c);
    }
  }

  lemma {:induction false} CellsApart(a: set<Cell>, b: set<Cell>)
    requires a !! b
    ensures |a + b| == |a| + |b|
  {
  }

  function WidthsIn(ms: seq<Message>, lo: nat, n: nat): nat
    requires lo <= n <= |ms|
  {
    if lo == n then 0 else WidthsIn(ms, lo, n - 1) + Width(ms[n - 1])
  }

  lemma {:induction false} WidthsAreIn(ms: seq<Message>, lo: nat, n: nat)
    requires lo <= n <= |ms|
    ensures Widths(ms[lo..n]) == WidthsIn(ms, lo, n)
  {
    if lo < n {
      WidthsAreIn(ms, lo, n - 1);
      assert ms[lo..n][..n - lo - 1] == ms[lo..n - 1];
    }
  }

  lemma {:induction false} NextRowApart(ms: seq<Message>, lo: nat, n: nat)
    requires lo <= n < |ms|
    ensures Rows(ms, lo, n) !! Row(n, 0, Width(ms[n]))
  {
    forall c | c in Row(n, 0, Width(ms[n])) ensures c !in Rows(ms, lo, n) {
      RowHas(n, 0, Width(ms[n]), c);
      RowsHas(ms, lo, n, c);
    }
  }

  lemma {:induction false} RowsCount(ms: seq<Message>, lo: nat, n: nat)
    requires lo <= n <= |ms|
    ensures |Rows(ms, lo, n)| == WidthsIn(ms, lo, n)
  {
    if lo < n {
      RowsCount(ms, lo, n - 1);
      RowCount(n - 1, 0, Width(ms[n - 1]));
      NextRowApart(ms, lo, n - 1);
      CellsApart(Rows(ms, lo, n - 1), Row(n - 1, 0, Width(ms[n - 1])));
    }
  }

  ghost function OwnBeyond(ms: seq<Message>, p: Pos): set<Cell>
    requires Valid(ms, p)
  {
    if p.bi < 0 then {} else Row(p.mi, p.bi + 1, |BlocksOf(ms[p.mi])|)
  }

  // The content blocks after a mark.
  ghost function Beyond(ms: seq<Message>, p: Pos): set<Cell>
    requires Valid(ms, p)
  {
    OwnBeyond(ms, p) + Rows(ms, p.mi + 1, |ms|)
  }

  lemma {:induction false} OwnBeyondHas(ms: seq<Message>, p: Pos, c: Cell)
    requires Valid(ms, p)
    ensures c in OwnBeyond(ms, p) <==> IsCell(ms, c) && c.mi == p.mi && 0 <= p.bi < c.bi
    ensures |OwnBeyond(ms, p)| == if p.bi < 0 then 0 else |BlocksOf(ms[p.mi])| - 1 - p.bi
  {
    if p.bi >= 0 {
      RowHas(p.mi, p.bi + 1, |BlocksOf(ms[p.mi])|, c);
      RowCount(p.mi, p.bi + 1, |BlocksOf(ms[p.mi])|);
    }
  }

  lemma {:induction false} LaterCount(ms: seq<Message>, lo: nat)
    requires lo <= |ms|
    ensures |Rows(ms, lo, |ms|)| == Widths(ms[lo..])
  {
    RowsCount(ms, lo, |ms|);
    WidthsAreIn(ms, lo, |ms|);
    assert ms[lo..|ms|] == ms[lo..];
  }

  lemma {:induction false} BeyondHas(ms: seq<Message>, p: Pos, c: Cell)
    requires Valid(ms, p)
    ensures c in Beyond(ms, p) <==> IsCell(ms, c) && Follows(p, c)
    ensures !(c in OwnBeyond(ms, p) && c in Rows(ms, p.mi + 1, |ms|))
  {
    OwnBeyondHas(ms, p, c);
    RowsHas(ms, p.mi + 1, |ms|, c);
  }

  // The distance the lookback is held against is the number of content blocks after the mark.
  lemma {:induction false} BlocksAfterCounts(ms: seq<Message>, p: Pos)
    requires Valid(ms, p)
    ensures BlocksAfter(ms, p) == |Beyond(ms, p)|
    ensures forall c :: c in Beyond(ms, p) <==> IsCell(ms, c) && Follows(p, c)
  {
    LaterCount(ms, p.mi + 1);
    OwnBeyondHas(ms, p, Cell(0, 0));
    forall c ensures c in Beyond(ms, p) <==> IsCell(ms, c) && Follows(p, c) { BeyondHas(ms, p, c); }
    forall c | c in OwnBeyond(ms, p) ensures c !in Rows(ms, p.mi + 1, |ms|) { BeyondHas(ms, p, c); }
    CellsApart(OwnBeyond(ms, p), Rows(ms, p.mi + 1, |ms|));
  }

  // ---- Whether the last block takes a mark ---------------------------------------------------------------------------

  // An unmarked object that is no thinking block and no empty text.
  predicate BlockTakes(e: Elem) {
    && e.Obj? && !e.control.Mark? && !e.point.Mark?
    && e.kind != "thinking" && e.kind != "redacted_thinking"
    && (e.kind == "text" ==> e.text.Some? && e.text.value != "")
  }

  // A message whose end takes a mark: a text, or blocks the last of which does.
  predicate EndTakes(m: Message) {
    match m.content
    case Text(s) => s != ""
    case Blocks(bs) => bs != [] && BlockTakes(bs[|bs| - 1])
    case Other(_) => false
  }

  lemma {:induction false} TargetIs(ms: seq<Message>)
    requires ms != []
    ensures var t := LastBlockTarget(ms);
      && (t.Some? ==> t.value == Pos(|ms| - 1, |BlocksOf(AsBlocks(ms[|ms| - 1]))| - 1))
      && (EndTakes(ms[|ms| - 1]) <==> t.Some? && ElemMarks(BlocksOf(Work(ms)[|ms| - 1])[t.value.bi]) == 0)
  {
  }

  lemma {:induction false} WorkDistance(ms: seq<Message>, p: Pos)
    requires ms != [] && Valid(ms, p)
    ensures Valid(Work(ms), p) && BlocksAfter(Work(ms), p) == BlocksAfter(ms, p)
  {
    var n := |ms| - 1;
    WorkKeeps(ms, p);
    if p.mi < n {
      assert Work(ms)[p.mi + 1..][..n - p.mi - 1] == ms[p.mi + 1..][..n - p.mi - 1];
      assert Work(ms)[p.mi + 1..] != [] && ms[p.mi + 1..] != [];
    } else {
      assert Work(ms)[p.mi + 1..] == ms[p.mi + 1..] == [];
    }
  }

  // ---- When each edit acts -------------------------------------------------------------------------------------------

  /**
   * The follow-up is marked exactly when messages hold a mark, the end of the request takes one, and at most
   * lookbackBlocks content blocks lie after that mark.
   */
  lemma {:induction false} InBandIff(b: Body)
    ensures InBand(b) != b <==>
      && LastMessageMark(b.messages).Some? && EndTakes(b.messages[|b.messages| - 1])
      && |Beyond(b.messages, LastMessageMark(b.messages).value)| <= LOOKBACK_BLOCKS
  {
    var ms := b.messages;
    if LastMessageMark(ms).Some? {
      var from := LastMessageMark(ms).value;
      BlocksAfterCounts(ms, from);
      WorkDistance(ms, from);
      TargetIs(ms);
      WorkKeeps(ms, from);
      if EndTakes(ms[|ms| - 1]) && |Beyond(ms, from)| <= LOOKBACK_BLOCKS { InBandActs(b); }
    }
  }

  lemma {:induction false} InBandActs(b: Body)
    requires var ms := b.messages;
      && LastMessageMark(ms).Some? && EndTakes(ms[|ms| - 1])
      && Valid(Work(ms), LastMessageMark(ms).value) && BlocksAfter(Work(ms), LastMessageMark(ms).value) <= LOOKBACK_BLOCKS
    ensures InBand(b) != b
  {
    var ms := b.messages;
    var from := LastMessageMark(ms).value;
    TargetIs(ms);
    WorkKeeps(ms, from);
    WorkControls(ms);
    MoveWithin(Work(ms), LastBlockTarget(ms).value, MarkAt(ms, from));
  }

  // Where the tail mark would go: the placer's answer on messages whose end is ready for it.
  function TailPlaced(b: Body): Option<Body>
    requires LastMessageMark(b.messages).Some? && LastBlockTarget(b.messages).Some?
  {
    Place(b.(messages := Work(b.messages)), LastBlockTarget(b.messages).value, MarkAt(b.messages, LastMessageMark(b.messages).value), None)
  }

  lemma {:induction false} TailPlacedIff(b: Body)
    requires LastMessageMark(b.messages).Some? && LastBlockTarget(b.messages).Some?
    ensures TailPlaced(b).Some? <==> EndTakes(b.messages[|b.messages| - 1]) && Wire.Breakpoints(b) < MAX_BREAKPOINTS
  {
    TargetIs(b.messages);
    WorkCounts(b.messages);
  }

  lemma {:induction false} MoreControlsDiffer(ms: seq<Message>, now: seq<Message>, c: Control)
    requires MessagesControls(now) == MessagesControls(ms) + [c]
    ensures now != ms
  {
    assert |MessagesControls(now)| == |MessagesControls(ms)| + 1;
  }

  lemma {:induction false} TailPlacedDiffers(b: Body)
    requires LastMessageMark(b.messages).Some? && LastBlockTarget(b.messages).Some? && TailPlaced(b).Some?
    ensures TailPlaced(b).value != b
  {
    var ms := b.messages;
    var target, mark := LastBlockTarget(ms).value, MarkAt(ms, LastMessageMark(ms).value);
    WorkControls(ms);
    SetLastMark(Work(ms), target, mark);
    MoreControlsDiffer(ms, SetAt(Work(ms), target, mark), mark);
  }

  lemma {:induction false} TailIsPlaced(b: Body, after: nat)
    ensures MarkTail(b, after) ==
      if LastMessageMark(b.messages).Some? && LastBlockTarget(b.messages).Some? && after > TAIL_MIN_BYTES then Or(b, TailPlaced(b)) else b
  {
  }

  // What the tail mark asks for, below the cap.
  predicate TailWanted(b: Body, after: nat) {
    LastMessageMark(b.messages).Some? && after > TAIL_MIN_BYTES && EndTakes(b.messages[|b.messages| - 1])
  }

  lemma {:induction false} TailActs(b: Body, after: nat)
    requires LastMessageMark(b.messages).Some? && LastBlockTarget(b.messages).Some? && after > TAIL_MIN_BYTES
    ensures Or(b, TailPlaced(b)) != b <==> TailWanted(b, after) && Wire.Breakpoints(b) < MAX_BREAKPOINTS
  {
    TailPlacedIff(b);
    if TailPlaced(b).Some? { TailPlacedDiffers(b); }
  }

  lemma {:induction false} TailIdle(b: Body, after: nat)
    requires !(LastMessageMark(b.messages).Some? && LastBlockTarget(b.messages).Some? && after > TAIL_MIN_BYTES)
    ensures MarkTail(b, after) == b && !TailWanted(b, after)
  {
    if b.messages != [] { TargetIs(b.messages); }
  }

  lemma {:induction false} TailIffBelowCap(b: Body, after: nat)
    ensures MarkTail(b, after) != b <==> TailWanted(b, after) && Wire.Breakpoints(b) < MAX_BREAKPOINTS
  {
    if LastMessageMark(b.messages).Some? && LastBlockTarget(b.messages).Some? && after > TAIL_MIN_BYTES {
      TailIsPlaced(b, after);
      TailActs(b, after);
    } else {
      TailIdle(b, after);
    }
  }

  // The tail mark is added exactly when messages hold a mark, more than tailMinBytes follow it, the end of the
  // request takes one, and fewer than four places are marked.
  lemma {:induction false} TailIff(b: Body, after: nat)
    ensures MarkTail(b, after) != b <==> TailWanted(b, after) && |MarkSet(b)| < MAX_BREAKPOINTS
  {
    TailIffBelowCap(b, after);
    BreakpointsArePlaces(b);
  }

  // A tool_result of that call.
  predicate IsResult(ms: seq<Message>, mi: nat, bi: nat, toolID: string) {
    && mi < |ms| && ms[mi].content.Blocks? && bi < |ms[mi].content.bs|
    && var e := ms[mi].content.bs[bi]; e.Obj? && e.kind == "tool_result" && e.toolID == toolID
  }

  lemma {:induction false} FirstResult(bs: seq<Elem>, toolID: string, i: nat)
    requires i < |bs| && bs[i].Obj? && bs[i].kind == "tool_result" && bs[i].toolID == toolID
    ensures 0 <= AnchorBlock(bs, toolID) <= i
  {
    if i < |bs| - 1 { FirstResult(bs[..|bs| - 1], toolID, i); }
  }

  // The anchor goes to the first tool_result of the call in the last message that has one.
  lemma {:induction false} AnchorTargetIs(ms: seq<Message>, toolID: string, mi: nat, bi: nat)
    ensures var p := AnchorTarget(ms, toolID);
      && (p.Some? ==> IsResult(ms, p.value.mi, p.value.bi, toolID))
      && (IsResult(ms, mi, bi, toolID) ==> p.Some? && (mi < p.value.mi || (mi == p.value.mi && p.value.bi <= bi)))
  {
    if ms != [] {
      var n := |ms| - 1;
      AnchorTargetIs(ms[..n], toolID, mi, bi);
      if IsResult(ms, mi, bi, toolID) {
        if mi == n { FirstResult(BlocksOf(ms[n]), toolID, bi); } else { assert IsResult(ms[..n], mi, bi, toolID); }
      }
    }
  }

  lemma {:induction false} AnchorActs(b: Body, p: Pos, c: Control)
    requires Valid(b.messages, p) && p.bi >= 0 && c.Mark? && ElemMarks(BlocksOf(b.messages[p.mi])[p.bi]) == 0
    ensures b.(messages := SetAt(b.messages, p, c)) != b
  {
    assert BlocksOf(SetAt(b.messages, p, c)[p.mi])[p.bi].control == c;
  }

  lemma {:induction false} BlockUnmarked(b: Body, p: Pos)
    requires Valid(b.messages, p) && p.bi >= 0
    ensures ElemMarks(BlocksOf(b.messages[p.mi])[p.bi]) == 0 <==>
      !Marked(b, Spot(BlocksIn(p.mi), p.bi, false)) && !Marked(b, Spot(BlocksIn(p.mi), p.bi, true))
  {
  }

  // It is written exactly when the call has a tool_result, that block carries no mark, and fewer than four places do.
  lemma {:induction false} AnchorIff(b: Body, toolID: string)
    ensures Anchor(b, toolID) != b <==>
      && toolID != "" && AnchorTarget(b.messages, toolID).Some? && |MarkSet(b)| < MAX_BREAKPOINTS
      && var p := AnchorTarget(b.messages, toolID).value;
         !Marked(b, Spot(BlocksIn(p.mi), p.bi, false)) && !Marked(b, Spot(BlocksIn(p.mi), p.bi, true))
  {
    BreakpointsArePlaces(b);
    var target := AnchorTarget(b.messages, toolID);
    if toolID != "" && target.Some? {
      BlockUnmarked(b, target.value);
      if ElemMarks(BlocksOf(b.messages[target.value.mi])[target.value.bi]) == 0 { AnchorActs(b, target.value, Mark("", "ephemeral")); }
    }
  }

  // ---- The head and the ask -------------------------------------------------------------------------------------------

  // The head upgrade gives every cache_control mark in tools and system the hour, and touches no other field.
  lemma {:induction false} HeadIs(b: Body, p: Spot)
    ensures var out := HeadTTL(b);
      && out.messages == b.messages && |out.tools| == |b.tools| && |out.system| == |b.system|
      && FieldAt(out, p) == if (p.part.Tools? || p.part.System?) && !p.point && Marked(b, p) then FieldAt(b, p).(ttl := "1h") else FieldAt(b, p)
  {
    if p.part.Tools? && p.i < |b.tools| { HeadOnlyLengthens(b.tools, p.i); }
    if p.part.System? && p.i < |b.system| { HeadOnlyLengthens(b.system, p.i); }
  }

  // A message carries a cache_control field, whatever it holds: its own, or the last of its blocks'.
  ghost predicate CarriesField(m: Message, c: Control) {
    if m.control != Absent then c == m.control
    else exists i :: 0 <= i < |BlocksOf(m)| && c != Absent && c == FieldOf(BlocksOf(m), i, false)
           && forall j :: i < j < |BlocksOf(m)| ==> FieldOf(BlocksOf(m), j, false) == Absent
  }

  lemma {:induction false} LastFieldIs(bs: seq<Elem>)
    ensures LastField(bs) == Absent ==> forall i: nat :: FieldOf(bs, i, false) == Absent
    ensures LastField(bs) != Absent ==>
      exists i :: 0 <= i < |bs| && FieldOf(bs, i, false) == LastField(bs) && forall j: nat :: i < j ==> FieldOf(bs, j, false) == Absent
  {
    if bs != [] {
      var n := |bs| - 1;
      LastFieldIs(bs[..n]);
      assert forall j: nat :: j < n ==> FieldOf(bs, j, false) == FieldOf(bs[..n], j, false);
      if FieldOf(bs, n, false) == Absent {
        if LastField(bs[..n]) != Absent {
          var i :| 0 <= i < n && FieldOf(bs[..n], i, false) == LastField(bs[..n]) && forall j: nat :: i < j ==> FieldOf(bs[..n], j, false) == Absent;
          assert FieldOf(bs, i, false) == LastField(bs);
        }
      } else {
        assert FieldOf(bs, n, false) == LastField(bs);
      }
    }
  }

  lemma {:induction false} LastBreakpointIs(m: Message)
    ensures if LastBreakpoint(m) == Absent then forall c :: c != Absent ==> !CarriesField(m, c)
            else CarriesField(m, LastBreakpoint(m))
  {
    LastFieldIs(BlocksOf(m));
  }

  /**
   * The ask goes out after an assistant's "Understood." exactly when the last message is a system message, or a
   * user message that carries a cache_control; the field is copied onto that turn while fewer than four places
   * are marked, and never onto the ask.
   */
  lemma {:induction false} AskIs(b: Body, text: string)
    ensures var n, out := |b.messages|, Asked(b, text);
      && out.tools == b.tools && out.system == b.system && out.messages != []
      && out.messages[|out.messages| - 1] == Message("user", Text(text), Absent, "")
      && var mid := out.messages[..|out.messages| - 1];
         if n > 0 && (b.messages[n - 1].role == "system"
                      || (b.messages[n - 1].role == "user" && LastBreakpoint(b.messages[n - 1]) != Absent))
         then
           var c := LastBreakpoint(b.messages[n - 1]);
           mid == b.messages + [if c == Absent || |MarkSet(b)| >= MAX_BREAKPOINTS
                                then Message("assistant", Text("Understood."), Absent, "")
                                else Message("assistant", Blocks([Obj("text", Some("Understood."), c, Absent, "", "")]), Absent, "")]
         else mid == b.messages
  {
    BreakpointsArePlaces(b);
  }
}
