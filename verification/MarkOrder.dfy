/**
 * What the host's edits do to the breakpoints already there: the in-band move
 * (apply/breakpoint.go) keeps every mark's value and order over any number of rounds, and the
 * provider's "one-hour marks before five-minute marks" survives every edit but the splice anchor.
 */
module MarkOrder {
  import opened Lists
  import opened Wire
  import opened MarkPlaces
  import opened Breakpoints
  import SystemSplit

  // ---- The marks around a position ------------------------------------------------------------------

  function Listed(c: Control): seq<Control> {
    if c.Mark? then [c] else []
  }

  // A message's marks before one of its blocks (or itself), and after it.
  function HeadOf(m: Message, bi: int): seq<Control>
    requires -1 <= bi < |BlocksOf(m)|
  {
    if bi < 0 then [] else Listed(m.control) + Gather(ControlOf, BlocksOf(m), 0, bi)
  }

  function TailOf(m: Message, bi: int): seq<Control>
    requires -1 <= bi < |BlocksOf(m)|
  {
    Gather(ControlOf, BlocksOf(m), bi + 1, |BlocksOf(m)|)
  }

  // The marks that come before a position and those that come after it, in the provider's order.
  function Before(ms: seq<Message>, p: Pos): seq<Control>
    requires Valid(ms, p)
  {
    Gather(MessageControls, ms, 0, p.mi) + HeadOf(ms[p.mi], p.bi)
  }

  function After(ms: seq<Message>, p: Pos): seq<Control>
    requires Valid(ms, p)
  {
    TailOf(ms[p.mi], p.bi) + Gather(MessageControls, ms, p.mi + 1, |ms|)
  }

  lemma {:induction false} MessageAround(m: Message, bi: int, c: Control)
    requires -1 <= bi < |BlocksOf(m)| && (bi >= 0 ==> BlocksOf(m)[bi].Obj?)
    ensures MessageControls(WithControl(m, bi, c)) == HeadOf(m, bi) + Listed(c) + TailOf(m, bi)
  {
    var bs := BlocksOf(m);
    if bi >= 0 {
      GatherAround(ControlOf, bs, bi, bs[bi].(control := c));
      FourParts(Listed(m.control), Gather(ControlOf, bs, 0, bi), Listed(c), TailOf(m, bi));
    } else {
      assert [] + Listed(c) == Listed(c);
    }
  }

  lemma {:induction false} MessagesAround(ms: seq<Message>, i: nat, m: Message, h: seq<Control>, l: seq<Control>, t: seq<Control>)
    requires i < |ms| && MessageControls(m) == h + l + t
    ensures MessagesControls(ms[i := m])
         == Gather(MessageControls, ms, 0, i) + h + l + (t + Gather(MessageControls, ms, i + 1, |ms|))
  {
    GatherAround(MessageControls, ms, i, m);
    FiveParts(Gather(MessageControls, ms, 0, i), h, l, t, Gather(MessageControls, ms, i + 1, |ms|));
  }

  // Writing a control puts it, and nothing else, between the marks before it and those after it.
  lemma {:induction false} SetLists(ms: seq<Message>, p: Pos, c: Control)
    requires Valid(ms, p)
    ensures MessagesControls(SetAt(ms, p, c)) == Before(ms, p) + Listed(c) + After(ms, p)
  {
    MessageAround(ms[p.mi], p.bi, c);
    MessagesAround(ms, p.mi, WithControl(ms[p.mi], p.bi, c), HeadOf(ms[p.mi], p.bi), Listed(c), TailOf(ms[p.mi], p.bi));
  }

  lemma {:induction false} OwnLists(ms: seq<Message>, p: Pos)
    requires Valid(ms, p)
    ensures MessagesControls(ms) == Before(ms, p) + Listed(MarkAt(ms, p)) + After(ms, p)
  {
    SetLists(ms, p, MarkAt(ms, p));
    var m := ms[p.mi];
    assert p.bi >= 0 ==> BlocksOf(m)[p.bi := BlocksOf(m)[p.bi]] == BlocksOf(m);
    assert SetAt(ms, p, MarkAt(ms, p)) == ms;
  }

  // ---- The last mark --------------------------------------------------------------------------------

  lemma {:induction false} PastLastBlock(bs: seq<Elem>, n: nat, i: nat)
    requires i < n <= |bs| && LastMarkedBlock(bs, n) < i
    ensures ControlOf(bs[i]) == []
  {
    if i < n - 1 { PastLastBlock(bs, n - 1, i); }
  }

  lemma {:induction false} NothingAfterBlock(m: Message)
    ensures TailOf(m, LastBlockMark(m)) == []
  {
    var bs := BlocksOf(m);
    forall i | LastBlockMark(m) < i < |bs| ensures ControlOf(bs[i]) == [] { PastLastBlock(bs, |bs|, i); }
    NothingListed(ControlOf, bs, LastBlockMark(m) + 1, |bs|);
  }

  lemma {:induction false} PastLastMessage(ms: seq<Message>, n: nat, i: nat)
    requires i < n <= |ms| && (LastMarkIn(ms, n).None? || LastMarkIn(ms, n).value.mi < i)
    ensures LastBlockMark(ms[i]) < 0 && !ms[i].control.Mark?
  {
    if i < n - 1 { PastLastMessage(ms, n - 1, i); }
  }

  lemma {:induction false} LastMarkBlock(ms: seq<Message>, n: nat, p: Pos)
    requires n <= |ms| && LastMarkIn(ms, n) == Some(p)
    ensures p.mi < n && p.bi == LastBlockMark(ms[p.mi])
  {
    if p.mi < n - 1 { LastMarkBlock(ms, n - 1, p); }
  }

  lemma {:induction false} NoMarkInMessage(m: Message)
    requires LastBlockMark(m) < 0 && !m.control.Mark?
    ensures MessageControls(m) == []
  {
    NothingAfterBlock(m);
  }

  lemma {:induction false} EmptyAfter(ms: seq<Message>, p: Pos)
    requires Valid(ms, p) && p.bi == LastBlockMark(ms[p.mi]) && Gather(MessageControls, ms, p.mi + 1, |ms|) == []
    ensures After(ms, p) == []
  {
    NothingAfterBlock(ms[p.mi]);
  }

  lemma {:induction false} LaterMessageUnmarked(ms: seq<Message>, mi: nat, i: nat)
    requires LastMarkIn(ms, |ms|).Some? && LastMarkIn(ms, |ms|).value.mi == mi && mi < i < |ms|
    ensures MessageControls(ms[i]) == []
  {
    PastLastMessage(ms, |ms|, i);
    NoMarkInMessage(ms[i]);
  }

  lemma {:induction false} NothingInLaterMessages(ms: seq<Message>, mi: nat)
    requires LastMarkIn(ms, |ms|).Some? && LastMarkIn(ms, |ms|).value.mi == mi
    ensures Gather(MessageControls, ms, mi + 1, |ms|) == []
  {
    forall i | mi < i < |ms| ensures MessageControls(ms[i]) == [] { LaterMessageUnmarked(ms, mi, i); }
    NothingListed(MessageControls, ms, mi + 1, |ms|);
  }

  lemma {:induction false} NothingAfterMark(ms: seq<Message>, p: Pos)
    requires LastMarkIn(ms, |ms|) == Some(p)
    ensures Valid(ms, p) && After(ms, p) == []
  {
    assert p.bi == LastBlockMark(ms[p.mi]) by { LastMarkBlock(ms, |ms|, p); }
    assert After(ms, p) == [] by {
      NothingInLaterMessages(ms, p.mi);
      EmptyAfter(ms, p);
    }
  }

  // Taking the last mark away takes the last control off the list.
  lemma {:induction false} DropLastMark(ms: seq<Message>)
    requires LastMessageMark(ms).Some?
    ensures var p := LastMessageMark(ms).value;
      MessagesControls(ms) == MessagesControls(SetAt(ms, p, Absent)) + [MarkAt(ms, p)]
  {
    var p := LastMessageMark(ms).value;
    OwnLists(ms, p);
    SetLists(ms, p, Absent);
    NothingAfterMark(ms, p);
  }

  // A mark on the last block of the last message is the last of all.
  lemma {:induction false} SetLastMark(ms: seq<Message>, p: Pos, c: Control)
    requires Valid(ms, p) && c.Mark? && !MarkAt(ms, p).Mark?
    requires p.mi == |ms| - 1 && p.bi == |BlocksOf(ms[p.mi])| - 1 >= 0
    ensures MessagesControls(SetAt(ms, p, c)) == MessagesControls(ms) + [c]
  {
    OwnLists(ms, p);
    SetLists(ms, p, c);
    assert After(ms, p) == [];
  }

  lemma {:induction false} SetLastIsLast(ms: seq<Message>, p: Pos, c: Control)
    requires Valid(ms, p) && c.Mark? && p.mi == |ms| - 1 && p.bi == |BlocksOf(ms[p.mi])| - 1 >= 0
    ensures LastMessageMark(SetAt(ms, p, c)) == Some(p)
  {
  }

  lemma {:induction false} WorkControls(ms: seq<Message>)
    requires ms != []
    ensures MessagesControls(Work(ms)) == MessagesControls(ms)
    ensures LastMessageMark(Work(ms)) == LastMessageMark(ms)
  {
    var n := |ms| - 1;
    AsBlocksControls(ms[n]);
    GatherShift(MessageControls, ms, Work(ms), 0, n, 0);
    LastMarkAgrees(ms, Work(ms), n);
  }

  lemma {:induction false} AsBlocksControls(m: Message)
    ensures MessageControls(AsBlocks(m)) == MessageControls(m) && LastBlockMark(AsBlocks(m)) == LastBlockMark(m)
  {
    if AsBlocks(m) != m { SystemSplit.OfOne(BlocksOf(AsBlocks(m))[0]); }
  }

  lemma {:induction false} LastMarkAgrees(a: seq<Message>, b: seq<Message>, n: nat)
    requires n <= |a| == |b| && forall i :: 0 <= i < n ==> a[i] == b[i]
    ensures LastMarkIn(a, n) == LastMarkIn(b, n)
  {
    if n > 0 { LastMarkAgrees(a, b, n - 1); }
  }

  // ---- The in-band move -----------------------------------------------------------------------------

  // A message without its marks, a string content written as the block it means.
  function Unmarked(e: Elem): Elem {
    if e.Obj? then e.(control := Absent) else e
  }

  function Stripped(bs: seq<Elem>): seq<Elem> {
    seq(|bs|, i requires 0 <= i < |bs| => Unmarked(bs[i]))
  }

  function Plain(m: Message): Message {
    var w := AsBlocks(m);
    Message(w.role, if w.content.Blocks? then Blocks(Stripped(w.content.bs)) else w.content, Absent, w.rest)
  }

  ghost predicate SamePlain(a: seq<Message>, b: seq<Message>) {
    |a| == |b| && forall i :: 0 <= i < |a| ==> Plain(a[i]) == Plain(b[i])
  }

  lemma {:induction false} ControlIsNotContent(m: Message, bi: int, c: Control)
    requires -1 <= bi < |BlocksOf(m)| && (bi >= 0 ==> BlocksOf(m)[bi].Obj?)
    ensures Plain(WithControl(m, bi, c)) == Plain(m)
  {
    if bi >= 0 {
      var bs, after := BlocksOf(m), BlocksOf(WithControl(m, bi, c));
      assert Stripped(after) == Stripped(bs);
    }
  }

  lemma {:induction false} WorkPlain(m: Message)
    ensures Plain(AsBlocks(m)) == Plain(m)
  {
  }

  lemma {:induction false} MovedPlain(ms: seq<Message>, from: Pos, target: Pos, c: Control)
    requires ms != [] && Valid(Work(ms), from) && Valid(Work(ms), target)
    ensures SamePlain(ms, SetAt(SetAt(Work(ms), from, Absent), target, c))
  {
    var w := Work(ms);
    var kept := SetAt(w, from, Absent);
    var out := SetAt(kept, target, c);
    WorkPlain(ms[|ms| - 1]);
    ControlIsNotContent(w[from.mi], from.bi, Absent);
    ControlIsNotContent(kept[target.mi], target.bi, c);
    assert SamePlain(ms, w);
    assert SamePlain(w, kept);
    assert SamePlain(kept, out);
  }

  /**
   * One call either sends the follow-up exactly as built, or moves the last mark in messages, value and
   * all, to the last block, across at most lookbackBlocks blocks: no other mark, no content, and nothing
   * outside messages changes, and the marks read the same in order.
   */
  lemma {:induction false} InBandMoves(b: Body)
    ensures var out := InBand(b);
      || out == b
      || (&& b.messages != [] && LastMessageMark(b.messages).Some?
          && var from := LastMessageMark(b.messages).value;
          && Valid(Work(b.messages), from) && BlocksAfter(Work(b.messages), from) <= LOOKBACK_BLOCKS
          && out.tools == b.tools && out.system == b.system
          && SamePlain(b.messages, out.messages)
          && MessagesControls(out.messages) == MessagesControls(b.messages)
          && LastMessageMark(out.messages) == LastBlockTarget(b.messages)
          && LastMessageMark(out.messages).Some?
          && MarkAt(out.messages, LastMessageMark(out.messages).value) == MarkAt(b.messages, from))
  {
    var ms := b.messages;
    if InBand(b) != b {
      var from, target := LastMessageMark(ms).value, LastBlockTarget(ms).value;
      var mark := MarkAt(ms, from);
      WorkKeeps(ms, from);
      WorkControls(ms);
      MoveWithin(Work(ms), target, mark);
      MovedPlain(ms, from, target, mark);
    }
  }

  // The move itself, on messages whose last block is ready to take the mark.
  lemma {:induction false} MoveWithin(w: seq<Message>, target: Pos, mark: Control)
    requires LastMessageMark(w).Some? && LastMessageMark(w).value != target && mark == MarkAt(w, LastMessageMark(w).value)
    requires Valid(w, target) && target.mi == |w| - 1 && target.bi == |BlocksOf(w[|w| - 1])| - 1 >= 0
    requires !BlocksOf(w[|w| - 1])[target.bi].control.Mark?
    ensures var kept := SetAt(w, LastMessageMark(w).value, Absent);
      && Valid(kept, target)
      && var out := SetAt(kept, target, mark);
      && MessagesControls(out) == MessagesControls(w)
      && LastMessageMark(out) == Some(target) && MarkAt(out, target) == mark
  {
    DropLastMark(w);
    OtherBlockStays(w, LastMessageMark(w).value, target);
    SetLastMark(SetAt(w, LastMessageMark(w).value, Absent), target, mark);
    SetLastIsLast(SetAt(w, LastMessageMark(w).value, Absent), target, mark);
  }

  lemma {:induction false} OtherBlockStays(w: seq<Message>, from: Pos, target: Pos)
    requires Valid(w, from) && Valid(w, target) && from != target && target.bi >= 0
    ensures var kept := SetAt(w, from, Absent);
      && |BlocksOf(kept[target.mi])| == |BlocksOf(w[target.mi])|
      && BlocksOf(kept[target.mi])[target.bi] == BlocksOf(w[target.mi])[target.bi]
  {
  }

  lemma {:induction false} MoveKeepsControls(b: Body)
    ensures InBand(b).tools == b.tools && InBand(b).system == b.system
    ensures MessagesControls(InBand(b).messages) == MessagesControls(b.messages)
  {
    InBandMoves(b);
  }

  lemma {:induction false} FollowKeepsControls(b: Body, ms: seq<Message>)
    requires MessagesControls(ms) == []
    ensures MessagesControls(b.messages + ms) == MessagesControls(b.messages)
  {
    GatherConcat(MessageControls, b.messages, ms);
  }

  // Rounds of in-band follow-ups: the host appends its own unmarked content, then moves the mark.
  function Rounds(b: Body, rounds: seq<seq<Message>>): Body {
    if rounds == [] then b
    else
      var before := Rounds(b, rounds[..|rounds| - 1]);
      InBand(before.(messages := before.messages + rounds[|rounds| - 1]))
  }

  // Over any number of rounds the client's marks keep their values, their order and their number.
  lemma {:induction false} RoundsKeepMarks(b: Body, rounds: seq<seq<Message>>)
    requires forall i :: 0 <= i < |rounds| ==> MessagesControls(rounds[i]) == []
    ensures var out := Rounds(b, rounds);
      out.tools == b.tools && out.system == b.system && MessagesControls(out.messages) == MessagesControls(b.messages)
  {
    if rounds != [] {
      var n := |rounds| - 1;
      RoundsKeepMarks(b, rounds[..n]);
      var before := Rounds(b, rounds[..n]);
      FollowKeepsControls(before, rounds[n]);
      MoveKeepsControls(before.(messages := before.messages + rounds[n]));
    }
  }

  // ---- Longest lifetime first -----------------------------------------------------------------------

  ghost predicate AllOneHour(cs: seq<Control>) {
    forall i :: 0 <= i < |cs| ==> OneHour(cs[i])
  }

  lemma {:induction false} OneHourControls(es: seq<Elem>, n: nat)
    requires n <= |es|
    ensures AllOneHour(Gather(ControlOf, OneHourAll(es), 0, n))
  {
    if n > 0 {
      OneHourControls(es, n - 1);
      HeadOnlyLengthens(es, n - 1);
      OneHourAppend(Gather(ControlOf, OneHourAll(es), 0, n - 1), es[n - 1]);
    }
  }

  lemma {:induction false} OneHourAppend(cs: seq<Control>, e: Elem)
    requires AllOneHour(cs)
    ensures AllOneHour(cs + ControlOf(OneHourElem(e)))
  {
  }

  lemma {:induction false} SuffixLongestFirst(a: seq<Control>, b: seq<Control>)
    requires LongestFirst(a + b)
    ensures LongestFirst(b)
  {
    forall i, j | 0 <= i < j < |b| && OneHour(b[j]) ensures OneHour(b[i]) {
      assert (a + b)[|a| + i] == b[i] && (a + b)[|a| + j] == b[j];
    }
  }

  lemma {:induction false} HeadKeepsOrder(b: Body)
    requires LongestFirst(Controls(b))
    ensures LongestFirst(Controls(HeadTTL(b)))
  {
    OneHourControls(b.tools, |b.tools|);
    OneHourControls(b.system, |b.system|);
    SuffixLongestFirst(ArrayControls(b.tools) + ArrayControls(b.system), MessagesControls(b.messages));
  }

  lemma {:induction false} LastMarkIsLast(ms: seq<Message>)
    requires LastMessageMark(ms).Some?
    ensures MessagesControls(ms) != []
    ensures MessagesControls(ms)[|MessagesControls(ms)| - 1] == MarkAt(ms, LastMessageMark(ms).value)
  {
    DropLastMark(ms);
  }

  lemma {:induction false} PlacedPlain(ms: seq<Message>, w: seq<Message>, target: Pos, c: Control)
    requires SamePlain(ms, w) && Valid(w, target)
    ensures SamePlain(ms, SetAt(w, target, c))
  {
    ControlIsNotContent(w[target.mi], target.bi, c);
    assert SamePlain(w, SetAt(w, target, c));
  }

  lemma {:induction false} WorkIsPlain(ms: seq<Message>)
    requires ms != []
    ensures SamePlain(ms, Work(ms))
  {
    WorkPlain(ms[|ms| - 1]);
  }

  /**
   * The tail mark leaves the body as it was, or, where more than tailMinBytes follow the client's last
   * mark, repeats that mark's value on the last block: one more mark, below the cap, no content changed.
   */
  lemma {:induction false} TailAddsLast(b: Body, after: nat)
    ensures var out := MarkTail(b, after);
      || out == b
      || (&& after > TAIL_MIN_BYTES && Wire.Breakpoints(b) < MAX_BREAKPOINTS
          && b.messages != [] && LastMessageMark(b.messages).Some?
          && out.tools == b.tools && out.system == b.system && SamePlain(b.messages, out.messages)
          && MessagesControls(out.messages) == MessagesControls(b.messages) + [MarkAt(b.messages, LastMessageMark(b.messages).value)]
          && LastMessageMark(out.messages) == LastBlockTarget(b.messages))
  {
    var ms := b.messages;
    if MarkTail(b, after) != b {
      var mark, target := MarkAt(ms, LastMessageMark(ms).value), LastBlockTarget(ms).value;
      WorkControls(ms);
      WorkCounts(ms);
      SetLastMark(Work(ms), target, mark);
      SetLastIsLast(Work(ms), target, mark);
      WorkIsPlain(ms);
      PlacedPlain(ms, Work(ms), target, mark);
    }
  }

  /**
   * The splice anchor leaves the body as it was, or puts one five-minute mark on an unmarked tool_result
   * of that call, below the cap, between the marks before it and those after it.
   */
  lemma {:induction false} AnchorAddsOne(b: Body, toolID: string)
    ensures var out := Anchor(b, toolID);
      || out == b
      || (&& toolID != "" && Wire.Breakpoints(b) < MAX_BREAKPOINTS && AnchorTarget(b.messages, toolID).Some?
          && var p := AnchorTarget(b.messages, toolID).value;
          && out.tools == b.tools && out.system == b.system && SamePlain(b.messages, out.messages)
          && MessagesControls(b.messages) == Before(b.messages, p) + After(b.messages, p)
          && MessagesControls(out.messages) == Before(b.messages, p) + [Mark("", "ephemeral")] + After(b.messages, p))
  {
    var ms, c := b.messages, Mark("", "ephemeral");
    if Anchor(b, toolID) != b {
      var p := AnchorTarget(ms, toolID).value;
      OwnLists(ms, p);
      SetLists(ms, p, c);
      assert Before(ms, p) + [] + After(ms, p) == Before(ms, p) + After(ms, p);
      PlacedPlain(ms, ms, p, c);
    }
  }

  // The head upgrade changes the lifetime of marks that are there, and nothing else.
  lemma {:induction false} HeadOnlyLengthens(es: seq<Elem>, i: nat)
    requires i < |es|
    ensures var e := OneHourAll(es)[i];
      e == if es[i].Obj? && es[i].control.Mark? then es[i].(control := es[i].control.(ttl := "1h")) else es[i]
  {
    if i < |es| - 1 { HeadOnlyLengthens(es[..|es| - 1], i); }
  }

  // The tail mark repeats the last mark's value after it, so it cannot break the order.
  lemma {:induction false} TailKeepsOrder(b: Body, after: nat)
    requires LongestFirst(Controls(b))
    ensures LongestFirst(Controls(MarkTail(b, after)))
  {
    var ms, out := b.messages, MarkTail(b, after);
    if out != b {
      var mark := MarkAt(ms, LastMessageMark(ms).value);
      WorkControls(ms);
      SetLastMark(Work(ms), LastBlockTarget(ms).value, mark);
      LastMarkIsLast(ms);
      var head, cs := ArrayControls(b.tools) + ArrayControls(b.system), MessagesControls(ms);
      Assoc(head, cs, [mark]);
      assert Controls(out) == Controls(b) + [mark];
      RepeatLast(Controls(b), mark);
    }
  }

  lemma {:induction false} RepeatLast(cs: seq<Control>, c: Control)
    requires cs != [] && LongestFirst(cs) && cs[|cs| - 1] == c
    ensures LongestFirst(cs + [c])
  {
    var after, n := cs + [c], |cs|;
    forall i, j | 0 <= i < j < |after| && OneHour(after[j]) ensures OneHour(after[i]) {
      assert j == n ==> after[i] == cs[i] && (i == n - 1 || OneHour(cs[n - 1]));
    }
  }

  ghost predicate KeepsOrder(e: Edit) {
    e.Split? || e.Head? || e.Move? || e.Tail? || (e.Follow? && forall p :: !Marked(Body([], [], e.ms), p))
  }

  /**
   * The system split, the one-hour head, the in-band move and the tail mark all keep the provider's order
   * rule, in any sequence, with unmarked content appended in between: no marked place with less than an hour
   * comes before one with an hour.
   */
  lemma {:induction false} EditsKeepOrder(b: Body, edits: seq<Edit>)
    requires HourFirst(b, MarkSet(b)) && forall i :: 0 <= i < |edits| ==> KeepsOrder(edits[i])
    ensures HourFirst(Run(b, edits), MarkSet(Run(b, edits)))
  {
    LongestFirstByPlace(b);
    LongestFirstByPlace(Run(b, edits));
    EditsKeepLongest(b, edits);
  }

  lemma {:induction false} EditsKeepLongest(b: Body, edits: seq<Edit>)
    requires LongestFirst(Controls(b)) && forall i :: 0 <= i < |edits| ==> KeepsOrder(edits[i])
    ensures LongestFirst(Controls(Run(b, edits)))
  {
    if edits != [] {
      var n := |edits| - 1;
      var init, e := edits[..n], edits[n];
      assert forall i :: 0 <= i < n ==> init[i] == edits[i];
      EditsKeepLongest(b, init);
      if e.Follow? { UnmarkedLists(e.ms); }
      ApplyKeepsOrder(Run(b, init), e);
    }
  }

  lemma {:induction false} UnmarkedLists(ms: seq<Message>)
    requires forall p :: !Marked(Body([], [], ms), p)
    ensures MessagesControls(ms) == []
  {
    var b := Body([], [], ms);
    MessagesListed(b, |ms|);
    if MessagesControls(ms) != [] {
      assert MessagesControls(ms)[0] in MessagesControls(ms);
      var p :| p in MessagesPlaces(ms, |ms|) && !p.point && FieldAt(b, p) == MessagesControls(ms)[0];
      MessagesPlacesHas(b, |ms|, p);
      assert false;
    }
  }

  lemma {:induction false} ApplyKeepsOrder(b: Body, e: Edit)
    requires LongestFirst(Controls(b))
    requires e.Split? || e.Head? || e.Move? || e.Tail? || (e.Follow? && MessagesControls(e.ms) == [])
    ensures LongestFirst(Controls(Apply(b, e)))
  {
    match e
    case Split(rule) => SystemSplit.SplitKeepsAll(rule, b.system);
    case Head => HeadKeepsOrder(b);
    case Move => MoveKeepsControls(b);
    case Tail(after) => TailKeepsOrder(b, after);
    case Follow(ms) => FollowKeepsControls(b, ms);
  }

  /**
   * The splice anchor always writes the five-minute tier: where it lands, the order survives exactly when
   * no one-hour mark comes after it.
   */
  lemma {:induction false} AnchorKeepsOrderIff(b: Body, toolID: string)
    requires LongestFirst(Controls(b)) && Anchor(b, toolID) != b
    ensures AnchorTarget(b.messages, toolID).Some?
    ensures LongestFirst(Controls(Anchor(b, toolID))) <==>
      NoOneHour(After(b.messages, AnchorTarget(b.messages, toolID).value))
  {
    var ms, c := b.messages, Mark("", "ephemeral");
    var p := AnchorTarget(ms, toolID).value;
    OwnLists(ms, p);
    SetLists(ms, p, c);
    var head := ArrayControls(b.tools) + ArrayControls(b.system);
    var x, y := Before(ms, p), After(ms, p);
    calc {
      Controls(b);
      head + (x + [] + y);
      { FourParts(head, x, [], y); }
      head + x + y;
    }
    calc {
      Controls(Anchor(b, toolID));
      head + (x + [c] + y);
      { FourParts(head, x, [c], y); }
      head + x + [c] + y;
    }
    InsertShort(head + x, c, y);
  }

  ghost predicate NoOneHour(cs: seq<Control>) {
    forall i :: 0 <= i < |cs| ==> !OneHour(cs[i])
  }

  lemma {:induction false} InsertShort(x: seq<Control>, c: Control, y: seq<Control>)
    requires LongestFirst(x + y) && !OneHour(c)
    ensures LongestFirst(x + [c] + y) <==> NoOneHour(y)
  {
    var before, cs := x + y, x + [c] + y;
    if !NoOneHour(y) {
      var k :| 0 <= k < |y| && OneHour(y[k]);
      assert cs[|x| + 1 + k] == y[k] && cs[|x|] == c;
    } else {
      forall j | |x| <= j < |cs| ensures !OneHour(cs[j]) {
        assert cs[j] == if j == |x| then c else y[j - |x| - 1];
      }
      forall i, j | 0 <= i < j < |cs| && OneHour(cs[j]) ensures OneHour(cs[i]) {
        assert before[i] == cs[i] && before[j] == cs[j];
      }
    }
  }
}
