/**
 * Which body messages survive the Messages rebuild, told from its input alone (rebuildCountChanged in
 * apply/apply.go), and exactly when no tool role reaches the wire.
 */
module ChatSurvivors {
  import opened Lists
  import opened ChatRebuild
  import opened ChatEmission
  import opened ChatTools

  // What the components were shown.
  function Shown(slots: seq<Slot>): (norm: seq<Chat>)
    ensures |norm| == |slots|
  {
    seq(|slots|, k requires 0 <= k < |slots| => slots[k].pre)
  }

  // How many of the first n messages read as c.
  function Copies(cs: seq<Chat>, c: Chat, n: nat): nat
    requires n <= |cs|
  {
    if n == 0 then 0 else Copies(cs, c, n - 1) + if cs[n - 1] == c then 1 else 0
  }

  lemma {:induction false} CopiesGrow(cs: seq<Chat>, c: Chat, m: nat, n: nat)
    requires m <= n <= |cs|
    ensures Copies(cs, c, m) <= Copies(cs, c, n)
    ensures m < n && cs[m] == c ==> Copies(cs, c, m) < Copies(cs, c, n)
    decreases n
  {
    if m < n { CopiesGrow(cs, c, m, n - 1); }
  }

  lemma {:induction false} CopiesBounded(cs: seq<Chat>, c: Chat, n: nat, most: nat)
    requires n <= |cs| && forall k :: 0 <= k < n && cs[k] == c ==> Copies(cs, c, k) < most
    ensures Copies(cs, c, n) <= most
  {
    if n > 0 { CopiesBounded(cs, c, n - 1, most); }
  }

  // The copy that has exactly m before it.
  lemma {:induction false} NthCopy(cs: seq<Chat>, c: Chat, n: nat, m: nat) returns (k: nat)
    requires n <= |cs| && m < Copies(cs, c, n)
    ensures k < n && cs[k] == c && Copies(cs, c, k) == m
  {
    if m < Copies(cs, c, n - 1) { k := NthCopy(cs, c, n - 1, m); } else { k := n - 1; }
  }

  // ---- The slots a run has used ----------------------------------------------------------------------------------

  // A slot no id reaches is matched by its bytes alone.
  lemma {:induction false} ByBytesAlone(msgs: seq<Message>, slots: seq<Slot>, out: seq<Chat>, t: seq<int>, i: nat)
    requires i < |out| && t == Trace(msgs, slots, out, |out|) && Consistent(msgs, slots)
    requires 0 <= t[i] < |slots| && ToolSlot(msgs, slots, slots[t[i]].pre) < 0
    ensures slots[t[i]].pre == out[i]
  {
    MatchesAreRight(msgs, slots, out, t, i);
    if slots[t[i]].pre != out[i] {
      OwnReading(msgs, slots, out[i], t[i]);
      assert false;
    }
  }

  // Slots that read as c are used from the first on, one for each message that reads as c.
  ghost predicate UsedInOrder(slots: seq<Slot>, used: set<nat>, c: Chat, n: nat) {
    forall k :: 0 <= k < |slots| && slots[k].pre == c ==> (k in used <==> Copies(Shown(slots), c, k) < n)
  }

  lemma {:induction false} FirstEqualIsFirst(slots: seq<Slot>, used: set<nat>, c: Chat, k: nat, x: nat)
    requires k <= x < |slots| && x !in used && slots[x].pre == c
    ensures k <= FirstEqual(slots, used, c, k) <= x
    decreases x - k
  {
    if k < x { FirstEqualIsFirst(slots, used, c, k + 1, x); }
  }

  // The first unused slot that reads as c is the one with as many before it as there are used.
  lemma {:induction false} NextCopy(slots: seq<Slot>, used: set<nat>, c: Chat, n: nat)
    requires UsedInOrder(slots, used, c, n) && FirstEqual(slots, used, c, 0) >= 0
    ensures Copies(Shown(slots), c, FirstEqual(slots, used, c, 0)) == n
  {
    var r := FirstEqual(slots, used, c, 0);
    forall k | 0 <= k < r && Shown(slots)[k] == c ensures Copies(Shown(slots), c, k) < n {
      if k !in used { FirstEqualIsFirst(slots, used, c, 0, k); }
    }
    CopiesBounded(Shown(slots), c, r, n);
  }

  lemma {:induction false} UsesNextCopy(slots: seq<Slot>, used: set<nat>, c: Chat, n: nat)
    requires UsedInOrder(slots, used, c, n) && FirstEqual(slots, used, c, 0) >= 0
    ensures UsedInOrder(slots, used + {FirstEqual(slots, used, c, 0)}, c, n + 1)
  {
    var r := FirstEqual(slots, used, c, 0);
    NextCopy(slots, used, c, n);
    forall k | 0 <= k < |slots| && slots[k].pre == c && Copies(Shown(slots), c, k) == n ensures k == r {
      if k < r { CopiesGrow(Shown(slots), c, k, r); }
      if r < k { CopiesGrow(Shown(slots), c, r, k); }
    }
  }

  lemma {:induction false} NoCopyLeft(slots: seq<Slot>, used: set<nat>, c: Chat, n: nat)
    requires UsedInOrder(slots, used, c, n) && FirstEqual(slots, used, c, 0) < 0
    ensures UsedInOrder(slots, used, c, n + 1)
  {
    forall k | 0 <= k < |slots| && slots[k].pre == c ensures k in used {
      if k !in used { FirstEqualIsFirst(slots, used, c, 0, k); }
    }
  }

  lemma {:induction false} UsedByCopies(msgs: seq<Message>, slots: seq<Slot>, out: seq<Chat>, t: seq<int>, c: Chat, n: nat)
    requires n <= |out| && t == Trace(msgs, slots, out, |out|) && Consistent(msgs, slots) && ToolSlot(msgs, slots, c) < 0
    ensures UsedInOrder(slots, Used(t[..n]), c, Copies(out, c, n))
  {
    if n > 0 {
      UsedByCopies(msgs, slots, out, t, c, n - 1);
      TraceAt(msgs, slots, out, n - 1, t);
      UsedGrows(t[..n - 1], t[n - 1]);
      if out[n - 1] == c {
        if t[n - 1] < 0 {
          NoCopyLeft(slots, Used(t[..n - 1]), c, Copies(out, c, n - 1));
        } else {
          UsesNextCopy(slots, Used(t[..n - 1]), c, Copies(out, c, n - 1));
        }
      } else if t[n - 1] >= 0 && slots[t[n - 1]].pre == c {
        ByBytesAlone(msgs, slots, out, t, n - 1);
        assert false;
      }
    } else {
      assert t[..0] == [] && Used([]) == {};
    }
  }

  // ---- Who survives ---------------------------------------------------------------------------------------------

  /**
   * A slot with a call of its own survives when a message answers the call; any other, when fewer slots
   * before it read the same than output messages do.
   */
  ghost predicate Survives(msgs: seq<Message>, slots: seq<Slot>, out: seq<Chat>, k: nat)
    requires k < |slots|
  {
    if ToolSlot(msgs, slots, slots[k].pre) >= 0 then exists i :: 0 <= i < |out| && Answers(msgs, slots, out[i], k)
    else Copies(Shown(slots), slots[k].pre, k) < Copies(out, slots[k].pre, |out|)
  }

  lemma {:induction false} UsedSurvives(msgs: seq<Message>, slots: seq<Slot>, out: seq<Chat>, t: seq<int>, k: nat)
    requires k < |slots| && t == Trace(msgs, slots, out, |out|) && Consistent(msgs, slots) && OneAnswer(msgs, slots, out)
    ensures k in Used(t) <==> Survives(msgs, slots, out, k)
  {
    if ToolSlot(msgs, slots, slots[k].pre) >= 0 {
      if i :| 0 <= i < |out| && Answers(msgs, slots, out[i], k) {
        ToolFindsItsSlot(msgs, slots, out, t, i);
        assert t[i] == k;
      }
      if k in Used(t) {
        var i :| 0 <= i < |t| && t[i] == k;
        MatchesAreRight(msgs, slots, out, t, i);
        if ToolSlot(msgs, slots, out[i]) >= 0 { ToolFindsItsSlot(msgs, slots, out, t, i); }
        assert Answers(msgs, slots, out[i], k);
      }
    } else {
      assert t[..|out|] == t;
      UsedByCopies(msgs, slots, out, t, slots[k].pre, |out|);
    }
  }

  ghost predicate HasSurvivor(msgs: seq<Message>, slots: seq<Slot>, out: seq<Chat>, bi: nat) {
    exists k :: 0 <= k < |slots| && slots[k].bi == bi && Survives(msgs, slots, out, k)
  }

  lemma {:induction false} SeenIsSurvivor(msgs: seq<Message>, slots: seq<Slot>, out: seq<Chat>, t: seq<int>, bi: nat)
    requires t == Trace(msgs, slots, out, |out|) && Consistent(msgs, slots) && OneAnswer(msgs, slots, out)
    ensures Seen(slots, t, |out|, bi) <==> HasSurvivor(msgs, slots, out, bi)
  {
    if Seen(slots, t, |out|, bi) {
      var j :| 0 <= j < |out| && OfMessage(slots, t, j, bi);
      UsedSurvives(msgs, slots, out, t, t[j]);
    }
    if HasSurvivor(msgs, slots, out, bi) {
      var k :| 0 <= k < |slots| && slots[k].bi == bi && Survives(msgs, slots, out, k);
      UsedSurvives(msgs, slots, out, t, k);
      var j :| 0 <= j < |t| && t[j] == k;
      assert OfMessage(slots, t, j, bi);
    }
  }

  lemma {:induction false} WroteSurvivors(msgs: seq<Message>, slots: seq<Slot>, out: seq<Chat>, bi: nat)
    ensures HasSurvivor(Wrote(msgs, slots, out, |out|), slots, out, bi) <==> HasSurvivor(msgs, slots, out, bi)
  {
    var written := Wrote(msgs, slots, out, |out|);
    forall k | 0 <= k < |slots| ensures Survives(written, slots, out, k) <==> Survives(msgs, slots, out, k) {
      WroteKeepsToolSlot(msgs, slots, out, slots[k].pre);
      forall i | 0 <= i < |out| ensures Answers(written, slots, out[i], k) <==> Answers(msgs, slots, out[i], k) {
        WroteKeepsToolSlot(msgs, slots, out, out[i]);
      }
    }
  }

  /**
   * Where no string output is answered twice, a body message is in the rebuilt array exactly when one of its
   * slots survives, and then once.
   */
  lemma {:induction false} KeepsExactlySurvivors(d: Dialect, msgs: seq<Message>, out: seq<Chat>) returns (parts: seq<Part>)
    requires Rebuilt(msgs, Slots(d, msgs), out).Some? && OneAnswer(msgs, Slots(d, msgs), out)
    ensures Rebuilt(msgs, Slots(d, msgs), out).value == WireAll(Wrote(msgs, Slots(d, msgs), out, |out|), parts)
    ensures KeptOnce(parts) && forall bi: nat :: Kept(bi) in parts <==> HasSurvivor(msgs, Slots(d, msgs), out, bi)
  {
    var slots := Slots(d, msgs);
    var written := Wrote(msgs, slots, out, |out|);
    var t := Trace(written, slots, out, |out|);
    parts := Emission(slots, out, t, |out|);
    RebuiltInOrder(msgs, slots, out, t, parts);
    NormalizedConsistent(d, msgs);
    WroteConsistent(msgs, slots, out);
    WroteOneAnswer(msgs, slots, out);
    forall bi: nat ensures Kept(bi) in parts <==> HasSurvivor(msgs, slots, out, bi) {
      SeenIsSurvivor(written, slots, out, t, bi);
      WroteSurvivors(msgs, slots, out, bi);
    }
  }

  // ---- No tool role on the wire ---------------------------------------------------------------------------------

  // An output message is matched when its call has a string slot, or while slots that read as it does last.
  lemma {:induction false} MatchedIff(msgs: seq<Message>, slots: seq<Slot>, out: seq<Chat>, t: seq<int>, i: nat)
    requires i < |out| && t == Trace(msgs, slots, out, |out|) && Consistent(msgs, slots) && OneAnswer(msgs, slots, out)
    ensures t[i] >= 0 <==>
      ToolSlot(msgs, slots, out[i]) >= 0 || Copies(out, out[i], i) < Copies(Shown(slots), out[i], |slots|)
  {
    if ToolSlot(msgs, slots, out[i]) >= 0 {
      ToolFindsItsSlot(msgs, slots, out, t, i);
    } else {
      var c, used := out[i], Used(t[..i]);
      TraceAt(msgs, slots, out, i, t);
      UsedByCopies(msgs, slots, out, t, c, i);
      if t[i] >= 0 {
        CopiesGrow(Shown(slots), c, t[i], |slots|);
      } else if Copies(out, c, i) < Copies(Shown(slots), c, |slots|) {
        var k := NthCopy(Shown(slots), c, |slots|, Copies(out, c, i));
        FirstEqualIsFirst(slots, used, c, 0, k);
      }
    }
  }

  lemma {:induction false} NewIsUnmatched(slots: seq<Slot>, out: seq<Chat>, t: seq<int>, n: nat, p: nat) returns (i: nat)
    requires n <= |t| == |out| && p < |Emission(slots, out, t, n)| && Emission(slots, out, t, n)[p].New?
    ensures i < n && !(0 <= t[i] < |slots|) && Emission(slots, out, t, n)[p].c == out[i]
  {
    if p < |Emission(slots, out, t, n - 1)| { i := NewIsUnmatched(slots, out, t, n - 1, p); } else { i := n - 1; }
  }

  lemma {:induction false} UnmatchedIsNew(slots: seq<Slot>, out: seq<Chat>, t: seq<int>, n: nat, i: nat) returns (p: nat)
    requires i < n <= |t| == |out| && t[i] < 0
    ensures p < |Emission(slots, out, t, n)| && Emission(slots, out, t, n)[p] == New(out[i])
  {
    if i < n - 1 { p := UnmatchedIsNew(slots, out, t, n - 1, i); } else { p := |Emission(slots, out, t, n - 1)|; }
  }

  // The message has a string slot by its id, or the components left no more copies of it than they were shown.
  predicate Placed(msgs: seq<Message>, slots: seq<Slot>, out: seq<Chat>, c: Chat) {
    ToolSlot(msgs, slots, c) >= 0 || Copies(out, c, |out|) <= Copies(Shown(slots), c, |slots|)
  }

  ghost predicate NoToolRole(wired: seq<Wired>) {
    forall p :: 0 <= p < |wired| && wired[p].Marshaled? ==> wired[p].c.role != Tool
  }

  lemma {:induction false} PlacedIsMatched(msgs: seq<Message>, slots: seq<Slot>, out: seq<Chat>, t: seq<int>, i: nat)
    requires i < |out| && t == Trace(msgs, slots, out, |out|) && Consistent(msgs, slots) && OneAnswer(msgs, slots, out)
    requires Placed(msgs, slots, out, out[i])
    ensures t[i] >= 0
  {
    MatchedIff(msgs, slots, out, t, i);
    CopiesGrow(out, out[i], i, |out|);
  }

  lemma {:induction false} UnplacedIsUnmatched(msgs: seq<Message>, slots: seq<Slot>, out: seq<Chat>, t: seq<int>, c: Chat) returns (i: nat)
    requires t == Trace(msgs, slots, out, |out|) && Consistent(msgs, slots) && OneAnswer(msgs, slots, out)
    requires !Placed(msgs, slots, out, c)
    ensures i < |out| && out[i] == c && t[i] < 0
  {
    i := NthCopy(out, c, |out|, Copies(Shown(slots), c, |slots|));
    MatchedIff(msgs, slots, out, t, i);
  }

  /**
   * Where no string output is answered twice, the rebuilt request has no tool role in it, which Anthropic would
   * refuse, if and only if every tool message left is placed.
   */
  lemma {:induction false} NoToolRoleIff(d: Dialect, msgs: seq<Message>, out: seq<Chat>)
    requires OneAnswer(msgs, Slots(d, msgs), out) && Rebuilt(msgs, Slots(d, msgs), out).Some?
    ensures NoToolRole(Rebuilt(msgs, Slots(d, msgs), out).value) <==>
      forall i :: 0 <= i < |out| && out[i].role == Tool ==> Placed(msgs, Slots(d, msgs), out, out[i])
  {
    NormalizedConsistent(d, msgs);
    var slots := Slots(d, msgs);
    var written := Wrote(msgs, slots, out, |out|);
    var t := Trace(written, slots, out, |out|);
    var parts := Emission(slots, out, t, |out|);
    RebuiltInOrder(msgs, slots, out, t, parts);
    WroteConsistent(msgs, slots, out);
    WroteOneAnswer(msgs, slots, out);
    forall i | 0 <= i < |out| ensures Placed(written, slots, out, out[i]) <==> Placed(msgs, slots, out, out[i]) {
      WroteKeepsToolSlot(msgs, slots, out, out[i]);
    }
    PartsNoToolRole(written, slots, out, t, parts);
  }

  lemma {:induction false} PartsNoToolRole(msgs: seq<Message>, slots: seq<Slot>, out: seq<Chat>, t: seq<int>, parts: seq<Part>)
    requires t == Trace(msgs, slots, out, |out|) && Consistent(msgs, slots) && OneAnswer(msgs, slots, out)
    requires parts == Emission(slots, out, t, |out|)
    ensures NoToolRole(WireAll(msgs, parts)) <==>
      forall i :: 0 <= i < |out| && out[i].role == Tool ==> Placed(msgs, slots, out, out[i])
  {
    if i :| 0 <= i < |out| && out[i].role == Tool && !Placed(msgs, slots, out, out[i]) {
      var j := UnplacedIsUnmatched(msgs, slots, out, t, out[i]);
      var p := UnmatchedIsNew(slots, out, t, |out|, j);
      assert WireAll(msgs, parts)[p] == Marshaled(out[i]);
    } else {
      forall p | 0 <= p < |parts| && parts[p].New? ensures parts[p].c.role != Tool {
        var i := NewIsUnmatched(slots, out, t, |out|, p);
        MatchesAreRight(msgs, slots, out, t, i);
        if out[i].role == Tool {
          PlacedIsMatched(msgs, slots, out, t, i);
          assert false;
        }
      }
    }
  }

  // In particular where every tool message left belongs to a tool_result with string content.
  lemma {:induction false} NeverMarshalsTool(d: Dialect, msgs: seq<Message>, out: seq<Chat>)
    requires OneAnswer(msgs, Slots(d, msgs), out) && Rebuilt(msgs, Slots(d, msgs), out).Some?
    requires forall i :: 0 <= i < |out| && out[i].role == Tool ==> ToolSlot(msgs, Slots(d, msgs), out[i]) >= 0
    ensures NoToolRole(Rebuilt(msgs, Slots(d, msgs), out).value)
  {
    NoToolRoleIff(d, msgs, out);
  }

  lemma {:induction false} LoneSlotLeaks(msgs: seq<Message>, slot: Slot, c: Chat)
    requires |msgs| == 1 && slot.bi == 0 && !slot.field.ToolStr? && slot.pre != c
    ensures Rebuilt(msgs, [slot], [c]) == Some([Marshaled(c)])
  {
    var slots, out := [slot], [c];
    assert ToolSlot(msgs, slots, c) == -1 by {
      if c.callID.Some? { assert SlotOfID(msgs, slots, c.callID.value, 0) == -1; }
    }
    assert Wrote(msgs, slots, out, 0) == msgs;
    assert CoveredSet(slots, 0) == {} && CoveredSet(slots, 1) == {0};
    var empty := State({}, {}, []);
    assert FirstEqual(slots, empty.used, c, 1) == -1;
    assert MatchOf(msgs, slots, empty.used, c) == -1;
    assert empty.parts + [New(c)] == [New(c)];
    assert Step(msgs, slots, empty, c) == Some(empty.(parts := [New(c)]));
    assert After(msgs, slots, out, 0) == Some(empty);
    assert WireAll(msgs, [New(c)]) == [Marshaled(c)];
  }

  // With a block array instead of a string the slot has no id, and a rewritten output leaks the role.
  lemma {:induction false} BlockArrayLeaksRole(d: Dialect, text: string) returns (msgs: seq<Message>, out: seq<Chat>)
    requires d.anthropic
    ensures |Slots(d, msgs)| == |out| == 1 && out[0].role == Tool && out[0].callID == Slots(d, msgs)[0].pre.callID
    ensures Rebuilt(msgs, Slots(d, msgs), out) == Some([Marshaled(out[0])])
  {
    var inner := [InnerText(text, "")];
    var m := Message(User, Blocks([ToolResult("t", OutArr(inner), "")]), "");
    var slot := ToolSlotFor(0, ToolInner(0, 0), text, "t");
    var c := ToolChat(slot.pre.text + "!", "t");
    assert |c.text| == |slot.pre.text| + 1;
    msgs, out := [m], [c];
    OneInner(d, m, inner, slot);
    LoneSlotLeaks(msgs, slot, c);
  }

  lemma {:induction false} OneInner(d: Dialect, m: Message, inner: seq<Inner>, slot: Slot)
    requires d.anthropic && inner == [InnerText(slot.preText, "")] && slot == ToolSlotFor(0, ToolInner(0, 0), slot.preText, "t")
    requires m == Message(User, Blocks([ToolResult("t", OutArr(inner), "")]), "")
    ensures Slots(d, [m]) == [slot]
  {
    var bs := m.content.bs;
    assert bs[0].ToolResult? && HasToolResult(bs);
    assert Flat(InnerSlots(0, 0, "t"), inner, 0) == [] && Flat(InnerSlots(0, 0, "t"), inner, 1) == [slot];
    assert Flat(BlockSlots(0), bs, 0) == [] && Flat(BlockSlots(0), bs, 1) == [slot];
    assert MessageSlots(d)(0, m) == [slot];
    assert Flat(MessageSlots(d), [m], 0) == [] && Flat(MessageSlots(d), [m], 1) == [slot];
  }
}
