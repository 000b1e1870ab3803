/**
 * The lossless case of the Messages rebuild (rebuildCountChanged in apply/apply.go): one message put in
 * the place of a run of whole body messages leaves every other body message byte for byte as it was,
 * exactly when no message after the span reads the same as one inside it.
 */
module ChatSpan {
  import opened Lists
  import opened ChatRebuild
  import opened ChatEmission
  import opened ChatTools
  import opened ChatSurvivors
  import Reminders

  // Which slot output message i came from, the slots [s, e) having become message s.
  function Source(i: nat, s: nat, e: nat): int {
    if i < s then i else e + (i - s - 1)
  }

  predicate FromSlot(slots: seq<Slot>, out: seq<Chat>, s: nat, e: nat, i: nat)
    requires i < |out| && e <= |slots| && |out| == s + 1 + (|slots| - e)
  {
    i == s || (0 <= Source(i, s, e) < |slots| && out[i] == slots[Source(i, s, e)].pre)
  }

  // The messages outside the span are untouched and the new one is like none.
  ghost predicate Replaced(slots: seq<Slot>, out: seq<Chat>, s: nat, e: nat) {
    && s <= e <= |slots| && |out| == s + 1 + (|slots| - e)
    && (forall i :: 0 <= i < |out| ==> FromSlot(slots, out, s, e, i))
    && out[s].role != Tool && (forall k :: 0 <= k < |slots| ==> slots[k].pre != out[s])
  }

  // Message k reads the same as one inside the span.
  predicate Recurs(slots: seq<Slot>, s: nat, e: nat, k: nat)
    requires e <= |slots| && k < |slots|
  {
    exists j :: s <= j < e && slots[j].pre == slots[k].pre
  }

  ghost predicate NoneRecurs(slots: seq<Slot>, s: nat, e: nat)
    requires e <= |slots|
  {
    forall k :: e <= k < |slots| ==> !Recurs(slots, s, e, k)
  }

  // The only tool message of a call with a string output is that output's own.
  predicate OwnCall(msgs: seq<Message>, slots: seq<Slot>, c: Chat, j: nat) {
    ToolSlot(msgs, slots, c) == -1 || ToolSlot(msgs, slots, c) == j
  }

  ghost predicate OwnCalls(msgs: seq<Message>, slots: seq<Slot>) {
    forall j :: 0 <= j < |slots| ==> OwnCall(msgs, slots, slots[j].pre, j)
  }

  ghost predicate StringsPointed(msgs: seq<Message>, slots: seq<Slot>) {
    forall k :: 0 <= k < |slots| && slots[k].field.ToolStr? ==> PointsAtString(msgs, slots[k])
  }

  // ---- Nothing is written ------------------------------------------------------------------------------------

  lemma {:induction false} UnchangedText(text: string)
    ensures var (body, tail) := Reminders.Split(text); |tail| <= |text| && Reminders.WriteTail(text, tail, body) == text
  {
    Reminders.SplitIsLosslessAndFinal(text);
    var (body, tail) := Reminders.Split(text);
    assert text[..|text| - |tail|] == body;
  }

  lemma {:induction false} UnchangedWritesNothing(msgs: seq<Message>, slots: seq<Slot>, c: Chat, j: nat)
    requires j < |slots| && slots[j].pre == c && OwnCall(msgs, slots, c, j)
    requires slots[j].field.ToolStr? ==> PointsAtString(msgs, slots[j])
    ensures WriteOne(msgs, msgs, slots, c) == msgs
  {
    if ToolSlot(msgs, slots, c) == j {
      UnchangedText(slots[j].preText);
      assert Tailed(slots[j], c.text) == slots[j].preText;
    }
  }

  lemma {:induction false} WritesNothing(msgs: seq<Message>, slots: seq<Slot>, out: seq<Chat>, s: nat, e: nat, i: nat)
    requires Replaced(slots, out, s, e) && OwnCalls(msgs, slots) && StringsPointed(msgs, slots) && i < |out|
    ensures WriteOne(msgs, msgs, slots, out[i]) == msgs
  {
    assert FromSlot(slots, out, s, e, i);
    if i != s {
      var j: nat := Source(i, s, e);
      assert OwnCall(msgs, slots, slots[j].pre, j);
      UnchangedWritesNothing(msgs, slots, out[i], j);
    }
  }

  lemma {:induction false} NothingWritten(msgs: seq<Message>, slots: seq<Slot>, out: seq<Chat>, n: nat)
    requires n <= |out| && forall i :: 0 <= i < |out| ==> WriteOne(msgs, msgs, slots, out[i]) == msgs
    ensures Wrote(msgs, slots, out, n) == msgs
  {
    if n > 0 { NothingWritten(msgs, slots, out, n - 1); }
  }

  // ---- Every survivor finds its own slot ----------------------------------------------------------------------

  function Expected(slots: seq<Slot>, out: seq<Chat>, s: nat, e: nat): (t: seq<int>)
    ensures |t| == |out|
  {
    seq(|out|, i requires 0 <= i < |out| => if i == s then -1 else Source(i, s, e))
  }

  lemma {:induction false} NoneEqual(slots: seq<Slot>, used: set<nat>, c: Chat, k: nat)
    requires k <= |slots| && forall x :: 0 <= x < |slots| ==> slots[x].pre != c
    ensures FirstEqual(slots, used, c, k) == -1
    decreases |slots| - k
  {
    if k < |slots| { NoneEqual(slots, used, c, k + 1); }
  }

  // A survivor before the span is matched to its own slot, one after it to a slot that reads the same, at or
  // before its own and not before the span.
  ghost predicate Near(slots: seq<Slot>, out: seq<Chat>, t: seq<int>, s: nat, e: nat, n: nat)
    requires n < |t| == |out|
  {
    if n < s then t[n] == n
    else if n == s then t[n] == -1
    else s <= t[n] <= Source(n, s, e) && t[n] < |slots| && slots[t[n]].pre == out[n]
  }

  lemma {:induction false} NearUsed(slots: seq<Slot>, out: seq<Chat>, t: seq<int>, s: nat, e: nat, n: nat)
    requires n < |t| == |out| && s <= e && forall i :: 0 <= i < n ==> Near(slots, out, t, s, e, i)
    ensures n != s ==> Source(n, s, e) !in Used(t[..n])
    ensures forall x: nat :: x < n && x < s ==> x in Used(t[..n])
  {
    forall i | 0 <= i < n ensures n != s ==> t[..n][i] != Source(n, s, e) { assert Near(slots, out, t, s, e, i); }
    forall x: nat | x < n && x < s ensures x in Used(t[..n]) {
      assert Near(slots, out, t, s, e, x);
      assert t[..n][x] == x;
    }
  }

  lemma {:induction false} NextNear(msgs: seq<Message>, slots: seq<Slot>, out: seq<Chat>, t: seq<int>, s: nat, e: nat, n: nat)
    requires Replaced(slots, out, s, e) && OwnCalls(msgs, slots) && t == Trace(msgs, slots, out, |out|) && n < |out|
    requires forall i :: 0 <= i < n ==> Near(slots, out, t, s, e, i)
    ensures Near(slots, out, t, s, e, n)
  {
    var used := Used(t[..n]);
    TraceAt(msgs, slots, out, n, t);
    if n == s {
      NoneEqual(slots, used, out[s], 0);
    } else {
      assert FromSlot(slots, out, s, e, n);
      var k: nat := Source(n, s, e);
      NearUsed(slots, out, t, s, e, n);
      assert OwnCall(msgs, slots, slots[k].pre, k);
      FirstEqualIsFirst(slots, used, out[n], 0, k);
    }
  }

  lemma {:induction false} AllNear(msgs: seq<Message>, slots: seq<Slot>, out: seq<Chat>, t: seq<int>, s: nat, e: nat, n: nat)
    requires Replaced(slots, out, s, e) && OwnCalls(msgs, slots) && t == Trace(msgs, slots, out, |out|) && n <= |out|
    ensures forall i :: 0 <= i < n ==> Near(slots, out, t, s, e, i)
  {
    if n > 0 {
      AllNear(msgs, slots, out, t, s, e, n - 1);
      NextNear(msgs, slots, out, t, s, e, n - 1);
    }
  }

  // One that does not recur is matched to its own slot.
  lemma {:induction false} OwnUnlessRecurs(msgs: seq<Message>, slots: seq<Slot>, out: seq<Chat>, t: seq<int>, s: nat, e: nat, n: nat)
    requires Replaced(slots, out, s, e) && t == Trace(msgs, slots, out, |out|) && s < n < |out|
    requires (forall i :: 0 <= i < |out| ==> Near(slots, out, t, s, e, i)) && !Recurs(slots, s, e, Source(n, s, e))
    ensures t[n] == Source(n, s, e)
  {
    assert Near(slots, out, t, s, e, n) && FromSlot(slots, out, s, e, n);
    if t[n] != Source(n, s, e) {
      assert e <= t[n];
      var i: nat := t[n] - e + s + 1;
      assert FromSlot(slots, out, s, e, i) && Source(i, s, e) == t[n];
      OwnUnlessRecurs(msgs, slots, out, t, s, e, i);
      SlotsMatchOnce(msgs, slots, out, t, i, n);
      assert false;
    }
  }

  lemma {:induction false} TraceExpected(msgs: seq<Message>, slots: seq<Slot>, out: seq<Chat>, t: seq<int>, s: nat, e: nat)
    requires Replaced(slots, out, s, e) && OwnCalls(msgs, slots) && NoneRecurs(slots, s, e) && t == Trace(msgs, slots, out, |out|)
    ensures t == Expected(slots, out, s, e)
  {
    AllNear(msgs, slots, out, t, s, e, |out|);
    forall n | 0 <= n < |out| ensures t[n] == Expected(slots, out, s, e)[n] {
      assert Near(slots, out, t, s, e, n) && FromSlot(slots, out, s, e, n);
      if n > s { OwnUnlessRecurs(msgs, slots, out, t, s, e, n); }
    }
  }

  // ---- Where one recurs, a cut message comes back ------------------------------------------------------------------

  lemma {:induction false} FirstRecurring(slots: seq<Slot>, s: nat, e: nat, k: nat) returns (first: nat)
    requires e <= k < |slots| && Recurs(slots, s, e, k)
    ensures e <= first < |slots| && Recurs(slots, s, e, first) && forall x :: e <= x < first ==> !Recurs(slots, s, e, x)
  {
    first := k;
    if x :| e <= x < k && Recurs(slots, s, e, x) { first := FirstRecurring(slots, s, e, x); }
  }

  // The first that recurs takes a slot of the span.
  lemma {:induction false} RecurringTakesCut(msgs: seq<Message>, slots: seq<Slot>, out: seq<Chat>, t: seq<int>, s: nat, e: nat, n: nat, j: nat)
    requires Replaced(slots, out, s, e) && OwnCalls(msgs, slots) && t == Trace(msgs, slots, out, |out|)
    requires (forall i :: 0 <= i < |out| ==> Near(slots, out, t, s, e, i)) && s < n < |out|
    requires s <= j < e && slots[j].pre == out[n] && forall x :: e <= x < Source(n, s, e) && x < |slots| ==> !Recurs(slots, s, e, x)
    ensures s <= t[n] < e
  {
    assert Near(slots, out, t, s, e, n);
    CutIsUnused(msgs, slots, out, t, s, e, n, j);
    CutHasNoCall(msgs, slots, out, s, e, n, j);
    TraceAt(msgs, slots, out, n, t);
    FirstEqualIsFirst(slots, Used(t[..n]), out[n], 0, j);
  }

  lemma {:induction false} CutHasNoCall(msgs: seq<Message>, slots: seq<Slot>, out: seq<Chat>, s: nat, e: nat, n: nat, j: nat)
    requires Replaced(slots, out, s, e) && OwnCalls(msgs, slots) && s < n < |out| && s <= j < e && slots[j].pre == out[n]
    ensures ToolSlot(msgs, slots, out[n]) == -1
  {
    assert FromSlot(slots, out, s, e, n);
    var k: nat := Source(n, s, e);
    assert OwnCall(msgs, slots, slots[j].pre, j) && OwnCall(msgs, slots, slots[k].pre, k);
  }

  lemma {:induction false} CutIsUnused(msgs: seq<Message>, slots: seq<Slot>, out: seq<Chat>, t: seq<int>, s: nat, e: nat, n: nat, j: nat)
    requires Replaced(slots, out, s, e) && t == Trace(msgs, slots, out, |out|) && s < n < |out| && s <= j < e
    requires forall i :: 0 <= i < |out| ==> Near(slots, out, t, s, e, i)
    requires forall x :: e <= x < Source(n, s, e) && x < |slots| ==> !Recurs(slots, s, e, x)
    ensures j !in Used(t[..n])
  {
    if j in Used(t[..n]) {
      var i :| 0 <= i < n && t[..n][i] == j;
      assert Near(slots, out, t, s, e, i);
      if i > s { OwnUnlessRecurs(msgs, slots, out, t, s, e, i); }
      assert false;
    }
  }

  lemma {:induction false} CutIsMatched(msgs: seq<Message>, slots: seq<Slot>, out: seq<Chat>, t: seq<int>, s: nat, e: nat) returns (n: nat)
    requires Replaced(slots, out, s, e) && OwnCalls(msgs, slots) && t == Trace(msgs, slots, out, |out|) && !NoneRecurs(slots, s, e)
    ensures s < n < |out| && s <= t[n] < e
  {
    var k: nat :| e <= k < |slots| && Recurs(slots, s, e, k);
    k := FirstRecurring(slots, s, e, k);
    n := k - e + s + 1;
    var j: nat :| s <= j < e && slots[j].pre == slots[k].pre;
    AllNear(msgs, slots, out, t, s, e, |out|);
    assert FromSlot(slots, out, s, e, n);
    RecurringTakesCut(msgs, slots, out, t, s, e, n, j);
  }

  // ---- Body messages come out in order -------------------------------------------------------------------------

  // Slots go through the body messages one by one, leaving none out.
  ghost predicate InStep(slots: seq<Slot>) {
    forall k :: 0 <= k < |slots| ==> Follows(slots, k)
  }

  predicate Follows(slots: seq<Slot>, k: nat)
    requires k < |slots|
  {
    if k == 0 then slots[0].bi == 0 else slots[k - 1].bi <= slots[k].bi <= slots[k - 1].bi + 1
  }

  function Keeps(lo: nat, hi: nat): (parts: seq<Part>)
    requires lo <= hi
    ensures |parts| == hi - lo
  {
    seq(hi - lo, x requires 0 <= x < hi - lo => Kept(lo + x))
  }

  lemma {:induction false} KeepsOneMore(lo: nat, hi: nat)
    requires lo <= hi
    ensures Keeps(lo, hi + 1) == Keeps(lo, hi) + [Kept(hi)]
  {
  }

  lemma {:induction false} Climbs(slots: seq<Slot>, i: nat, j: nat)
    requires InStep(slots) && i <= j < |slots|
    ensures slots[i].bi <= slots[j].bi
    decreases j
  {
    assert Follows(slots, j);
    if i < j { Climbs(slots, i, j - 1); }
  }

  // How many body messages the first n slots reach.
  function Reach(slots: seq<Slot>, n: nat): nat
    requires n <= |slots|
  {
    if n == 0 then 0 else slots[n - 1].bi + 1
  }

  lemma {:induction false} SeenEarly(slots: seq<Slot>, t: seq<int>, n: nat)
    requires InStep(slots) && n < |t| && n < |slots| && forall i :: 0 <= i <= n ==> t[i] == i
    ensures Seen(slots, t, n, slots[n].bi) <==> slots[n].bi < Reach(slots, n)
  {
    assert Follows(slots, n);
    if n > 0 && slots[n].bi == slots[n - 1].bi { assert OfMessage(slots, t, n - 1, slots[n].bi); }
    if Seen(slots, t, n, slots[n].bi) {
      var j :| 0 <= j < n && OfMessage(slots, t, j, slots[n].bi);
      Climbs(slots, j, n - 1);
      Climbs(slots, n - 1, n);
    }
  }

  lemma {:induction false} EarlyEmission(slots: seq<Slot>, out: seq<Chat>, t: seq<int>, n: nat)
    requires InStep(slots) && n <= |slots| && n <= |t| == |out| && forall i :: 0 <= i < n ==> t[i] == i
    ensures Emission(slots, out, t, n) == Keeps(0, Reach(slots, n))
  {
    if n > 0 {
      EarlyEmission(slots, out, t, n - 1);
      SeenEarly(slots, t, n - 1);
      assert Follows(slots, n - 1);
      KeepsOneMore(0, Reach(slots, n - 1));
    }
  }

  // The span ends where a body message does.
  ghost predicate EndsWhole(slots: seq<Slot>, s: nat, e: nat) {
    && InStep(slots) && s <= e <= |slots|
    && Reach(slots, s) <= Reach(slots, e) && (e < |slots| ==> slots[e].bi == Reach(slots, e))
  }

  // Whether the message of the m-th slot past the span was seen, all slots before the span having reached less.
  lemma {:induction false} SeenLate(slots: seq<Slot>, out: seq<Chat>, t: seq<int>, s: nat, e: nat, m: nat)
    requires EndsWhole(slots, s, e) && |out| == s + 1 + (|slots| - e) && t == Expected(slots, out, s, e) && e + m < |slots|
    ensures Seen(slots, t, s + 1 + m, slots[e + m].bi) <==> slots[e + m].bi < Reach(slots, e + m)
  {
    var k, n := e + m, s + 1 + m;
    assert Follows(slots, k);
    if m > 0 && slots[k].bi == slots[k - 1].bi { assert OfMessage(slots, t, n - 1, slots[k].bi); }
    if Seen(slots, t, n, slots[k].bi) {
      var j :| 0 <= j < n && OfMessage(slots, t, j, slots[k].bi);
      Climbs(slots, e, k);
      if j < s { Climbs(slots, j, s - 1); } else { Climbs(slots, Source(j, s, e), k - 1); }
    }
  }

  lemma {:induction false} EmissionStep(slots: seq<Slot>, out: seq<Chat>, t: seq<int>, n: nat, k: nat, front: seq<Part>, lo: nat)
    requires n < |t| == |out| && t[n] == k < |slots| && lo <= Reach(slots, k) && (k > 0 ==> slots[k].bi >= slots[k - 1].bi)
    requires slots[k].bi <= Reach(slots, k) && (Seen(slots, t, n, slots[k].bi) <==> slots[k].bi < Reach(slots, k))
    requires Emission(slots, out, t, n) == front + Keeps(lo, Reach(slots, k))
    ensures lo <= Reach(slots, k + 1) && Emission(slots, out, t, n + 1) == front + Keeps(lo, Reach(slots, k + 1))
  {
    KeepsOneMore(lo, Reach(slots, k));
    Assoc(front, Keeps(lo, Reach(slots, k)), [Kept(slots[k].bi)]);
  }

  lemma {:induction false} LateStart(slots: seq<Slot>, out: seq<Chat>, t: seq<int>, s: nat, e: nat, at: nat)
    requires EndsWhole(slots, s, e) && |out| == s + 1 + (|slots| - e) && t == Expected(slots, out, s, e)
    ensures Emission(slots, out, t, s + 1) == Keeps(0, Reach(slots, s)) + [New(out[s])] + Keeps(at, at)
  {
    EarlyEmission(slots, out, t, s);
  }

  lemma {:induction false} LateEmission(slots: seq<Slot>, out: seq<Chat>, t: seq<int>, s: nat, e: nat, m: nat, front: seq<Part>)
    requires EndsWhole(slots, s, e) && |out| == s + 1 + (|slots| - e) && t == Expected(slots, out, s, e) && e + m <= |slots|
    requires Emission(slots, out, t, s + 1) == front + Keeps(Reach(slots, e), Reach(slots, e))
    ensures Reach(slots, e) <= Reach(slots, e + m)
    ensures Emission(slots, out, t, s + 1 + m) == front + Keeps(Reach(slots, e), Reach(slots, e + m))
  {
    if m > 0 {
      LateEmission(slots, out, t, s, e, m - 1, front);
      LateStep(slots, out, t, s, e, m - 1, front);
    }
  }

  lemma {:induction false} LateStep(slots: seq<Slot>, out: seq<Chat>, t: seq<int>, s: nat, e: nat, m: nat, front: seq<Part>)
    requires EndsWhole(slots, s, e) && |out| == s + 1 + (|slots| - e) && t == Expected(slots, out, s, e) && e + m < |slots|
    requires Reach(slots, e) <= Reach(slots, e + m)
    requires Emission(slots, out, t, s + 1 + m) == front + Keeps(Reach(slots, e), Reach(slots, e + m))
    ensures Reach(slots, e) <= Reach(slots, e + m + 1)
    ensures Emission(slots, out, t, s + 1 + m + 1) == front + Keeps(Reach(slots, e), Reach(slots, e + m + 1))
  {
    SeenLate(slots, out, t, s, e, m);
    assert Follows(slots, e + m);
    EmissionStep(slots, out, t, s + 1 + m, e + m, front, Reach(slots, e));
  }

  // ---- The theorem ---------------------------------------------------------------------------------------------

  ghost predicate AllSeen(d: Dialect, msgs: seq<Message>) {
    forall i: nat :: i < |msgs| ==> MessageSlots(d)(i, msgs[i]) != []
  }

  // Each message has slots, all of its own number.
  predicate OwnSlots(own: seq<Slot>, i: nat) {
    own != [] && forall j :: 0 <= j < |own| ==> own[j].bi == i
  }

  ghost predicate Numbered(f: (nat, Message) -> seq<Slot>, msgs: seq<Message>) {
    forall i: nat :: i < |msgs| ==> OwnSlots(f(i, msgs[i]), i)
  }

  lemma {:induction false} NormalizedNumbered(d: Dialect, msgs: seq<Message>)
    requires AllSeen(d, msgs)
    ensures Numbered(MessageSlots(d), msgs)
  {
    forall i: nat | i < |msgs| ensures OwnSlots(MessageSlots(d)(i, msgs[i]), i) {
      forall j | 0 <= j < |MessageSlots(d)(i, msgs[i])| ensures MessageSlots(d)(i, msgs[i])[j].bi == i { OwnMessage(d, i, msgs[i], j); }
    }
  }

  lemma {:induction false} SlotAt(f: (nat, Message) -> seq<Slot>, msgs: seq<Message>, i: nat, j: nat)
    requires Numbered(f, msgs) && i < |msgs| && j < |f(i, msgs[i])|
    ensures Off(f, msgs, i) + j < Off(f, msgs, |msgs|) && Flat(f, msgs, |msgs|)[Off(f, msgs, i) + j].bi == i
  {
    FlatAt(f, msgs, |msgs|, i, j);
  }

  lemma {:induction false} SlotStep(f: (nat, Message) -> seq<Slot>, msgs: seq<Message>, k: nat)
    requires Numbered(f, msgs) && 0 < k < Off(f, msgs, |msgs|)
    ensures Flat(f, msgs, |msgs|)[k - 1].bi <= Flat(f, msgs, |msgs|)[k].bi <= Flat(f, msgs, |msgs|)[k - 1].bi + 1
  {
    var i, j := FlatOwner(f, msgs, |msgs|, k - 1);
    SlotAt(f, msgs, i, j);
    if j + 1 < |f(i, msgs[i])| {
      SlotAt(f, msgs, i, j + 1);
    } else if i + 1 < |msgs| {
      SlotAt(f, msgs, i + 1, 0);
    }
  }

  lemma {:induction false} SlotsInStep(f: (nat, Message) -> seq<Slot>, msgs: seq<Message>)
    requires Numbered(f, msgs)
    ensures InStep(Flat(f, msgs, |msgs|))
  {
    var slots := Flat(f, msgs, |msgs|);
    if |msgs| > 0 { SlotAt(f, msgs, 0, 0); }
    forall k | 0 <= k < |slots| ensures Follows(slots, k) {
      if k > 0 { SlotStep(f, msgs, k); } else { var i, j := FlatOwner(f, msgs, |msgs|, 0); }
    }
  }

  // The slots of the first i messages reach exactly those.
  lemma {:induction false} ReachOf(f: (nat, Message) -> seq<Slot>, msgs: seq<Message>, i: nat)
    requires Numbered(f, msgs) && i <= |msgs|
    ensures var slots, n := Flat(f, msgs, |msgs|), Off(f, msgs, i);
      n <= |slots| && Reach(slots, n) == i && (n < |slots| ==> slots[n].bi == i)
  {
    FlatPrefix(f, msgs, i, |msgs|);
    if i > 0 { SlotAt(f, msgs, i - 1, |f(i - 1, msgs[i - 1])| - 1); }
    if i < |msgs| { SlotAt(f, msgs, i, 0); }
  }

  lemma {:induction false} NeverDeclines(msgs: seq<Message>, slots: seq<Slot>, out: seq<Chat>, n: nat)
    requires Within(slots, |msgs|) && n <= |out|
    ensures After(msgs, slots, out, n).Some?
  {
    if n > 0 { NeverDeclines(msgs, slots, out, n - 1); }
  }

  function Bodies(msgs: seq<Message>): (out: seq<Wired>)
    ensures |out| == |msgs|
  {
    seq(|msgs|, i requires 0 <= i < |msgs| => FromBody(msgs[i]))
  }

  lemma {:induction false} NormalizedFacts(d: Dialect, msgs: seq<Message>)
    ensures Within(Slots(d, msgs), |msgs|) && StringsPointed(msgs, Slots(d, msgs))
  {
    var slots := Slots(d, msgs);
    forall k | 0 <= k < |slots| ensures slots[k].bi < |msgs| { var i, j := SlotsWithin(d, msgs, k); }
    forall k | 0 <= k < |slots| && slots[k].field.ToolStr? ensures PointsAtString(msgs, slots[k]) { StringSlotPoints(d, msgs, k); }
  }

  lemma {:induction false} AllCovered(f: (nat, Message) -> seq<Slot>, msgs: seq<Message>, slots: seq<Slot>)
    requires Numbered(f, msgs) && slots == Flat(f, msgs, |msgs|) && Within(slots, |msgs|)
    ensures |CoveredSet(slots, |slots|)| == |msgs|
  {
    forall i: nat | i < |msgs| ensures HasSlot(slots, i) {
      SlotAt(f, msgs, i, 0);
      assert slots[Off(f, msgs, i)].bi == i;
    }
    CountsOnlyWhenCovered(slots, |msgs|);
  }

  lemma {:induction false} WireKeeps(msgs: seq<Message>, a: nat, z: nat, c: Chat)
    requires a <= z <= |msgs|
    ensures WireAll(msgs, Keeps(0, a) + [New(c)] + Keeps(z, |msgs|)) == Bodies(msgs[..a]) + [Marshaled(c)] + Bodies(msgs[z..])
  {
  }

  // No text is written, so the matches alone give the array.
  lemma {:induction false} RebuiltPlain(msgs: seq<Message>, slots: seq<Slot>, out: seq<Chat>, t: seq<int>, s: nat, e: nat)
    requires Within(slots, |msgs|) && StringsPointed(msgs, slots) && OwnCalls(msgs, slots) && Replaced(slots, out, s, e)
    requires |CoveredSet(slots, |slots|)| == |msgs| && t == Trace(msgs, slots, out, |out|)
    ensures Rebuilt(msgs, slots, out) == Some(WireAll(msgs, Emission(slots, out, t, |out|)))
    ensures Wrote(msgs, slots, out, |out|) == msgs
  {
    forall i | 0 <= i < |out| ensures WriteOne(msgs, msgs, slots, out[i]) == msgs { WritesNothing(msgs, slots, out, s, e, i); }
    NothingWritten(msgs, slots, out, |out|);
    NeverDeclines(msgs, slots, out, |out|);
    StateOfTrace(msgs, slots, out, t, |out|);
  }

  // What the rebuild should emit: the body messages before a, the new message, and those from z on.
  function Wanted(msgs: seq<Message>, c: Chat, a: nat, z: nat): seq<Part>
    requires z <= |msgs|
  {
    Keeps(0, a) + [New(c)] + Keeps(z, |msgs|)
  }

  // The slots of a body whose messages all have some, and a span of whole messages.
  ghost predicate WholeSpan(f: (nat, Message) -> seq<Slot>, msgs: seq<Message>, slots: seq<Slot>, a: nat, z: nat) {
    Numbered(f, msgs) && slots == Flat(f, msgs, |msgs|) && a <= z <= |msgs|
  }

  lemma {:induction false} SpanEndsWhole(f: (nat, Message) -> seq<Slot>, msgs: seq<Message>, slots: seq<Slot>, a: nat, z: nat, s: nat, e: nat)
    requires WholeSpan(f, msgs, slots, a, z) && s == Off(f, msgs, a) && e == Off(f, msgs, z) && s <= e
    ensures EndsWhole(slots, s, e) && Reach(slots, s) == a && Reach(slots, e) == z && Reach(slots, |slots|) == |msgs|
  {
    SlotsInStep(f, msgs);
    ReachOf(f, msgs, a);
    ReachOf(f, msgs, z);
    ReachOf(f, msgs, |msgs|);
  }

  lemma {:induction false} ExpectedIsWanted(f: (nat, Message) -> seq<Slot>, msgs: seq<Message>, slots: seq<Slot>, out: seq<Chat>, a: nat, z: nat, s: nat, e: nat)
    requires WholeSpan(f, msgs, slots, a, z) && s == Off(f, msgs, a) && e == Off(f, msgs, z) && Replaced(slots, out, s, e)
    ensures Emission(slots, out, Expected(slots, out, s, e), |out|) == Wanted(msgs, out[s], a, z)
  {
    SpanEndsWhole(f, msgs, slots, a, z, s, e);
    LateStart(slots, out, Expected(slots, out, s, e), s, e, z);
    LateEmission(slots, out, Expected(slots, out, s, e), s, e, |slots| - e, Keeps(0, a) + [New(out[s])]);
  }

  lemma {:induction false} InsideSpan(f: (nat, Message) -> seq<Slot>, msgs: seq<Message>, slots: seq<Slot>, a: nat, z: nat, k: nat)
    requires WholeSpan(f, msgs, slots, a, z) && Off(f, msgs, a) <= k < Off(f, msgs, z)
    ensures k < |slots| && a <= slots[k].bi < z
  {
    SlotsInStep(f, msgs);
    ReachOf(f, msgs, a);
    ReachOf(f, msgs, z);
    Climbs(slots, Off(f, msgs, a), k);
    Climbs(slots, k, Off(f, msgs, z) - 1);
  }

  lemma {:induction false} CutComesBack(f: (nat, Message) -> seq<Slot>, msgs: seq<Message>, slots: seq<Slot>, out: seq<Chat>, t: seq<int>, a: nat, z: nat, s: nat, e: nat) returns (bi: nat)
    requires WholeSpan(f, msgs, slots, a, z) && s == Off(f, msgs, a) && e == Off(f, msgs, z) && Replaced(slots, out, s, e)
    requires OwnCalls(msgs, slots) && t == Trace(msgs, slots, out, |out|) && !NoneRecurs(slots, s, e)
    ensures a <= bi < z && Kept(bi) in Emission(slots, out, t, |out|)
  {
    var n := CutIsMatched(msgs, slots, out, t, s, e);
    InsideSpan(f, msgs, slots, a, z, t[n]);
    bi := slots[t[n]].bi;
    assert OfMessage(slots, t, n, bi);
    KeptExactlySurvivors(slots, out, t, |out|);
  }

  lemma {:induction false} NotWanted(msgs: seq<Message>, c: Chat, a: nat, z: nat, bi: nat)
    requires a <= bi < z <= |msgs|
    ensures Kept(bi) !in Wanted(msgs, c, a, z)
  {
  }

  // What the span theorems ask: all messages seen, each call its own, and one new message for those in a..z.
  ghost predicate Summarized(d: Dialect, msgs: seq<Message>, out: seq<Chat>, a: nat, z: nat) {
    && AllSeen(d, msgs) && a <= z <= |msgs| && OwnCalls(msgs, Slots(d, msgs))
    && Replaced(Slots(d, msgs), out, Off(MessageSlots(d), msgs, a), Off(MessageSlots(d), msgs, z))
  }

  lemma {:induction false} SummarizedFacts(d: Dialect, msgs: seq<Message>, out: seq<Chat>, a: nat, z: nat)
    requires Summarized(d, msgs, out, a, z)
    ensures WholeSpan(MessageSlots(d), msgs, Slots(d, msgs), a, z)
    ensures Rebuilt(msgs, Slots(d, msgs), out) ==
      Some(WireAll(msgs, Emission(Slots(d, msgs), out, Trace(msgs, Slots(d, msgs), out, |out|), |out|)))
    ensures Wrote(msgs, Slots(d, msgs), out, |out|) == msgs
  {
    NormalizedFacts(d, msgs);
    NormalizedNumbered(d, msgs);
    AllCovered(MessageSlots(d), msgs, Slots(d, msgs));
    RebuiltPlain(msgs, Slots(d, msgs), out, Trace(msgs, Slots(d, msgs), out, |out|), Off(MessageSlots(d), msgs, a), Off(MessageSlots(d), msgs, z));
  }

  /**
   * One new message in the place of the body messages a..z, the rest untouched. The rebuild emits the body
   * messages before a, the new message and the body messages from z on if and only if no message after the
   * span reads the same as one inside it; where one does, a message that was cut is emitted again.
   */
  lemma {:induction false} SpanIsReplacedIff(d: Dialect, msgs: seq<Message>, out: seq<Chat>, a: nat, z: nat) returns (parts: seq<Part>)
    requires Summarized(d, msgs, out, a, z)
    ensures Rebuilt(msgs, Slots(d, msgs), out) == Some(WireAll(msgs, parts))
    ensures var slots, s, e := Slots(d, msgs), Off(MessageSlots(d), msgs, a), Off(MessageSlots(d), msgs, z);
      && After(msgs, slots, out, |out|).Some? && parts == After(msgs, slots, out, |out|).value.parts
      && (parts == Wanted(msgs, out[s], a, z) <==> NoneRecurs(slots, s, e))
      && (!NoneRecurs(slots, s, e) ==> exists bi :: a <= bi < z && Kept(bi) in parts)
  {
    SummarizedFacts(d, msgs, out, a, z);
    var slots, s, e := Slots(d, msgs), Off(MessageSlots(d), msgs, a), Off(MessageSlots(d), msgs, z);
    var t := Trace(msgs, slots, out, |out|);
    parts := Emission(slots, out, t, |out|);
    StateOfTrace(msgs, slots, out, t, |out|) by { NormalizedFacts(d, msgs); NeverDeclines(msgs, slots, out, |out|); }
    if NoneRecurs(slots, s, e) {
      TraceExpected(msgs, slots, out, t, s, e);
      ExpectedIsWanted(MessageSlots(d), msgs, slots, out, a, z, s, e);
    } else {
      var bi := CutComesBack(MessageSlots(d), msgs, slots, out, t, a, z, s, e);
      NotWanted(msgs, out[s], a, z, bi);
    }
  }

  // ---- On the wire ------------------------------------------------------------------------------------------------

  // The slot is the only one of its message.
  ghost predicate Alone(slots: seq<Slot>, k: nat)
    requires k < |slots|
  {
    forall x :: 0 <= x < |slots| && slots[x].bi == slots[k].bi ==> x == k
  }

  // Two slots, each the whole of what is shown of its message, on messages of the same bytes.
  ghost predicate Twins(msgs: seq<Message>, slots: seq<Slot>, j: nat, k: nat)
    requires j < |slots| && k < |slots|
  {
    && Alone(slots, j) && Alone(slots, k)
    && slots[j].bi < |msgs| && slots[k].bi < |msgs| && msgs[slots[j].bi] == msgs[slots[k].bi]
  }

  // A message after the span reads as one inside it only where it is its twin.
  ghost predicate OnlyTwinsRecur(msgs: seq<Message>, slots: seq<Slot>, s: nat, e: nat)
    requires e <= |slots|
  {
    forall j, k :: s <= j < e <= k < |slots| && slots[j].pre == slots[k].pre ==> Twins(msgs, slots, j, k)
  }

  // Each survivor is matched to its own slot or to a twin of it.
  ghost predicate OwnOrTwin(msgs: seq<Message>, slots: seq<Slot>, t: seq<int>, u: seq<int>, n: nat)
    requires n < |t| == |u|
  {
    t[n] == u[n] || (0 <= t[n] < |slots| && 0 <= u[n] < |slots| && Twins(msgs, slots, t[n], u[n]))
  }

  lemma {:induction false} MatchesOwnOrTwin(msgs: seq<Message>, slots: seq<Slot>, out: seq<Chat>, t: seq<int>, s: nat, e: nat, n: nat)
    requires Replaced(slots, out, s, e) && t == Trace(msgs, slots, out, |out|) && n < |out|
    requires (forall i :: 0 <= i < |out| ==> Near(slots, out, t, s, e, i)) && OnlyTwinsRecur(msgs, slots, s, e)
    ensures OwnOrTwin(msgs, slots, t, Expected(slots, out, s, e), n)
  {
    assert Near(slots, out, t, s, e, n) && FromSlot(slots, out, s, e, n);
    if n > s {
      var k: nat := Source(n, s, e);
      if !Recurs(slots, s, e, k) {
        OwnUnlessRecurs(msgs, slots, out, t, s, e, n);
      } else if t[n] >= e {
        var j :| s <= j < e && slots[j].pre == slots[k].pre;
        assert Twins(msgs, slots, j, k) && Twins(msgs, slots, j, t[n]);
      }
    }
  }

  // No slot but -1 is listed twice.
  ghost predicate Distinct(t: seq<int>) {
    forall i, j :: 0 <= i < j < |t| && t[i] >= 0 ==> t[i] != t[j]
  }

  lemma {:induction false} SeenAlike(msgs: seq<Message>, slots: seq<Slot>, t: seq<int>, u: seq<int>, n: nat)
    requires n < |t| == |u| && Distinct(t) && (forall i :: 0 <= i < |t| ==> OwnOrTwin(msgs, slots, t, u, i))
    requires 0 <= t[n] < |slots| && 0 <= u[n] < |slots| && Distinct(u)
    ensures Seen(slots, t, n, slots[t[n]].bi) ==> Seen(slots, u, n, slots[u[n]].bi)
  {
    if Seen(slots, t, n, slots[t[n]].bi) {
      var j :| 0 <= j < n && OfMessage(slots, t, j, slots[t[n]].bi);
      assert OwnOrTwin(msgs, slots, t, u, j) && OwnOrTwin(msgs, slots, t, u, n);
      assert t[j] != t[n];
      assert OfMessage(slots, u, j, slots[u[n]].bi);
    }
  }

  lemma {:induction false} TwinsSwap(msgs: seq<Message>, slots: seq<Slot>, t: seq<int>, u: seq<int>)
    requires |t| == |u| && forall i :: 0 <= i < |t| ==> OwnOrTwin(msgs, slots, t, u, i)
    ensures forall i :: 0 <= i < |t| ==> OwnOrTwin(msgs, slots, u, t, i)
  {
    forall i | 0 <= i < |t| ensures OwnOrTwin(msgs, slots, u, t, i) { assert OwnOrTwin(msgs, slots, t, u, i); }
  }

  lemma {:induction false} WireOneMore(msgs: seq<Message>, parts: seq<Part>, p: Part)
    ensures WireAll(msgs, parts + [p]) == WireAll(msgs, parts) + [Wire(msgs, p)]
  {
  }

  // Matches that differ only by twins give the same array.
  lemma {:induction false} WiredAlike(msgs: seq<Message>, slots: seq<Slot>, out: seq<Chat>, t: seq<int>, u: seq<int>, n: nat)
    requires n <= |t| == |u| == |out| && Distinct(t) && Distinct(u)
    requires forall i :: 0 <= i < |t| ==> OwnOrTwin(msgs, slots, t, u, i)
    ensures WireAll(msgs, Emission(slots, out, t, n)) == WireAll(msgs, Emission(slots, out, u, n))
  {
    if n > 0 {
      WiredAlike(msgs, slots, out, t, u, n - 1);
      assert OwnOrTwin(msgs, slots, t, u, n - 1);
      if 0 <= t[n - 1] < |slots| && 0 <= u[n - 1] < |slots| {
        SeenAlike(msgs, slots, t, u, n - 1);
        TwinsSwap(msgs, slots, t, u);
        SeenAlike(msgs, slots, u, t, n - 1);
        WireOneMore(msgs, Emission(slots, out, t, n - 1), Kept(slots[t[n - 1]].bi));
        WireOneMore(msgs, Emission(slots, out, u, n - 1), Kept(slots[u[n - 1]].bi));
      } else {
        WireOneMore(msgs, Emission(slots, out, t, n - 1), New(out[n - 1]));
        WireOneMore(msgs, Emission(slots, out, u, n - 1), New(out[n - 1]));
      }
    }
  }

  lemma {:induction false} ExpectedDistinct(slots: seq<Slot>, out: seq<Chat>, s: nat, e: nat)
    requires s <= e
    ensures Distinct(Expected(slots, out, s, e))
  {
  }

  /**
   * On the wire a message of the same bytes does as well as the message itself: the rebuilt array is the
   * body's own messages before a, the new message and the body's own messages from z on wherever a message
   * after the span reads as one inside it only because the two are the same, byte for byte.
   */
  lemma {:induction false} SpanIsReplacedExactly(d: Dialect, msgs: seq<Message>, out: seq<Chat>, a: nat, z: nat)
    requires Summarized(d, msgs, out, a, z)
    requires OnlyTwinsRecur(msgs, Slots(d, msgs), Off(MessageSlots(d), msgs, a), Off(MessageSlots(d), msgs, z))
    ensures Rebuilt(msgs, Slots(d, msgs), out)
         == Some(Bodies(msgs[..a]) + [Marshaled(out[Off(MessageSlots(d), msgs, a)])] + Bodies(msgs[z..]))
  {
    SummarizedFacts(d, msgs, out, a, z);
    var slots, s, e := Slots(d, msgs), Off(MessageSlots(d), msgs, a), Off(MessageSlots(d), msgs, z);
    var t, u := Trace(msgs, slots, out, |out|), Expected(slots, out, s, e);
    AllNear(msgs, slots, out, t, s, e, |out|);
    forall n | 0 <= n < |out| ensures OwnOrTwin(msgs, slots, t, u, n) { MatchesOwnOrTwin(msgs, slots, out, t, s, e, n); }
    forall i, j | 0 <= i < j < |t| && t[i] >= 0 ensures t[i] != t[j] { SlotsMatchOnce(msgs, slots, out, t, i, j); }
    ExpectedDistinct(slots, out, s, e);
    WiredAlike(msgs, slots, out, t, u, |out|);
    ExpectedIsWanted(MessageSlots(d), msgs, slots, out, a, z, s, e);
    WireKeeps(msgs, a, z, out[s]);
  }

  // ---- An input on which a cut message comes back --------------------------------------------------------------------

  // A user message that answers one call and says "r" beside it, and its two slots.
  function Reply(id: string, text: string): Message {
    Message(User, Blocks([ToolResult(id, OutStr(text), ""), TextBlock("r", "")]), "")
  }

  function ReplySlots(i: nat, id: string, text: string): seq<Slot> {
    [ToolSlotFor(i, ToolStr(0), text, id), Slot(i, SiblingText(1), "r", "", Chat(User, "r", None, ""))]
  }

  lemma {:induction false} SlotsOfReply(d: Dialect, i: nat, id: string, text: string)
    requires d.anthropic
    ensures MessageSlots(d)(i, Reply(id, text)) == ReplySlots(i, id, text)
  {
    var bs := Reply(id, text).content.bs;
    assert bs[0].ToolResult? && HasToolResult(bs);
    assert Flat(BlockSlots(i), bs, 0) == [] && Flat(BlockSlots(i), bs, 1) == [ReplySlots(i, id, text)[0]];
    assert Flat(BlockSlots(i), bs, 2) == ReplySlots(i, id, text);
  }

  lemma {:induction false} SlotsOfTwo(d: Dialect, msgs: seq<Message>, x: string, y: string)
    requires d.anthropic && msgs == [Reply("t1", x), Reply("t2", y)]
    ensures Slots(d, msgs) == ReplySlots(0, "t1", x) + ReplySlots(1, "t2", y) && AllSeen(d, msgs)
    ensures Off(MessageSlots(d), msgs, 0) == 0 && Off(MessageSlots(d), msgs, 1) == 2
  {
    SlotsOfReply(d, 0, "t1", x);
    SlotsOfReply(d, 1, "t2", y);
    assert Flat(MessageSlots(d), msgs, 0) == [] && Flat(MessageSlots(d), msgs, 1) == ReplySlots(0, "t1", x);
    assert Off(MessageSlots(d), msgs, 0) == 0;
  }

  lemma {:induction false} CallsOfTwo(msgs: seq<Message>, slots: seq<Slot>, x: string, y: string)
    requires msgs == [Reply("t1", x), Reply("t2", y)] && slots == ReplySlots(0, "t1", x) + ReplySlots(1, "t2", y)
    ensures OwnCalls(msgs, slots)
  {
    assert IDAt(msgs, slots[0]) == "t1" && IDAt(msgs, slots[1]) == "" && IDAt(msgs, slots[2]) == "t2" && IDAt(msgs, slots[3]) == "";
    assert "t1" != "t2" by { assert "t1"[1] != "t2"[1]; }
    assert SlotOfID(msgs, slots, "t1", 1) == 0;
    assert SlotOfID(msgs, slots, "t1", 2) == 0;
    assert SlotOfID(msgs, slots, "t1", 3) == 0;
    assert SlotOfID(msgs, slots, "t2", 3) == 2;
  }

  lemma {:induction false} MatchesOfTwo(msgs: seq<Message>, slots: seq<Slot>, out: seq<Chat>, t: seq<int>, x: string, y: string)
    requires slots == ReplySlots(0, "t1", x) + ReplySlots(1, "t2", y) && OwnCalls(msgs, slots)
    requires Replaced(slots, out, 0, 2) && t == Trace(msgs, slots, out, |out|)
    ensures t == [-1, 2, 1]
  {
    AllNear(msgs, slots, out, t, 0, 2, 3);
    assert Near(slots, out, t, 0, 2, 0) && Near(slots, out, t, 0, 2, 1) && Near(slots, out, t, 0, 2, 2);
    assert FromSlot(slots, out, 0, 2, 1) && FromSlot(slots, out, 0, 2, 2);
    assert "t1"[1] != "t2"[1];
    assert !Recurs(slots, 0, 2, 2);
    OwnUnlessRecurs(msgs, slots, out, t, 0, 2, 1);
    RecurringTakesCut(msgs, slots, out, t, 0, 2, 2, 1);
  }

  /**
   * The promise that the other messages keep their place fails where a sibling text recurs: of two replies
   * that end in the same words the first is cut, and its bytes come back after the second.
   */
  lemma {:induction false} CutMessageReturns(d: Dialect, x: string, y: string) returns (msgs: seq<Message>, out: seq<Chat>)
    requires d.anthropic
    ensures |msgs| == 2 && msgs[0] != msgs[1] && Summarized(d, msgs, out, 0, 1)
    ensures Rebuilt(msgs, Slots(d, msgs), out) == Some([Marshaled(out[0]), FromBody(msgs[1]), FromBody(msgs[0])])
  {
    msgs := [Reply("t1", x), Reply("t2", y)];
    SlotsOfTwo(d, msgs, x, y);
    var slots := Slots(d, msgs);
    CallsOfTwo(msgs, slots, x, y);
    out := [Chat(User, "summary", None, ""), slots[2].pre, slots[3].pre];
    assert |out[0].text| == 7 && forall i :: 0 <= i < 3 ==> FromSlot(slots, out, 0, 2, i);
    SummarizedFacts(d, msgs, out, 0, 1);
    var t := Trace(msgs, slots, out, |out|);
    MatchesOfTwo(msgs, slots, out, t, x, y);
    EmissionOfTwo(msgs, slots, out, t);
    assert "t1"[1] != "t2"[1] && msgs[0].content.bs[0].id == "t1" && msgs[1].content.bs[0].id == "t2";
  }

  lemma {:induction false} EmissionOfTwo(msgs: seq<Message>, slots: seq<Slot>, out: seq<Chat>, t: seq<int>)
    requires t == [-1, 2, 1] && |out| == 3 && |slots| == 4 && |msgs| == 2 && slots[1].bi == 0 && slots[2].bi == 1
    ensures WireAll(msgs, Emission(slots, out, t, 3)) == [Marshaled(out[0]), FromBody(msgs[1]), FromBody(msgs[0])]
  {
    assert Emission(slots, out, t, 0) == [];
    assert Emission(slots, out, t, 1) == [New(out[0])];
    assert !OfMessage(slots, t, 0, 1) && !OfMessage(slots, t, 0, 0) && !OfMessage(slots, t, 1, 0);
    assert Emission(slots, out, t, 2) == [New(out[0]), Kept(1)];
    assert Emission(slots, out, t, 3) == [New(out[0]), Kept(1), Kept(0)];
  }
}
