/**
 * What a rebuilt Messages array holds (rebuildCountChanged in apply/apply.go): the output messages in
 * order, each matched one as the body message of its slot, none twice, none without a match.
 */
module ChatEmission {
  import opened Lists
  import opened ChatRebuild

  // ---- Every message has a slot, or nothing is rebuilt --------------------------------------------------------

  ghost predicate Within(slots: seq<Slot>, n: nat) {
    forall k :: 0 <= k < |slots| ==> slots[k].bi < n
  }

  ghost predicate HasSlot(slots: seq<Slot>, i: nat) {
    exists k :: 0 <= k < |slots| && slots[k].bi == i
  }

  function Below(n: nat): set<nat> {
    if n == 0 then {} else Below(n - 1) + {n - 1}
  }

  lemma {:induction false} BelowSize(n: nat)
    ensures |Below(n)| == n
    ensures forall i: nat :: i in Below(n) <==> i < n
  {
    if n > 0 { BelowSize(n - 1); }
  }

  lemma {:induction false} SubsetFills(a: set<nat>, b: set<nat>)
    requires a <= b && |a| == |b|
    ensures a == b
  {
    var rest := b - a;
    assert b == a + rest;
    assert |b| == |a| + |rest|;
    assert rest == {};
  }

  lemma {:induction false} Covers(slots: seq<Slot>, n: nat, i: nat)
    requires n <= |slots|
    ensures i in CoveredSet(slots, n) <==> exists k :: 0 <= k < n && slots[k].bi == i
  {
    if n > 0 {
      Covers(slots, n - 1, i);
      if slots[n - 1].bi == i { assert slots[n - 1].bi == i; }
    }
  }

  // The count of covered messages is right exactly when every message is covered.
  lemma {:induction false} CountsOnlyWhenCovered(slots: seq<Slot>, n: nat)
    requires Within(slots, n)
    ensures |CoveredSet(slots, |slots|)| == n <==> forall i: nat :: i < n ==> HasSlot(slots, i)
  {
    var covered := CoveredSet(slots, |slots|);
    forall i: nat ensures i in covered <==> HasSlot(slots, i) { Covers(slots, |slots|, i); }
    BelowSize(n);
    assert covered <= Below(n);
    if |covered| == n {
      SubsetFills(covered, Below(n));
      forall i: nat | i < n ensures HasSlot(slots, i) { assert i in covered; }
    }
    if forall i: nat :: i < n ==> HasSlot(slots, i) { assert covered == Below(n); }
  }

  lemma {:induction false} SlotsWithin(d: Dialect, msgs: seq<Message>, k: nat) returns (i: nat, j: nat)
    requires k < |Slots(d, msgs)|
    ensures i < |msgs| && j < |MessageSlots(d)(i, msgs[i])| && k == Off(MessageSlots(d), msgs, i) + j
    ensures Slots(d, msgs)[k] == MessageSlots(d)(i, msgs[i])[j] && Slots(d, msgs)[k].bi == i
  {
    i, j := FlatOwner(MessageSlots(d), msgs, |msgs|, k);
    OwnMessage(d, i, msgs[i], j);
  }

  lemma {:induction false} OwnMessage(d: Dialect, i: nat, m: Message, j: nat)
    requires j < |MessageSlots(d)(i, m)|
    ensures MessageSlots(d)(i, m)[j].bi == i
  {
    if SplitSlots(d, i, m) != [] {
      var b, k := FlatOwner(BlockSlots(i), m.content.bs, |m.content.bs|, j);
      OwnBlock(i, b, m.content.bs[b], k);
    }
  }

  lemma {:induction false} OwnBlock(i: nat, b: nat, blk: Block, j: nat)
    requires j < |BlockSlots(i)(b, blk)|
    ensures BlockSlots(i)(b, blk)[j].bi == i
  {
    if blk.ToolResult? && blk.output.OutArr? {
      var k, z := FlatOwner(InnerSlots(i, b, blk.id), blk.output.bs, |blk.output.bs|, j);
    }
  }

  // A body with a message the components cannot see is never rebuilt.
  lemma {:induction false} DeclinesUncovered(d: Dialect, msgs: seq<Message>, out: seq<Chat>, i: nat)
    requires i < |msgs| && MessageSlots(d)(i, msgs[i]) == []
    ensures Rebuilt(msgs, Slots(d, msgs), out).None?
  {
    var slots := Slots(d, msgs);
    forall k | 0 <= k < |slots| ensures slots[k].bi < |msgs| && slots[k].bi != i {
      var o, j := SlotsWithin(d, msgs, k);
    }
    CountsOnlyWhenCovered(slots, |msgs|);
    assert !HasSlot(slots, i);
  }

  // ---- The matches a run makes -------------------------------------------------------------------------------

  // For each output message so far, the slot it matched, or -1.
  ghost function Trace(msgs: seq<Message>, slots: seq<Slot>, out: seq<Chat>, n: nat): (t: seq<int>)
    requires n <= |out|
    ensures |t| == n
  {
    if n == 0 then []
    else Trace(msgs, slots, out, n - 1) + [MatchOf(msgs, slots, Used(Trace(msgs, slots, out, n - 1)), out[n - 1])]
  }

  ghost function Used(t: seq<int>): set<nat> {
    set i | 0 <= i < |t| && t[i] >= 0 :: t[i]
  }

  lemma {:induction false} UsedGrows(t: seq<int>, k: int)
    ensures Used(t + [k]) == if k >= 0 then Used(t) + {k} else Used(t)
  {
    var u := t + [k];
    forall x: nat | x in Used(t) ensures x in Used(u) {
      var i :| 0 <= i < |t| && t[i] == x;
      assert u[i] == x;
    }
    assert k >= 0 ==> u[|t|] == k;
  }

  lemma {:induction false} TracePrefix(msgs: seq<Message>, slots: seq<Slot>, out: seq<Chat>, n: nat, m: nat)
    requires n <= m <= |out|
    ensures Trace(msgs, slots, out, m)[..n] == Trace(msgs, slots, out, n)
    decreases m
  {
    if n < m { TracePrefix(msgs, slots, out, n, m - 1); }
  }

  lemma {:induction false} TraceAt(msgs: seq<Message>, slots: seq<Slot>, out: seq<Chat>, n: nat, t: seq<int>)
    requires n < |out| && t == Trace(msgs, slots, out, |out|)
    ensures t[n] == MatchOf(msgs, slots, Used(t[..n]), out[n]) && t[..n + 1] == t[..n] + [t[n]]
  {
    TracePrefix(msgs, slots, out, n, |out|);
    TracePrefix(msgs, slots, out, n + 1, |out|);
    assert t[n] == t[..n + 1][n];
  }

  // What the matches alone say is emitted: a fresh message where there is none, else the body message,
  // once, at the first of its matches.
  predicate OfMessage(slots: seq<Slot>, t: seq<int>, j: nat, bi: nat)
    requires j < |t|
  {
    0 <= t[j] < |slots| && slots[t[j]].bi == bi
  }

  predicate Seen(slots: seq<Slot>, t: seq<int>, n: nat, bi: nat)
    requires n <= |t|
  {
    exists j :: 0 <= j < n && OfMessage(slots, t, j, bi)
  }

  function Emission(slots: seq<Slot>, out: seq<Chat>, t: seq<int>, n: nat): seq<Part>
    requires n <= |t| == |out|
  {
    if n == 0 then []
    else
      var before, k := Emission(slots, out, t, n - 1), t[n - 1];
      if !(0 <= k < |slots|) then before + [New(out[n - 1])]
      else if Seen(slots, t, n - 1, slots[k].bi) then before
      else before + [Kept(slots[k].bi)]
  }

  lemma {:induction false} SeenGrows(slots: seq<Slot>, t: seq<int>, n: nat, bi: nat)
    requires n < |t|
    ensures Seen(slots, t, n + 1, bi) <==> Seen(slots, t, n, bi) || OfMessage(slots, t, n, bi)
  {
    if Seen(slots, t, n, bi) {
      var j :| 0 <= j < n && OfMessage(slots, t, j, bi);
      assert OfMessage(slots, t, j, bi);
    }
    if OfMessage(slots, t, n, bi) { assert Seen(slots, t, n + 1, bi); }
  }

  ghost predicate Tells(slots: seq<Slot>, out: seq<Chat>, t: seq<int>, n: nat, st: State)
    requires n <= |t| == |out|
  {
    && st.used == Used(t[..n])
    && st.parts == Emission(slots, out, t, n)
    && forall bi: nat :: bi in st.emitted <==> Seen(slots, t, n, bi)
  }

  // The run's state is told by its matches.
  lemma {:induction false} StateOfTrace(msgs: seq<Message>, slots: seq<Slot>, out: seq<Chat>, t: seq<int>, n: nat)
    requires n <= |out| && t == Trace(msgs, slots, out, |out|) && After(msgs, slots, out, n).Some?
    ensures Tells(slots, out, t, n, After(msgs, slots, out, n).value)
  {
    if n == 0 {
      assert t[..0] == [] && Used([]) == {};
    } else {
      var st := After(msgs, slots, out, n - 1);
      StateOfTrace(msgs, slots, out, t, n - 1);
      StepOfTrace(msgs, slots, out, t, n - 1, st.value);
    }
  }

  lemma {:induction false} StepOfTrace(msgs: seq<Message>, slots: seq<Slot>, out: seq<Chat>, t: seq<int>, n: nat, st: State)
    requires n < |out| && t == Trace(msgs, slots, out, |out|)
    requires Tells(slots, out, t, n, st) && Step(msgs, slots, st, out[n]).Some?
    ensures Tells(slots, out, t, n + 1, Step(msgs, slots, st, out[n]).value)
  {
    TraceAt(msgs, slots, out, n, t);
    UsedGrows(t[..n], t[n]);
    forall bi: nat ensures Seen(slots, t, n + 1, bi) <==> Seen(slots, t, n, bi) || OfMessage(slots, t, n, bi) {
      SeenGrows(slots, t, n, bi);
    }
  }

  // ---- What the emission holds ---------------------------------------------------------------------------------

  ghost predicate KeptOnce(parts: seq<Part>) {
    forall p, q :: 0 <= p < q < |parts| && parts[p].Kept? ==> parts[p] != parts[q]
  }

  // A body message is in the emission exactly when one of its slots was matched, and then once.
  lemma {:induction false} KeptExactlySurvivors(slots: seq<Slot>, out: seq<Chat>, t: seq<int>, n: nat)
    requires n <= |t| == |out|
    ensures KeptOnce(Emission(slots, out, t, n))
    ensures forall bi: nat :: Kept(bi) in Emission(slots, out, t, n) <==> Seen(slots, t, n, bi)
  {
    if n > 0 {
      KeptExactlySurvivors(slots, out, t, n - 1);
      forall bi: nat ensures Seen(slots, t, n, bi) <==> Seen(slots, t, n - 1, bi) || OfMessage(slots, t, n - 1, bi) {
        SeenGrows(slots, t, n - 1, bi);
      }
      var before, after := Emission(slots, out, t, n - 1), Emission(slots, out, t, n);
      forall p: Part ensures p in after <==> p in before || (|after| > |before| && p == after[|before|]) {
        if |after| > |before| { assert after == before + [after[|before|]]; }
      }
    }
  }

  // No slot is matched twice.
  lemma {:induction false} SlotsMatchOnce(msgs: seq<Message>, slots: seq<Slot>, out: seq<Chat>, t: seq<int>, i: nat, j: nat)
    requires i < j < |out| && t == Trace(msgs, slots, out, |out|) && t[i] >= 0
    ensures t[i] != t[j]
  {
    TraceAt(msgs, slots, out, j, t);
    assert t[..j][i] == t[i];
  }

  /**
   * A rebuild that succeeds emits the output in order: an output message that matched no slot is marshaled
   * in its place, one that did stands as the slot's body message, at the first match of that message; a body
   * message is there exactly when one of its slots was matched, once, and no slot is matched twice.
   * ChatSurvivors says from the input which slots those are.
   */
  lemma {:induction false} RebuiltInOrder(msgs: seq<Message>, slots: seq<Slot>, out: seq<Chat>, t: seq<int>, parts: seq<Part>)
    requires Rebuilt(msgs, slots, out).Some?
    requires t == Trace(Wrote(msgs, slots, out, |out|), slots, out, |out|) && parts == Emission(slots, out, t, |out|)
    ensures Rebuilt(msgs, slots, out).value == WireAll(Wrote(msgs, slots, out, |out|), parts)
    ensures KeptOnce(parts) && forall bi: nat :: Kept(bi) in parts <==> Seen(slots, t, |out|, bi)
    ensures forall i, j :: 0 <= i < j < |t| && t[i] >= 0 ==> t[i] != t[j]
  {
    var written := Wrote(msgs, slots, out, |out|);
    StateOfTrace(written, slots, out, t, |out|);
    KeptExactlySurvivors(slots, out, t, |out|);
    forall i, j | 0 <= i < j < |t| && t[i] >= 0 ensures t[i] != t[j] { SlotsMatchOnce(written, slots, out, t, i, j); }
  }

  lemma {:induction false} FirstEqualFinds(slots: seq<Slot>, used: set<nat>, c: Chat, k: nat, m: nat)
    requires k <= m < |slots| && m !in used && slots[m].pre == c
    ensures FirstEqual(slots, used, c, k) >= 0
    decreases m - k
  {
    if k < m { FirstEqualFinds(slots, used, c, k + 1, m); }
  }

  // A survivor is recognized by its id or its bytes; a message marshaled fresh has no slot left to match.
  lemma {:induction false} MatchesAreRight(msgs: seq<Message>, slots: seq<Slot>, out: seq<Chat>, t: seq<int>, i: nat)
    requires i < |out| && t == Trace(msgs, slots, out, |out|)
    ensures -1 <= t[i] < |slots|
    ensures t[i] >= 0 ==> slots[t[i]].pre == out[i] || ToolSlot(msgs, slots, out[i]) == t[i]
    ensures t[i] < 0 ==> ToolSlot(msgs, slots, out[i]) < 0 || ToolSlot(msgs, slots, out[i]) in Used(t[..i])
    ensures t[i] < 0 ==> forall k :: 0 <= k < |slots| && slots[k].pre == out[i] ==> k in Used(t[..i])
  {
    TraceAt(msgs, slots, out, i, t);
    if t[i] < 0 {
      forall k | 0 <= k < |slots| && slots[k].pre == out[i] ensures k in Used(t[..i]) {
        if k !in Used(t[..i]) { FirstEqualFinds(slots, Used(t[..i]), out[i], 0, k); }
      }
    }
  }
}
