/**
 * Where a request's cache breakpoints sit (schema/breakpoints.go), told place by place: the count the cap
 * applies to is the number of marked places.
 */
module MarkPlaces {
  import opened Lists
  import opened Wire

  // The arrays a breakpoint can sit in. A message carries one itself and on each of its content blocks.
  datatype Part = Tools | System | Messages | BlocksIn(mi: nat)

  // An entry of one of them; point says which of the two spellings.
  datatype Spot = Spot(part: Part, i: nat, point: bool)

  function FieldOf(es: seq<Elem>, i: nat, point: bool): Control {
    if i >= |es| || es[i].Bare? then Absent else if point then es[i].point else es[i].control
  }

  // The field at a place, a message having only the one spelling.
  function FieldAt(b: Body, p: Spot): Control {
    match p.part
    case Tools => FieldOf(b.tools, p.i, p.point)
    case System => FieldOf(b.system, p.i, p.point)
    case Messages => if p.i < |b.messages| && !p.point then b.messages[p.i].control else Absent
    case BlocksIn(mi) =>
      if mi < |b.messages| && b.messages[mi].content.Blocks? then FieldOf(b.messages[mi].content.bs, p.i, p.point) else Absent
  }

  // The provider sees a breakpoint there.
  predicate Marked(b: Body, p: Spot) {
    FieldAt(b, p).Mark?
  }

  // ---- The marked places, collected ----------------------------------------------------------------------------

  ghost function Fields(part: Part, es: seq<Elem>, i: nat): set<Spot> {
    (if FieldOf(es, i, false).Mark? then {Spot(part, i, false)} else {})
    + (if FieldOf(es, i, true).Mark? then {Spot(part, i, true)} else {})
  }

  ghost function ArrayPlaces(part: Part, es: seq<Elem>, n: nat): (ps: set<Spot>)
    requires n <= |es|
    ensures forall p :: p in ps <==> p.part == part && p.i < n && FieldOf(es, p.i, p.point).Mark?
  {
    if n == 0 then {} else ArrayPlaces(part, es, n - 1) + Fields(part, es, n - 1)
  }

  lemma {:induction false} Disjoint(a: set<Spot>, b: set<Spot>)
    requires a !! b
    ensures |a + b| == |a| + |b|
  {
  }

  lemma {:induction false} FieldsCount(part: Part, es: seq<Elem>, i: nat)
    requires i < |es|
    ensures |Fields(part, es, i)| == ElemMarks(es[i])
  {
  }

  lemma {:induction false} ArrayStep(es: seq<Elem>, n: nat)
    requires 0 < n <= |es|
    ensures ArrayMarks(es[..n]) == ArrayMarks(es[..n - 1]) + ElemMarks(es[n - 1])
  {
    assert es[..n][..n - 1] == es[..n - 1];
  }

  lemma {:induction false} ArrayPlacesCount(part: Part, es: seq<Elem>, n: nat)
    requires n <= |es|
    ensures |ArrayPlaces(part, es, n)| == ArrayMarks(es[..n])
  {
    if n == 0 {
      assert es[..0] == [];
    } else {
      ArrayPlacesCount(part, es, n - 1);
      ArrayStep(es, n);
      FieldsCount(part, es, n - 1);
      Disjoint(ArrayPlaces(part, es, n - 1), Fields(part, es, n - 1));
    }
  }

  // The message a place belongs to.
  predicate InMessage(p: Spot, mi: nat) {
    if p.part.BlocksIn? then p.part.mi == mi else p.part.Messages? && p.i == mi
  }

  predicate InMessages(p: Spot, n: nat) {
    if p.part.BlocksIn? then p.part.mi < n else p.part.Messages? && p.i < n
  }

  ghost function OwnPlace(ms: seq<Message>, mi: nat): set<Spot>
    requires mi < |ms|
  {
    if ms[mi].control.Mark? then {Spot(Messages, mi, false)} else {}
  }

  ghost function MessagePlaces(ms: seq<Message>, mi: nat): set<Spot>
    requires mi < |ms|
  {
    OwnPlace(ms, mi) + ArrayPlaces(BlocksIn(mi), BlocksOf(ms[mi]), |BlocksOf(ms[mi])|)
  }

  ghost function MessagesPlaces(ms: seq<Message>, n: nat): set<Spot>
    requires n <= |ms|
  {
    if n == 0 then {} else MessagesPlaces(ms, n - 1) + MessagePlaces(ms, n - 1)
  }

  lemma {:induction false} MessagePlacesHas(b: Body, mi: nat, p: Spot)
    requires mi < |b.messages|
    ensures p in MessagePlaces(b.messages, mi) <==> Marked(b, p) && InMessage(p, mi)
  {
  }

  lemma {:induction false} InOneMore(p: Spot, n: nat)
    ensures InMessages(p, n + 1) <==> InMessages(p, n) || InMessage(p, n)
  {
  }

  lemma {:induction false} MessagesPlacesHas(b: Body, n: nat, p: Spot)
    requires n <= |b.messages|
    ensures p in MessagesPlaces(b.messages, n) <==> Marked(b, p) && InMessages(p, n)
  {
    if n > 0 {
      var k := n - 1;
      MessagesPlacesHas(b, k, p);
      MessagePlacesHas(b, k, p);
      InOneMore(p, k);
      assert MessagesPlaces(b.messages, n) == MessagesPlaces(b.messages, k) + MessagePlaces(b.messages, k);
    }
  }

  lemma {:induction false} MessagePlacesCount(ms: seq<Message>, mi: nat)
    requires mi < |ms|
    ensures |MessagePlaces(ms, mi)| == MessageMarks(ms[mi])
  {
    var bs := BlocksOf(ms[mi]);
    ArrayPlacesCount(BlocksIn(mi), bs, |bs|);
    assert bs[..|bs|] == bs;
    Disjoint(OwnPlace(ms, mi), ArrayPlaces(BlocksIn(mi), bs, |bs|));
  }

  lemma {:induction false} LaterMessageApart(ms: seq<Message>, n: nat)
    requires n < |ms|
    ensures MessagesPlaces(ms, n) !! MessagePlaces(ms, n)
  {
    var b := Body([], [], ms);
    forall p | p in MessagePlaces(ms, n) ensures p !in MessagesPlaces(ms, n) {
      MessagePlacesHas(b, n, p);
      MessagesPlacesHas(b, n, p);
    }
  }

  lemma {:induction false} MessagesStep(ms: seq<Message>, n: nat)
    requires 0 < n <= |ms|
    ensures MessagesMarks(ms[..n]) == MessagesMarks(ms[..n - 1]) + MessageMarks(ms[n - 1])
  {
    assert ms[..n][..n - 1] == ms[..n - 1];
  }

  lemma {:induction false} MessagesPlacesCount(ms: seq<Message>, n: nat)
    requires n <= |ms|
    ensures |MessagesPlaces(ms, n)| == MessagesMarks(ms[..n])
  {
    if n == 0 {
      assert ms[..0] == [];
    } else {
      MessagesPlacesCount(ms, n - 1);
      MessagePlacesCount(ms, n - 1);
      MessagesStep(ms, n);
      LaterMessageApart(ms, n - 1);
      Disjoint(MessagesPlaces(ms, n - 1), MessagePlaces(ms, n - 1));
    }
  }

  ghost function ToolPlaces(b: Body): set<Spot> { ArrayPlaces(Tools, b.tools, |b.tools|) }

  ghost function SystemPlaces(b: Body): set<Spot> { ArrayPlaces(System, b.system, |b.system|) }

  ghost function TalkPlaces(b: Body): set<Spot> { MessagesPlaces(b.messages, |b.messages|) }

  // The marked places of a request: those and no others.
  ghost function MarkSet(b: Body): set<Spot> {
    ToolPlaces(b) + SystemPlaces(b) + TalkPlaces(b)
  }

  lemma {:induction false} MarkSetHas(b: Body, p: Spot)
    ensures p in MarkSet(b) <==> Marked(b, p)
    ensures p in ToolPlaces(b) ==> p.part.Tools?
    ensures p in SystemPlaces(b) ==> p.part.System?
    ensures p in TalkPlaces(b) ==> p.part.Messages? || p.part.BlocksIn?
  {
    MessagesPlacesHas(b, |b.messages|, p);
  }

  lemma {:induction false} WholeArrayCount(part: Part, es: seq<Elem>)
    ensures |ArrayPlaces(part, es, |es|)| == ArrayMarks(es)
  {
    ArrayPlacesCount(part, es, |es|);
    assert es[..|es|] == es;
  }

  lemma {:induction false} AllMessagesCount(b: Body)
    ensures |TalkPlaces(b)| == MessagesMarks(b.messages)
  {
    MessagesPlacesCount(b.messages, |b.messages|);
    assert b.messages[..|b.messages|] == b.messages;
  }

  // The count the placer reads is the number of marked places, over tools, system, messages and blocks.
  lemma {:induction false} BreakpointsArePlaces(b: Body)
    ensures Breakpoints(b) == |MarkSet(b)|
    ensures forall p :: p in MarkSet(b) <==> Marked(b, p)
  {
    WholeArrayCount(Tools, b.tools);
    WholeArrayCount(System, b.system);
    AllMessagesCount(b);
    forall p ensures p in MarkSet(b) <==> Marked(b, p) { MarkSetHas(b, p); }
    forall p | p in SystemPlaces(b) ensures p !in ToolPlaces(b) { MarkSetHas(b, p); }
    Disjoint(ToolPlaces(b), SystemPlaces(b));
    forall p | p in TalkPlaces(b) ensures p !in ToolPlaces(b) + SystemPlaces(b) { MarkSetHas(b, p); }
    Disjoint(ToolPlaces(b) + SystemPlaces(b), TalkPlaces(b));
  }

  // ---- The order of places -------------------------------------------------------------------------------------

  // Which comes first in the prefix the provider hashes: tools, then system, then the messages one by one, each
  // itself before its blocks.
  predicate Earlier(p: Spot, q: Spot) {
    match p.part
    case Tools => q.part.Tools? ==> p.i < q.i
    case System => !q.part.Tools? && (q.part.System? ==> p.i < q.i)
    case Messages => (q.part.Messages? && p.i < q.i) || (q.part.BlocksIn? && p.i <= q.part.mi)
    case BlocksIn(mi) => (q.part.Messages? && mi < q.i) || (q.part.BlocksIn? && (mi < q.part.mi || (mi == q.part.mi && p.i < q.i)))
  }

  // No five-minute cache_control of these places comes before a one-hour one.
  ghost predicate HourFirst(b: Body, ps: set<Spot>) {
    forall p, q :: p in ps && q in ps && !p.point && !q.point && Earlier(p, q) && OneHour(FieldAt(b, q)) ==> OneHour(FieldAt(b, p))
  }

  // cs lists the cache_control marks of these places.
  ghost predicate Listed(b: Body, ps: set<Spot>, cs: seq<Control>) {
    && (forall p :: p in ps && !p.point ==> FieldAt(b, p) in cs)
    && (forall c :: c in cs ==> exists p :: p in ps && !p.point && FieldAt(b, p) == c)
    && (LongestFirst(cs) <==> HourFirst(b, ps))
  }

  ghost predicate AllEarlier(ps: set<Spot>, qs: set<Spot>) {
    forall p, q :: p in ps && q in qs ==> Earlier(p, q) && !Earlier(q, p)
  }

  // A one-hour mark on the right asks for nothing else on the left.
  ghost predicate Across(cs: seq<Control>, ds: seq<Control>) {
    forall c, d :: c in cs && d in ds && OneHour(d) ==> OneHour(c)
  }

  lemma {:induction false} LongestFirstJoins(cs: seq<Control>, ds: seq<Control>)
    ensures LongestFirst(cs + ds) <==> LongestFirst(cs) && LongestFirst(ds) && Across(cs, ds)
  {
    var es := cs + ds;
    if LongestFirst(es) {
      forall i, j | 0 <= i < j < |cs| && OneHour(cs[j]) ensures OneHour(cs[i]) { assert es[i] == cs[i] && es[j] == cs[j]; }
      forall i, j | 0 <= i < j < |ds| && OneHour(ds[j]) ensures OneHour(ds[i]) {
        assert es[|cs| + i] == ds[i] && es[|cs| + j] == ds[j];
      }
      forall c, d | c in cs && d in ds && OneHour(d) ensures OneHour(c) {
        var i :| 0 <= i < |cs| && cs[i] == c;
        var j :| 0 <= j < |ds| && ds[j] == d;
        assert es[i] == c && es[|cs| + j] == d;
      }
    }
  }

  lemma {:induction false} HourFirstJoins(b: Body, ps: set<Spot>, qs: set<Spot>, cs: seq<Control>, ds: seq<Control>)
    requires Listed(b, ps, cs) && Listed(b, qs, ds) && AllEarlier(ps, qs)
    ensures HourFirst(b, ps + qs) <==> HourFirst(b, ps) && HourFirst(b, qs) && Across(cs, ds)
  {
    if HourFirst(b, ps + qs) {
      forall c, d | c in cs && d in ds && OneHour(d) ensures OneHour(c) {
        var p :| p in ps && !p.point && FieldAt(b, p) == c;
        var q :| q in qs && !q.point && FieldAt(b, q) == d;
        assert Earlier(p, q);
      }
    }
  }

  lemma {:induction false} ListsJoin(b: Body, ps: set<Spot>, qs: set<Spot>, cs: seq<Control>, ds: seq<Control>)
    requires Listed(b, ps, cs) && Listed(b, qs, ds) && AllEarlier(ps, qs)
    ensures Listed(b, ps + qs, cs + ds)
  {
    LongestFirstJoins(cs, ds);
    HourFirstJoins(b, ps, qs, cs, ds);
    forall c | c in cs + ds ensures exists p :: p in ps + qs && !p.point && FieldAt(b, p) == c {
      if c in cs {
        var p :| p in ps && !p.point && FieldAt(b, p) == c;
        assert p in ps + qs;
      } else {
        var q :| q in qs && !q.point && FieldAt(b, q) == c;
        assert q in ps + qs;
      }
    }
  }

  // The array the part names.
  ghost predicate ArrayOf(b: Body, part: Part, es: seq<Elem>) {
    match part
    case Tools => es == b.tools
    case System => es == b.system
    case Messages => false
    case BlocksIn(mi) => mi < |b.messages| && es == BlocksOf(b.messages[mi])
  }

  lemma {:induction false} FieldListed(b: Body, part: Part, es: seq<Elem>, i: nat)
    requires ArrayOf(b, part, es) && i < |es|
    ensures Listed(b, Fields(part, es, i), ControlOf(es[i]))
  {
    assert FieldAt(b, Spot(part, i, false)) == FieldOf(es, i, false);
    if FieldOf(es, i, false).Mark? { assert Spot(part, i, false) in Fields(part, es, i); }
  }

  lemma {:induction false} LaterFields(part: Part, es: seq<Elem>, k: nat)
    requires !part.Messages? && k < |es|
    ensures AllEarlier(ArrayPlaces(part, es, k), Fields(part, es, k))
  {
  }

  lemma {:induction false} NoneListed(b: Body)
    ensures Listed(b, {}, [])
  {
  }

  lemma {:induction false} ArrayListed(b: Body, part: Part, es: seq<Elem>, n: nat)
    requires ArrayOf(b, part, es) && n <= |es|
    ensures Listed(b, ArrayPlaces(part, es, n), Gather(ControlOf, es, 0, n))
  {
    if n == 0 {
      NoneListed(b);
    } else {
      var k := n - 1;
      ArrayListed(b, part, es, k);
      FieldListed(b, part, es, k);
      LaterFields(part, es, k);
      ListsJoin(b, ArrayPlaces(part, es, k), Fields(part, es, k), Gather(ControlOf, es, 0, k), ControlOf(es[k]));
    }
  }

  lemma {:induction false} OwnListed(b: Body, mi: nat)
    requires mi < |b.messages|
    ensures Listed(b, OwnPlace(b.messages, mi), if b.messages[mi].control.Mark? then [b.messages[mi].control] else [])
  {
    if b.messages[mi].control.Mark? { assert Spot(Messages, mi, false) in OwnPlace(b.messages, mi); }
  }

  lemma {:induction false} MessageListed(b: Body, mi: nat)
    requires mi < |b.messages|
    ensures Listed(b, MessagePlaces(b.messages, mi), MessageControls(b.messages[mi]))
  {
    var m := b.messages[mi];
    OwnListed(b, mi);
    ArrayListed(b, BlocksIn(mi), BlocksOf(m), |BlocksOf(m)|);
    ListsJoin(b, OwnPlace(b.messages, mi), ArrayPlaces(BlocksIn(mi), BlocksOf(m), |BlocksOf(m)|),
              if m.control.Mark? then [m.control] else [], ArrayControls(BlocksOf(m)));
  }

  lemma {:induction false} LaterMessage(b: Body, n: nat)
    requires n < |b.messages|
    ensures AllEarlier(MessagesPlaces(b.messages, n), MessagePlaces(b.messages, n))
  {
    forall p, q | p in MessagesPlaces(b.messages, n) && q in MessagePlaces(b.messages, n) ensures Earlier(p, q) && !Earlier(q, p) {
      MessagesPlacesHas(b, n, p);
      MessagePlacesHas(b, n, q);
    }
  }

  lemma {:induction false} MessagesListed(b: Body, n: nat)
    requires n <= |b.messages|
    ensures Listed(b, MessagesPlaces(b.messages, n), Gather(MessageControls, b.messages, 0, n))
  {
    if n == 0 {
      NoneListed(b);
    } else {
      var k := n - 1;
      MessagesListed(b, k);
      MessageListed(b, k);
      LaterMessage(b, k);
      ListsJoin(b, MessagesPlaces(b.messages, k), MessagePlaces(b.messages, k), Gather(MessageControls, b.messages, 0, k), MessageControls(b.messages[k]));
    }
  }

  lemma {:induction false} PartsInOrder(b: Body)
    ensures AllEarlier(ToolPlaces(b), SystemPlaces(b)) && AllEarlier(ToolPlaces(b) + SystemPlaces(b), TalkPlaces(b))
  {
    forall p | p in TalkPlaces(b) ensures p.part.Messages? || p.part.BlocksIn? { MarkSetHas(b, p); }
  }

  // The list of marks is longest first exactly when no marked place with less comes before one with an hour.
  lemma {:induction false} LongestFirstByPlace(b: Body)
    ensures LongestFirst(Controls(b)) <==> HourFirst(b, MarkSet(b))
  {
    ArrayListed(b, Tools, b.tools, |b.tools|);
    ArrayListed(b, System, b.system, |b.system|);
    MessagesListed(b, |b.messages|);
    PartsInOrder(b);
    ListsJoin(b, ToolPlaces(b), SystemPlaces(b), ArrayControls(b.tools), ArrayControls(b.system));
    ListsJoin(b, ToolPlaces(b) + SystemPlaces(b), TalkPlaces(b),
              ArrayControls(b.tools) + ArrayControls(b.system), MessagesControls(b.messages));
  }
}
