/**
 * Writing edited messages back into the raw request in one pass (spliceMessages in apply/apply.go,
 * with the shift splitVolatileTail reports in apply/prefixsplit.go).
 *
 * A body is read as the gaps around its messages. Editing a message in the document is what one
 * sjson.SetRawBytes at "messages.<i>" does to the text; the one-pass splice is proved equal to any
 * sequence of those, at offsets taken before the system split moved the bytes.
 */
module Splice {
  import opened Lists

  // A parsed message: its offset in the body it was parsed from, and its bytes there.
  datatype Msg = Msg(index: int, raw: string)

  // The bytes from a to b; total, so that offsets need not be argued about twice.
  function Slice(s: string, a: int, b: int): string {
    if 0 <= a <= b <= |s| then s[a..b] else ""
  }

  // One call's arguments. The edited messages are visited in ascending order.
  datatype Job = Job(body: string, msgs: seq<Msg>, edits: map<int, string>, shiftAt: int, shift: int) {
    function Start(i: nat): int
      requires i < |msgs|
    {
      if msgs[i].index >= shiftAt then msgs[i].index + shift else msgs[i].index
    }

    function End(i: nat): int
      requires i < |msgs|
    {
      Start(i) + |msgs[i].raw|
    }

    // Where the last edited span below message i ends.
    function Prev(i: nat): int
      requires i <= |msgs|
    {
      if i == 0 then 0 else if i - 1 in edits then End(i - 1) else Prev(i - 1)
    }

    // An edited span lies after the one before it, inside the body, and the body confirms its bytes.
    predicate SpanOk(i: nat)
      requires i < |msgs|
    {
      i in edits ==>
        && 0 <= Prev(i) < Start(i)
        && End(i) <= |body|
        && Slice(body, Start(i), End(i)) == msgs[i].raw
    }

    predicate Succeeds() {
      && (forall i :: i in edits ==> 0 <= i < |msgs|)
      && (forall i :: 0 <= i < |msgs| ==> SpanOk(i))
    }

    // The output up to the end of the last edited span below message i.
    function Upto(i: nat): string
      requires i <= |msgs|
    {
      if i == 0 then ""
      else if i - 1 in edits then Upto(i - 1) + Slice(body, Prev(i - 1), Start(i - 1)) + edits[i - 1]
      else Upto(i - 1)
    }

    function OnePass(): string {
      Upto(|msgs|) + Slice(body, Prev(|msgs|), |body|)
    }
  }

  method SpliceMessages(job: Job) returns (r: Option<string>)
    ensures r.Some? <==> job.Succeeds()
    ensures r.Some? ==> r.value == job.OnePass()
  {
    var body := job.body;
    if exists i :: i in job.edits && !(0 <= i < |job.msgs|) { return None; }
    var out, prev := "", 0;
    for i := 0 to |job.msgs|
      invariant forall k :: 0 <= k < i ==> job.SpanOk(k)
      invariant out == job.Upto(i)
      invariant prev == job.Prev(i) && 0 <= prev <= |body|
    {
      if i in job.edits {
        var start, end := job.Start(i), job.End(i);
        if start <= prev || end > |body| || body[start..end] != job.msgs[i].raw {
          assert !job.SpanOk(i);
          return None;
        }
        out := out + body[prev..start] + job.edits[i];
        prev := end;
      }
    }
    return Some(out + body[prev..]);
  }

  // ---- When it succeeds -----------------------------------------------------------------------

  // Edited message i stands past the first byte, inside the body, and its bytes there are its own.
  predicate Confirmed(job: Job, i: nat)
    requires i < |job.msgs|
  {
    && 0 < job.Start(i) && job.Start(i) + |job.msgs[i].raw| <= |job.body|
    && job.body[job.Start(i)..job.Start(i) + |job.msgs[i].raw|] == job.msgs[i].raw
  }

  ghost predicate InOrder(job: Job) {
    forall i, j :: 0 <= i < j < |job.msgs| && i in job.edits && j in job.edits ==> job.End(i) < job.Start(j)
  }

  lemma {:induction false} PrevIsLastEnd(job: Job, n: nat) returns (i: int)
    requires n <= |job.msgs|
    ensures -1 <= i < n && (forall j :: i < j < n ==> j !in job.edits)
    ensures if i < 0 then job.Prev(n) == 0 else i in job.edits && job.Prev(n) == job.End(i)
  {
    if n == 0 { i := -1; } else if n - 1 in job.edits { i := n - 1; } else { i := PrevIsLastEnd(job, n - 1); }
  }

  /**
   * The splice succeeds exactly when every edit names a message, each edited message's bytes are confirmed in
   * the body, and the edited spans follow one another with something between them.
   */
  lemma {:induction false} SucceedsIff(job: Job)
    ensures job.Succeeds() <==>
      && (forall i :: i in job.edits ==> 0 <= i < |job.msgs|)
      && (forall i :: 0 <= i < |job.msgs| && i in job.edits ==> Confirmed(job, i))
      && InOrder(job)
  {
    if job.Succeeds() {
      forall i | 0 <= i < |job.msgs| && i in job.edits ensures Confirmed(job, i) { assert job.SpanOk(i); }
      forall i, j | 0 <= i < j < |job.msgs| && i in job.edits && j in job.edits ensures job.End(i) < job.Start(j) {
        SpansClimb(job, i, j);
      }
    } else if (forall i :: i in job.edits ==> 0 <= i < |job.msgs|) && InOrder(job) {
      var j :| 0 <= j < |job.msgs| && !job.SpanOk(j);
      var i := PrevIsLastEnd(job, j);
      if i >= 0 && Confirmed(job, i) { assert job.End(i) < job.Start(j); }
    }
  }

  lemma {:induction false} SpansClimb(job: Job, i: nat, j: nat)
    requires job.Succeeds() && i < j < |job.msgs| && i in job.edits && j in job.edits
    ensures job.End(i) < job.Start(j)
    decreases j
  {
    var k := PrevIsLastEnd(job, j);
    assert job.SpanOk(j) && job.SpanOk(i);
    if i < k {
      SpansClimb(job, i, k);
      assert job.SpanOk(k);
    }
  }

  // ---- Documents ------------------------------------------------------------------------------

  // gaps[0] messages[0] gaps[1] ... messages[n-1] gaps[n]
  datatype Doc = Doc(gaps: seq<string>, messages: seq<string>)

  predicate Shaped(d: Doc) {
    |d.gaps| == |d.messages| + 1
  }

  // A message is a non-empty value, and something (a bracket or a comma) stands before it.
  predicate WellFormed(d: Doc) {
    && Shaped(d)
    && forall i :: 0 <= i < |d.messages| ==> d.gaps[i] != "" && d.messages[i] != ""
  }

  // The text before gap k.
  function Before(d: Doc, k: nat): string
    requires Shaped(d) && k <= |d.messages|
  {
    if k == 0 then "" else Before(d, k - 1) + d.gaps[k - 1] + d.messages[k - 1]
  }

  function Render(d: Doc): string
    requires Shaped(d)
  {
    Before(d, |d.messages|) + d.gaps[|d.messages|]
  }

  function Offset(d: Doc, i: nat): nat
    requires Shaped(d) && i < |d.messages|
  {
    |Before(d, i)| + |d.gaps[i]|
  }

  // Messages as a parse of d reports them.
  function Parse(d: Doc): seq<Msg>
    requires Shaped(d)
  {
    seq(|d.messages|, i requires 0 <= i < |d.messages| => Msg(Offset(d, i), d.messages[i]))
  }

  // The whole text, cut at gap k.
  lemma {:induction false} CutAt(d: Doc, k: nat) returns (rest: string)
    requires Shaped(d) && k <= |d.messages|
    ensures Render(d) == Before(d, k) + d.gaps[k] + rest
    decreases |d.messages| - k
  {
    if k == |d.messages| {
      rest := "";
      assert Render(d) == Before(d, k) + d.gaps[k] + "";
    } else {
      var r := CutAt(d, k + 1);
      rest := d.messages[k] + d.gaps[k + 1] + r;
      assert Render(d) == Before(d, k) + d.gaps[k] + rest;
    }
  }

  // One edit replaces exactly the message's bytes in the text: sjson's local splice.
  lemma {:induction false} SetIsLocal(d: Doc, i: nat, text: string)
    requires Shaped(d) && i < |d.messages|
    ensures Offset(d, i) + |d.messages[i]| <= |Render(d)|
    ensures Render(d)[Offset(d, i)..Offset(d, i) + |d.messages[i]|] == d.messages[i]
    ensures Render(d.(messages := d.messages[i := text]))
         == Render(d)[..Offset(d, i)] + text + Render(d)[Offset(d, i) + |d.messages[i]|..]
  {
    var e := d.(messages := d.messages[i := text]);
    var rest := CutAt(d, i + 1);
    var rest' := CutAt(e, i + 1);
    SameBefore(d, e, i);
    SameAfter(d, e, i + 1);
    var head := Before(d, i) + d.gaps[i];
    assert Render(d) == head + d.messages[i] + (d.gaps[i + 1] + rest);
    assert Render(e) == head + text + (e.gaps[i + 1] + rest');
    assert |Render(d)| - |Before(d, i + 1)| == |Render(e)| - |Before(e, i + 1)|;
    assert Render(d)[|Before(d, i + 1)|..] == d.gaps[i + 1] + rest;
    assert Render(e)[|Before(e, i + 1)|..] == e.gaps[i + 1] + rest';
  }

  lemma {:induction false} SameBefore(d: Doc, e: Doc, k: nat)
    requires Shaped(d) && Shaped(e) && |d.messages| == |e.messages| && k <= |d.messages|
    requires forall i :: 0 <= i < k ==> d.gaps[i] == e.gaps[i] && d.messages[i] == e.messages[i]
    ensures Before(d, k) == Before(e, k)
  {
    if k > 0 { SameBefore(d, e, k - 1); }
  }

  lemma {:induction false} SameAfter(d: Doc, e: Doc, k: nat)
    requires Shaped(d) && Shaped(e) && |d.messages| == |e.messages| && k <= |d.messages|
    requires forall i :: k <= i <= |d.messages| ==> d.gaps[i] == e.gaps[i]
    requires forall i :: k <= i < |d.messages| ==> d.messages[i] == e.messages[i]
    ensures |Before(d, k)| <= |Render(d)| && |Before(e, k)| <= |Render(e)|
    ensures Render(d)[|Before(d, k)|..] == Render(e)[|Before(e, k)|..]
    decreases |d.messages| - k
  {
    if k < |d.messages| {
      SameAfter(d, e, k + 1);
      var a := CutAt(d, k + 1);
      var b := CutAt(e, k + 1);
      var mid := d.gaps[k] + d.messages[k];
      assert Render(d) == Before(d, k) + mid + Render(d)[|Before(d, k + 1)|..];
      assert Render(e) == Before(e, k) + mid + Render(e)[|Before(e, k + 1)|..];
    }
  }

  // ---- The one-pass splice ----------------------------------------------------------------------

  function Edited(messages: seq<string>, edits: map<int, string>): seq<string> {
    seq(|messages|, i requires 0 <= i < |messages| => if i in edits then edits[i] else messages[i])
  }

  // Applying the edits one at a time, in the given order.
  function OneByOne(messages: seq<string>, order: seq<int>, edits: map<int, string>): (out: seq<string>)
    ensures |out| == |messages|
  {
    if order == [] then messages
    else
      var i, before := order[|order| - 1], OneByOne(messages, order[..|order| - 1], edits);
      if 0 <= i < |messages| then before[i := (if i in edits then edits[i] else "")] else before
  }

  lemma {:induction false} OneByOneAt(messages: seq<string>, order: seq<int>, edits: map<int, string>, i: nat)
    requires i < |messages|
    ensures OneByOne(messages, order, edits)[i] == if i in order then (if i in edits then edits[i] else "") else messages[i]
  {
    if order != [] { OneByOneAt(messages, order[..|order| - 1], edits, i); }
  }

  // In any order (even with repeats), the same document comes out.
  lemma {:induction false} AnyOrder(messages: seq<string>, order: seq<int>, edits: map<int, string>)
    requires forall i :: i in order <==> i in edits
    ensures OneByOne(messages, order, edits) == Edited(messages, edits)
  {
    forall i | 0 <= i < |messages| ensures OneByOne(messages, order, edits)[i] == Edited(messages, edits)[i] {
      OneByOneAt(messages, order, edits, i);
    }
  }

  // Everything the splice needs to know about where the messages of d now are.
  ghost predicate Located(d: Doc, job: Job) {
    && Shaped(d)
    && job.body == Render(d)
    && |job.msgs| == |d.messages|
    && forall i :: 0 <= i < |d.messages| ==> LocatedAt(d, job, i)
  }

  ghost predicate LocatedAt(d: Doc, job: Job, i: nat)
    requires Shaped(d) && i < |d.messages| == |job.msgs|
  {
    job.msgs[i].raw == d.messages[i] && job.Start(i) == Offset(d, i)
  }

  // Message k in the text: its gap, its bytes, and where they end.
  lemma {:induction false} Around(d: Doc, k: nat)
    requires Shaped(d) && k < |d.messages|
    ensures |Before(d, k)| <= Offset(d, k) <= Offset(d, k) + |d.messages[k]| == |Before(d, k + 1)| <= |Render(d)|
    ensures Render(d)[|Before(d, k)|..Offset(d, k)] == d.gaps[k]
    ensures Render(d)[Offset(d, k)..|Before(d, k + 1)|] == d.messages[k]
  {
    var rest := CutAt(d, k + 1);
    assert Render(d) == Before(d, k) + d.gaps[k] + d.messages[k] + (d.gaps[k + 1] + rest);
  }

  // Output plus what is still to be copied, carried across one kept or one edited message.
  lemma {:induction false} CarryAcross(out: string, body: string, prev: nat, a: nat, start: nat, b: nat, edit: string)
    requires prev <= a <= start <= b <= |body|
    ensures out + body[prev..b] == out + body[prev..a] + body[a..start] + body[start..b]
    ensures out + body[prev..start] + edit + body[b..b] == out + body[prev..a] + body[a..start] + edit
  {
    assert body[prev..b] == body[prev..a] + body[a..start] + body[start..b];
    assert body[prev..start] == body[prev..a] + body[a..start];
    assert body[b..b] == "";
  }

  // After the first k messages the output so far plus what is still to be copied is the edited text.
  ghost predicate Agrees(d: Doc, e: Doc, job: Job, k: nat) {
    && Shaped(d) && Shaped(e) && k <= |d.messages| == |e.messages| == |job.msgs|
    && 0 <= job.Prev(k) <= |Before(d, k)| <= |job.body|
    && job.Upto(k) + job.body[job.Prev(k)..|Before(d, k)|] == Before(e, k)
  }

  lemma {:induction false} AgreesNext(d: Doc, e: Doc, job: Job, k: nat)
    requires Agrees(d, e, job, k) && k < |d.messages| && job.body == Render(d)
    requires job.Start(k) == Offset(d, k) && job.msgs[k].raw == d.messages[k]
    requires e.gaps[k] == d.gaps[k] && e.messages[k] == if k in job.edits then job.edits[k] else d.messages[k]
    ensures Agrees(d, e, job, k + 1)
  {
    Around(d, k);
    CarryAcross(job.Upto(k), job.body, job.Prev(k), |Before(d, k)|, Offset(d, k), |Before(d, k + 1)|, e.messages[k]);
    assert Before(e, k + 1) == Before(e, k) + e.gaps[k] + e.messages[k];
  }

  lemma {:induction false} AgreesThrough(d: Doc, e: Doc, job: Job, k: nat)
    requires WellFormed(d) && Located(d, job) && k <= |d.messages|
    requires e == Doc(d.gaps, Edited(d.messages, job.edits))
    ensures Agrees(d, e, job, k)
    ensures forall i :: 0 <= i < k ==> job.SpanOk(i)
  {
    if k > 0 {
      AgreesThrough(d, e, job, k - 1);
      assert LocatedAt(d, job, k - 1);
      AgreesNext(d, e, job, k - 1);
      Around(d, k - 1);
      assert job.SpanOk(k - 1);
    } else {
      assert job.body[0..0] == "";
    }
  }

  // Located messages and in-range edits are all the splice needs.
  lemma {:induction false} OnePassIsEdited(d: Doc, job: Job)
    requires WellFormed(d) && Located(d, job)
    requires forall i :: i in job.edits ==> 0 <= i < |d.messages|
    ensures job.Succeeds()
    ensures job.OnePass() == Render(Doc(d.gaps, Edited(d.messages, job.edits)))
  {
    var n, e := |d.messages|, Doc(d.gaps, Edited(d.messages, job.edits));
    AgreesThrough(d, e, job, n);
    var a, prev := |Before(d, n)|, job.Prev(n);
    assert job.body[prev..] == job.body[prev..a] + d.gaps[n];
  }

  // The document after the system split put `now` for `was` inside gap j.
  function SplitGap(d: Doc, j: nat, head: string, now: string, tail: string): Doc
    requires Shaped(d) && j < |d.gaps|
  {
    d.(gaps := d.gaps[j := head + now + tail])
  }

  /**
   * Offsets taken before the split are still right after it: everything at or after the end of the old
   * system value moved by the change in its length, and nothing before it moved.
   */
  lemma {:induction false} ShiftLocates(
      d: Doc, j: nat, head: string, was: string, now: string, tail: string, edits: map<int, string>)
    requires WellFormed(d) && j < |d.gaps| && d.gaps[j] == head + was + tail
    ensures var e := SplitGap(d, j, head, now, tail);
      Located(e, Job(Render(e), Parse(d), edits, |Before(d, j)| + |head| + |was|, |now| - |was|))
  {
    var e := SplitGap(d, j, head, now, tail);
    var job := Job(Render(e), Parse(d), edits, |Before(d, j)| + |head| + |was|, |now| - |was|);
    forall i | 0 <= i < |d.messages| ensures LocatedAt(e, job, i) {
      if i < j {
        SameBefore(d, e, i);
        BeforeGrows(d, i + 1, j);
      } else {
        SameBefore(d, e, j);
        ShiftedBefore(d, e, j, i);
        BeforeGrows(d, j, i);
      }
    }
  }

  lemma {:induction false} BeforeGrows(d: Doc, j: nat, k: nat)
    requires Shaped(d) && j <= k <= |d.messages|
    ensures |Before(d, j)| + (if j < k then |d.gaps[j]| else 0) <= |Before(d, k)|
  {
    if j < k { BeforeGrows(d, j, k - 1); }
  }

  lemma {:induction false} ShiftedBefore(d: Doc, e: Doc, j: nat, k: nat)
    requires Shaped(d) && Shaped(e) && e.messages == d.messages && j <= k <= |d.messages|
    requires e.gaps == d.gaps[j := e.gaps[j]] && Before(d, j) == Before(e, j)
    ensures |Before(e, k)| - |Before(d, k)| == if j < k then |e.gaps[j]| - |d.gaps[j]| else 0
  {
    if j < k { ShiftedBefore(d, e, j, k - 1); }
  }

  /**
   * The main result. On a body whose messages are separated values, with offsets parsed before the
   * system split and any edits to existing messages, the one-pass splice succeeds and equals applying
   * the edits to the split body one at a time in any order.
   */
  lemma {:induction false} OnePassIsAnyOrder(
      d: Doc, j: nat, head: string, was: string, now: string, tail: string,
      edits: map<int, string>, order: seq<int>)
    requires WellFormed(d) && j < |d.gaps| && d.gaps[j] == head + was + tail
    requires j < |d.messages| ==> head + now + tail != ""
    requires forall i :: i in edits ==> 0 <= i < |d.messages|
    requires forall i :: i in order <==> i in edits
    ensures var split := SplitGap(d, j, head, now, tail);
      var job := Job(Render(split), Parse(d), edits, |Before(d, j)| + |head| + |was|, |now| - |was|);
      job.Succeeds() && job.OnePass() == Render(split.(messages := OneByOne(d.messages, order, edits)))
  {
    var split := SplitGap(d, j, head, now, tail);
    var job := Job(Render(split), Parse(d), edits, |Before(d, j)| + |head| + |was|, |now| - |was|);
    ShiftLocates(d, j, head, was, now, tail, edits);
    AnyOrder(d.messages, order, edits);
    OnePassIsEdited(split, job);
  }

  // Without a split (shift zero) the same holds of the body itself.
  lemma {:induction false} OnePassWithoutSplit(d: Doc, edits: map<int, string>, order: seq<int>)
    requires WellFormed(d)
    requires forall i :: i in edits ==> 0 <= i < |d.messages|
    requires forall i :: i in order <==> i in edits
    ensures var job := Job(Render(d), Parse(d), edits, 0, 0);
      job.Succeeds() && job.OnePass() == Render(d.(messages := OneByOne(d.messages, order, edits)))
  {
    AnyOrder(d.messages, order, edits);
    var job := Job(Render(d), Parse(d), edits, 0, 0);
    assert forall i :: 0 <= i < |d.messages| ==> LocatedAt(d, job, i);
    OnePassIsEdited(d, job);
  }
}
