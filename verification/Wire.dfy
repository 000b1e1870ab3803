/**
 * The parts of a request body the host edits after the client sent it, and where its cache
 * breakpoints sit (schema/breakpoints.go).
 */
module Wire {
  import opened Lists

  // A cache_control or cachePoint field: absent, an object (a breakpoint), or anything else.
  datatype Control = Absent | Odd(raw: string) | Mark(ttl: string, rest: string)

  // An entry of `system`, `tools` or a content array. Bare is a string, a number or null.
  datatype Elem =
    | Bare(raw: string)
    | Obj(kind: string, text: Option<string>, control: Control, point: Control, toolID: string, rest: string)

  datatype Content = Text(s: string) | Blocks(bs: seq<Elem>) | Other(raw: string)

  datatype Message = Message(role: string, content: Content, control: Control, rest: string)

  // tools and system are the entries of those arrays, [] where the body has none.
  datatype Body = Body(tools: seq<Elem>, system: seq<Elem>, messages: seq<Message>)

  const MAX_BREAKPOINTS: nat := 4
  const LOOKBACK_BLOCKS: nat := 20

  function BlocksOf(m: Message): seq<Elem> {
    if m.content.Blocks? then m.content.bs else []
  }

  // ---- The count the provider's cap applies to --------------------------------------------------

  function One(c: Control): nat {
    if c.Mark? then 1 else 0
  }

  function ElemMarks(e: Elem): nat {
    if e.Bare? then 0 else One(e.control) + One(e.point)
  }

  function ArrayMarks(es: seq<Elem>): nat {
    if es == [] then 0 else ArrayMarks(es[..|es| - 1]) + ElemMarks(es[|es| - 1])
  }

  function MessageMarks(m: Message): nat {
    One(m.control) + ArrayMarks(BlocksOf(m))
  }

  function MessagesMarks(ms: seq<Message>): nat {
    if ms == [] then 0 else MessagesMarks(ms[..|ms| - 1]) + MessageMarks(ms[|ms| - 1])
  }

  function Breakpoints(b: Body): nat {
    ArrayMarks(b.tools) + ArrayMarks(b.system) + MessagesMarks(b.messages)
  }

  lemma {:induction false} ArrayMarksUpdate(es: seq<Elem>, i: nat, e: Elem)
    requires i < |es|
    ensures ArrayMarks(es[i := e]) + ElemMarks(es[i]) == ArrayMarks(es) + ElemMarks(e)
  {
    var n := |es| - 1;
    if i < n {
      ArrayMarksUpdate(es[..n], i, e);
      assert es[i := e][..n] == es[..n][i := e];
    } else {
      assert es[i := e][..n] == es[..n];
    }
  }

  lemma {:induction false} MessagesMarksUpdate(ms: seq<Message>, i: nat, m: Message)
    requires i < |ms|
    ensures MessagesMarks(ms[i := m]) + MessageMarks(ms[i]) == MessagesMarks(ms) + MessageMarks(m)
  {
    var n := |ms| - 1;
    if i < n {
      MessagesMarksUpdate(ms[..n], i, m);
      assert ms[i := m][..n] == ms[..n][i := m];
    } else {
      assert ms[i := m][..n] == ms[..n];
    }
  }

  lemma {:induction false} ArrayMarksConcat(a: seq<Elem>, b: seq<Elem>)
    ensures ArrayMarks(a + b) == ArrayMarks(a) + ArrayMarks(b)
  {
    if b == [] {
      assert a + b == a;
    } else {
      ArrayMarksConcat(a, b[..|b| - 1]);
      InitOf(a, b);
    }
  }

  lemma {:induction false} MessagesMarksConcat(a: seq<Message>, b: seq<Message>)
    ensures MessagesMarks(a + b) == MessagesMarks(a) + MessagesMarks(b)
  {
    if b == [] {
      assert a + b == a;
    } else {
      MessagesMarksConcat(a, b[..|b| - 1]);
      InitOf(a, b);
    }
  }

  // ---- The marks in the order the provider hashes them --------------------------------------------

  function ControlOf(e: Elem): seq<Control> {
    if e.Obj? && e.control.Mark? then [e.control] else []
  }

  function ArrayControls(es: seq<Elem>): seq<Control> {
    Gather(ControlOf, es, 0, |es|)
  }

  function MessageControls(m: Message): seq<Control> {
    (if m.control.Mark? then [m.control] else []) + ArrayControls(BlocksOf(m))
  }

  function MessagesControls(ms: seq<Message>): seq<Control> {
    Gather(MessageControls, ms, 0, |ms|)
  }

  function Controls(b: Body): seq<Control> {
    ArrayControls(b.tools) + ArrayControls(b.system) + MessagesControls(b.messages)
  }

  predicate OneHour(c: Control) {
    c.Mark? && c.ttl == "1h"
  }

  // The provider's rule: every one-hour mark comes before every five-minute one.
  ghost predicate LongestFirst(cs: seq<Control>) {
    forall i, j :: 0 <= i < j < |cs| && OneHour(cs[j]) ==> OneHour(cs[i])
  }
}
