/**
 * Splitting trailing <system-reminder> blocks off a tool output, and putting them back
 * (apply/reminder.go).
 */
module Reminders {
  import opened Lists

  const REMINDER_OPEN: string := "<system-reminder>"
  const REMINDER_CLOSE: string := "</system-reminder>"
  const MAX_REMINDER: nat := 4096

  predicate Separator(c: char) {
    c == ' ' || c == '\t' || c == '\r' || c == '\n'
  }

  // What strings.TrimSpace trims.
  predicate Space(c: char) {
    || Separator(c) || c == '\U{b}' || c == '\U{c}' || c == '\U{85}' || c == '\U{a0}' || c == '\U{1680}'
    || '\U{2000}' <= c <= '\U{200a}' || c == '\U{2028}' || c == '\U{2029}' || c == '\U{202f}' || c == '\U{205f}'
    || c == '\U{3000}'
  }

  // The length of s without its trailing separators: strings.TrimRight(s, " \t\r\n").
  function Trimmed(s: string): (n: nat)
    ensures n <= |s|
    ensures n > 0 ==> !Separator(s[n - 1])
    ensures forall i :: n <= i < |s| ==> Separator(s[i])
  {
    if s != "" && Separator(s[|s| - 1]) then Trimmed(s[..|s| - 1]) else |s|
  }

  // The last occurrence of pat at or before i, or -1.
  function LastAt(s: string, pat: string, i: int): (k: int)
    requires i >= -1
    ensures -1 <= k <= i
    ensures k >= 0 ==> OccursAt(s, k, pat)
    ensures forall j :: k < j <= i ==> !OccursAt(s, j, pat)
  {
    if i < 0 then -1 else if OccursAt(s, i, pat) then i else LastAt(s, pat, i - 1)
  }

  function LastIndex(s: string, pat: string): (k: int)
    ensures k >= 0 ==> OccursAt(s, k, pat)
    ensures forall j :: k < j ==> !OccursAt(s, j, pat)
  {
    LastAt(s, pat, |s|)
  }

  predicate Contains(s: string, pat: string) {
    exists i :: 0 <= i <= |s| && OccursAt(s, i, pat)
  }

  lemma {:induction false} AtSuffix(s: string, k: nat, i: nat, pat: string)
    requires k <= |s|
    ensures OccursAt(s[k..], i, pat) <==> OccursAt(s, k + i, pat)
  {
    if k + i + |pat| <= |s| { assert s[k..][i..i + |pat|] == s[k + i..k + i + |pat|]; }
  }

  // The character j of an occurrence of pat at i.
  lemma {:induction false} CharOf(s: string, i: int, pat: string, j: nat)
    requires OccursAt(s, i, pat) && j < |pat|
    ensures s[i + j] == pat[j]
  {
    assert s[i + j] == s[i..i + |pat|][j];
  }

  // An open tag and a close tag never overlap, so the slice between them is well defined.
  lemma {:induction false} TagsApart(s: string, i: int, j: int)
    requires OccursAt(s, i, REMINDER_OPEN) && OccursAt(s, j, REMINDER_CLOSE)
    ensures i + |REMINDER_OPEN| <= j || j + |REMINDER_CLOSE| <= i
  {
    assert forall k :: 0 < k < |REMINDER_OPEN| ==> REMINDER_OPEN[k] != '<';
    assert forall k :: 0 < k < |REMINDER_CLOSE| ==> REMINDER_CLOSE[k] != '<';
    if i < j < i + |REMINDER_OPEN| {
      CharOf(s, i, REMINDER_OPEN, j - i);
      CharOf(s, j, REMINDER_CLOSE, 0);
      assert false;
    } else if j <= i < j + |REMINDER_CLOSE| {
      CharOf(s, i, REMINDER_OPEN, 0);
      CharOf(s, j, REMINDER_CLOSE, i - j);
      CharOf(s, i, REMINDER_OPEN, 1);
      CharOf(s, j, REMINDER_CLOSE, 1);
      assert false;
    }
  }

  // Where the reminder block that ends text (before trailing separators) begins, or -1.
  function BlockStart(text: string): (open: int)
    ensures -1 <= open < |text| || open == -1
  {
    var rest := text[..Trimmed(text)];
    var close := |rest| - |REMINDER_CLOSE|;
    if !OccursAt(rest, close, REMINDER_CLOSE) then -1
    else
      var open := LastIndex(rest, REMINDER_OPEN);
      if open < 0 || |rest| - open > MAX_REMINDER then -1
      else
        TagsApart(rest, open, close);
        if Contains(rest[open + |REMINDER_OPEN|..close], REMINDER_CLOSE) then -1 else open
  }

  // Where the run of blocks at the end of text begins.
  function RunStart(text: string): (cut: nat)
    ensures cut <= |text|
  {
    var open := BlockStart(text);
    if open < 0 then |text| else RunStart(text[..open])
  }

  predicate Blank(s: string) {
    forall i :: 0 <= i < |s| ==> Space(s[i])
  }

  function Split(text: string): (string, string) {
    var cut := RunStart(text);
    if Blank(text[..cut]) then (text, "") else (text[..cut], text[cut..])
  }

  method SplitTrailingReminders(text: string) returns (body: string, tail: string)
    ensures (body, tail) == Split(text)
  {
    var cut := |text|;
    assert text[..cut] == text;
    while true
      invariant cut <= |text|
      invariant RunStart(text[..cut]) == RunStart(text)
      decreases cut
    {
      var open := BlockStart(text[..cut]);
      if open < 0 { break; }
      assert text[..cut][..open] == text[..open];
      cut := open;
    }
    assert cut == RunStart(text);
    if cut == |text| {
      assert text[..cut] == text && text[cut..] == "";
      return text, "";
    }
    if cut == 0 || Blank(text[..cut]) { return text, ""; }
    return text[..cut], text[cut..];
  }

  // ---- What splitting promises ------------------------------------------------------------------

  lemma {:induction false} RunStartStops(text: string)
    ensures BlockStart(text[..RunStart(text)]) < 0
    decreases |text|
  {
    var open := BlockStart(text);
    if open >= 0 {
      RunStartStops(text[..open]);
      assert text[..open][..RunStart(text[..open])] == text[..RunStart(text)];
    } else {
      assert text[..|text|] == text;
    }
  }

  // Nothing is lost, and a body has nothing more to split.
  lemma {:induction false} SplitIsLosslessAndFinal(text: string)
    ensures var (body, tail) := Split(text);
      body + tail == text && (tail != "" ==> Split(body) == (body, ""))
  {
    RunStartStops(text);
    var (body, tail) := Split(text);
    if tail != "" {
      assert RunStart(body) == |body|;
      assert body[..|body|] == body && body[|body|..] == "";
    }
  }

  // A complete block: open tag, no tag inside, close tag, separators after it; bounded without them.
  ghost predicate Block(s: string) {
    exists n: nat :: BlockOf(s, n)
  }

  ghost predicate BlockOf(s: string, n: nat) {
    && |REMINDER_OPEN| + |REMINDER_CLOSE| <= n <= |s| && n <= MAX_REMINDER
    && OccursAt(s, 0, REMINDER_OPEN) && OccursAt(s, n - |REMINDER_CLOSE|, REMINDER_CLOSE)
    && (forall i :: 0 < i ==> !OccursAt(s[..n], i, REMINDER_OPEN))
    && !Contains(s[|REMINDER_OPEN|..n - |REMINDER_CLOSE|], REMINDER_CLOSE)
    && forall i :: n <= i < |s| ==> Separator(s[i])
  }

  // A run of complete blocks.
  ghost predicate Blocks(s: string)
    decreases |s|
  {
    s == "" || exists k: nat :: k < |s| && Blocks(s[..k]) && Block(s[k..])
  }

  // The tags of a block of rest from open on, read in the text it ends.
  lemma {:induction false} TagsOf(text: string, rest: string, open: nat, s: string, n: nat)
    requires open + n <= |text| && rest == text[..open + n] && s == text[open..]
    requires |REMINDER_OPEN| + |REMINDER_CLOSE| <= n
    requires OccursAt(rest, open, REMINDER_OPEN) && OccursAt(rest, |rest| - |REMINDER_CLOSE|, REMINDER_CLOSE)
    ensures OccursAt(s, 0, REMINDER_OPEN) && OccursAt(s, n - |REMINDER_CLOSE|, REMINDER_CLOSE)
    ensures s[|REMINDER_OPEN|..n - |REMINDER_CLOSE|] == rest[open + |REMINDER_OPEN|..|rest| - |REMINDER_CLOSE|]
  {
    SameSlice(text, open, n, 0, |REMINDER_OPEN|);
    SameSlice(text, open, n, n - |REMINDER_CLOSE|, n);
    SameSlice(text, open, n, |REMINDER_OPEN|, n - |REMINDER_CLOSE|);
  }

  lemma {:induction false} SameSlice(text: string, open: nat, n: nat, i: nat, j: nat)
    requires i <= j <= n && open + n <= |text|
    ensures text[open..][i..j] == text[..open + n][open + i..open + j]
  {
  }

  lemma {:induction false} NoInnerOpen(text: string, rest: string, open: nat, s: string, n: nat)
    requires open + n <= |text| && rest == text[..open + n] && s == text[open..]
    requires forall j :: open < j ==> !OccursAt(rest, j, REMINDER_OPEN)
    ensures forall i :: 0 < i ==> !OccursAt(s[..n], i, REMINDER_OPEN)
  {
    assert rest[open..] == s[..n];
    forall i: int | 0 < i ensures !OccursAt(s[..n], i, REMINDER_OPEN) { AtSuffix(rest, open, i, REMINDER_OPEN); }
  }

  lemma {:induction false} LastBlock(text: string)
    requires BlockStart(text) >= 0
    ensures Block(text[BlockStart(text)..])
  {
    var open, m := BlockStart(text), Trimmed(text);
    var rest, s, n := text[..m], text[open..], m - open;
    TagsApart(rest, open, m - |REMINDER_CLOSE|);
    TagsOf(text, rest, open, s, n);
    NoInnerOpen(text, rest, open, s, n);
    assert forall i :: n <= i < |s| ==> s[i] == text[open + i];
    assert BlockOf(s, n);
  }

  // What is split off is reminders and nothing else; what stays does not end in one.
  lemma {:induction false} TailIsReminders(text: string)
    ensures Blocks(text[RunStart(text)..])
    decreases |text|
  {
    var open := BlockStart(text);
    if open >= 0 {
      TailIsReminders(text[..open]);
      LastBlock(text);
      var cut, s := RunStart(text), text[RunStart(text)..];
      assert s[..open - cut] == text[..open][RunStart(text[..open])..];
      assert s[open - cut..] == text[open..];
    } else {
      assert text[|text|..] == "";
    }
  }

  // The end of a text whose suffix from k is a block of n bytes and separators.
  lemma {:induction false} BlockInRest(text: string, k: nat, n: nat, rest: string)
    requires k <= |text| && BlockOf(text[k..], n) && rest == text[..k + n]
    ensures OccursAt(rest, |rest| - |REMINDER_CLOSE|, REMINDER_CLOSE) && OccursAt(rest, k, REMINDER_OPEN)
    ensures rest[k + |REMINDER_OPEN|..|rest| - |REMINDER_CLOSE|] == text[k..][|REMINDER_OPEN|..n - |REMINDER_CLOSE|]
  {
    var s := text[k..];
    assert rest[|rest| - |REMINDER_CLOSE|..|rest|] == s[n - |REMINDER_CLOSE|..n];
    assert rest[k..k + |REMINDER_OPEN|] == s[0..|REMINDER_OPEN|];
  }

  lemma {:induction false} NoLaterOpen(text: string, k: nat, n: nat, rest: string)
    requires k <= |text| && BlockOf(text[k..], n) && rest == text[..k + n]
    ensures forall j: int :: k < j ==> !OccursAt(rest, j, REMINDER_OPEN)
  {
    assert rest[k..] == text[k..][..n];
    forall j: int | k < j ensures !OccursAt(rest, j, REMINDER_OPEN) { AtSuffix(rest, k, j - k, REMINDER_OPEN); }
  }

  lemma {:induction false} TrimmedToBlock(text: string, k: nat, n: nat)
    requires k <= |text| && BlockOf(text[k..], n)
    ensures Trimmed(text) == k + n
  {
    var s := text[k..];
    LastCharOf(s, n);
    assert text[k + n - 1] == s[n - 1] && forall i :: k + n <= i < |text| ==> text[i] == s[i - k];
    TrimmedAt(text, k + n);
  }

  // What the scan asks of the text up to its last separators, read off.
  lemma {:induction false} ScanFinds(text: string, rest: string, k: nat, inner: string)
    requires rest == text[..Trimmed(text)] && k + |REMINDER_OPEN| <= |rest| - |REMINDER_CLOSE|
    requires OccursAt(rest, |rest| - |REMINDER_CLOSE|, REMINDER_CLOSE) && LastIndex(rest, REMINDER_OPEN) == k
    requires |rest| - k <= MAX_REMINDER && inner == rest[k + |REMINDER_OPEN|..|rest| - |REMINDER_CLOSE|]
    requires !Contains(inner, REMINDER_CLOSE)
    ensures BlockStart(text) == k
  {
  }

  // A complete block at the end of a text is the one the scan finds.
  lemma {:induction false} BlockIsFound(text: string, k: nat, n: nat)
    requires k <= |text| && BlockOf(text[k..], n)
    ensures BlockStart(text) == k
  {
    var rest := text[..k + n];
    TrimmedToBlock(text, k, n);
    BlockInRest(text, k, n, rest);
    NoLaterOpen(text, k, n, rest);
    LastAtIs(rest, REMINDER_OPEN, |rest|, k);
    ScanFinds(text, rest, k, text[k..][|REMINDER_OPEN|..n - |REMINDER_CLOSE|]);
  }

  lemma {:induction false} LastCharOf(s: string, n: nat)
    requires BlockOf(s, n)
    ensures n > 0 && !Separator(s[n - 1])
  {
    CharOf(s, n - |REMINDER_CLOSE|, REMINDER_CLOSE, |REMINDER_CLOSE| - 1);
  }

  lemma {:induction false} TrimmedAt(s: string, m: nat)
    requires 0 < m <= |s| && !Separator(s[m - 1]) && forall i :: m <= i < |s| ==> Separator(s[i])
    ensures Trimmed(s) == m
  {
  }

  lemma {:induction false} LastAtIs(s: string, pat: string, i: int, k: nat)
    requires k <= i && OccursAt(s, k, pat) && forall j :: k < j ==> !OccursAt(s, j, pat)
    ensures LastAt(s, pat, i) == k
  {
  }

  /**
   * The split, whatever the text: after some cut stand complete reminder blocks and nothing else, no block ends
   * the text before it, and the two sides are the body and the tail, unless only blanks stand before the cut.
   */
  lemma {:induction false} SplitExactly(text: string) returns (cut: nat)
    ensures cut <= |text| && Blocks(text[cut..])
    ensures forall k: nat :: k < cut ==> !Block(text[..cut][k..])
    ensures Split(text) == if Blank(text[..cut]) then (text, "") else (text[..cut], text[cut..])
  {
    cut := RunStart(text);
    TailIsReminders(text);
    RunStartStops(text);
    forall k: nat | k < cut ensures !Block(text[..cut][k..]) {
      if n: nat :| BlockOf(text[..cut][k..], n) { BlockIsFound(text[..cut], k, n); }
    }
  }

  // ---- Writing back -----------------------------------------------------------------------------

  function TrailingSeparators(s: string): string {
    s[Trimmed(s)..]
  }

  method TrailingWhitespace(s: string) returns (ws: string)
    ensures ws == TrailingSeparators(s)
  {
    var i := |s|;
    assert s[..i] == s;
    while i > 0 && Separator(s[i - 1])
      invariant 0 <= i <= |s|
      invariant Trimmed(s[..i]) == Trimmed(s)
    {
      assert s[..i][..i - 1] == s[..i - 1];
      i := i - 1;
    }
    return s[i..];
  }

  // slot.writeTail: the reminder tail put back onto what the components left.
  function WriteTail(preText: string, tail: string, cur: string): string
    requires |tail| <= |preText|
  {
    var body := preText[..|preText| - |tail|];
    if tail == "" then cur else if cur == body then cur + tail else cur + TrailingSeparators(body) + tail
  }

  // Whatever the components left goes out first, the tail last, and between them nothing or all the separators
  // that ended the body: nothing exactly where the body is unchanged or ended in none.
  lemma {:induction false} WriteTailIs(preText: string, tail: string, cur: string) returns (sep: string)
    requires |tail| <= |preText|
    ensures WriteTail(preText, tail, cur) == cur + sep + tail
    ensures tail == "" ==> sep == ""
    ensures tail != "" ==>
      var body := preText[..|preText| - |tail|];
      && |sep| <= |body| && sep == body[|body| - |sep|..]
      && (forall i :: 0 <= i < |sep| ==> Separator(sep[i]))
      && (sep == "" <==> cur == body || body == "" || !Separator(body[|body| - 1]))
      && (sep != "" && |sep| < |body| ==> !Separator(body[|body| - |sep| - 1]))
  {
    var body := preText[..|preText| - |tail|];
    if tail == "" || cur == body {
      sep := "";
      assert cur + sep == cur;
    } else {
      sep := TrailingSeparators(body);
      assert sep == body[Trimmed(body)..];
    }
  }

  /**
   * With a tail to put back, the original text comes out exactly for the body itself and for the body
   * without its trailing separators; any other text goes out changed, with its separator and its tail.
   */
  lemma {:induction false} WriteTailRestoresIff(text: string, cur: string)
    requires Split(text).1 != ""
    ensures var (body, tail) := Split(text);
      WriteTail(text, tail, cur) == text <==> cur == body || cur == body[..Trimmed(body)]
  {
    SplitIsLosslessAndFinal(text);
    var (body, tail) := Split(text);
    assert text[..|text| - |tail|] == body;
    var ws := TrailingSeparators(body);
    assert body == body[..Trimmed(body)] + ws;
    Assoc(body[..Trimmed(body)], ws, tail);
    Assoc(cur, ws, tail);
    if cur != body && cur + (ws + tail) == body[..Trimmed(body)] + (ws + tail) { SameEnd(cur, body[..Trimmed(body)], ws + tail); }
  }

  lemma {:induction false} SameEnd(a: string, b: string, c: string)
    requires a + c == b + c
    ensures a == b
  {
    assert |a| == |b|;
    assert (a + c)[..|a|] == a && (b + c)[..|a|] == b;
  }
}
