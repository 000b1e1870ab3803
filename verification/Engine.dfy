/**
 * The pipeline engine over mutable message objects (components/pipeline.go).
 *
 * One snapshot is kept for the whole run and re-cloned only where a component's surviving output
 * differs. `exposed` is every message object a component was ever handed or made: an adversarial
 * component may write to any of them at any time, including objects of an earlier, reverted turn.
 * What keeps a revert sound is that the snapshot never shares an object with `exposed`.
 */
module Engine {
  import opened Lists
  import opened PipelineRules

  class Message {
    var content: Content

    constructor (c: Content)
      ensures content == c
    {
      content := c;
    }
  }

  function Values(ms: seq<Message>): (vs: seq<Content>)
    reads ms
    ensures |vs| == |ms| && forall i :: 0 <= i < |ms| ==> vs[i] == ms[i].content
  {
    seq(|ms|, i requires 0 <= i < |ms| reads ms => ms[i].content)
  }

  method CloneMessages(ms: seq<Message>) returns (out: seq<Message>)
    ensures |out| == |ms|
    ensures forall m :: m in out ==> fresh(m)
    ensures Values(out) == Values(ms)
  {
    out := [];
    for i := 0 to |ms|
      invariant |out| == i
      invariant forall m :: m in out ==> fresh(m)
      invariant forall k :: 0 <= k < i ==> out[k].content == ms[k].content
    {
      var m := new Message(ms[i].content);
      out := out + [m];
    }
  }

  // The indices at which a component's output differs from its input; none for a changed count.
  method ChangedIdx(before: seq<Message>, after: seq<Message>) returns (out: seq<nat>)
    ensures out == Changed(Values(before), Values(after))
  {
    out := [];
    if |before| != |after| { return; }
    for i := 0 to |after|
      invariant out == DiffBelow(Values(before), Values(after), i)
    {
      if before[i].content != after[i].content { out := out + [i]; }
    }
  }

  // The entries of xs outside own, in order.
  function Outside(xs: seq<nat>, own: set<nat>): seq<nat> {
    if xs == [] then []
    else Outside(xs[..|xs| - 1], own) + (if xs[|xs| - 1] in own then [] else [xs[|xs| - 1]])
  }

  lemma {:induction false} OutsideAppend(xs: seq<nat>, x: nat, own: set<nat>)
    ensures Outside(xs + [x], own) == Outside(xs, own) + (if x in own then [] else [x])
  {
    assert (xs + [x])[..|xs|] == xs;
  }

  // Dropping the own indices from the list of changes leaves the changes of the restored list.
  lemma {:induction false} OutsideIsRestoredDiff(
      before: seq<Content>, proposed: seq<Content>, restored: seq<Content>, own: set<nat>, n: nat)
    requires n <= |before| == |proposed| == |restored|
    requires forall i :: 0 <= i < |before| ==> restored[i] == if i in own then before[i] else proposed[i]
    ensures Outside(DiffBelow(before, proposed, n), own) == DiffBelow(before, restored, n)
  {
    if n > 0 {
      OutsideIsRestoredDiff(before, proposed, restored, own, n - 1);
      OutsideAppend(DiffBelow(before, proposed, n - 1), n - 1, own);
    }
  }

  // After j of the changes: the own ones among them are put back, the others are kept.
  ghost predicate PartlyRestored(
      orig: seq<Content>, was: seq<Content>, cur: seq<Content>, own: set<nat>, kept: seq<nat>, j: nat)
  {
    && |orig| == |was| == |cur|
    && (forall i :: 0 <= i < |cur| ==> cur[i] == was[i] || (i in own && cur[i] == orig[i]))
    && var changed := DiffBelow(orig, was, |was|);
    && j <= |changed|
    && kept == Outside(changed[..j], own)
    && forall k :: 0 <= k < j && changed[k] in own ==> changed[k] < |cur| && cur[changed[k]] == orig[changed[k]]
  }

  lemma {:induction false} RestoreNext(orig: seq<Content>, was: seq<Content>, cur: seq<Content>, own: set<nat>, kept: seq<nat>, j: nat)
    requires PartlyRestored(orig, was, cur, own, kept, j)
    requires j < |DiffBelow(orig, was, |was|)|
    ensures var i := DiffBelow(orig, was, |was|)[j];
      && i < |cur|
      && (i in own ==> PartlyRestored(orig, was, cur[i := orig[i]], own, kept, j + 1))
      && (i !in own ==> PartlyRestored(orig, was, cur, own, kept + [i], j + 1))
  {
    var changed := DiffBelow(orig, was, |was|);
    DiffListed(orig, was, |was|, changed[j]);
    OutsideAppend(changed[..j], changed[j], own);
    assert changed[..j + 1] == changed[..j] + [changed[j]];
    if changed[j] in own {
      assert PartlyRestored(orig, was, cur[changed[j] := orig[changed[j]]], own, kept, j + 1);
    }
  }

  lemma {:induction false} AllRestored(orig: seq<Content>, was: seq<Content>, cur: seq<Content>, own: set<nat>, kept: seq<nat>)
    requires PartlyRestored(orig, was, cur, own, kept, |Changed(orig, was)|)
    ensures cur == Restored(orig, was, own)
    ensures kept == Changed(orig, cur)
  {
    var changed := Changed(orig, was);
    assert changed[..|changed|] == changed;
    forall i | 0 <= i < |cur| && i in own ensures cur[i] == orig[i] {
      DiffListed(orig, was, |was|, i);
    }
    OutsideIsRestoredDiff(orig, was, cur, own, |was|);
  }

  class Run {
    const count: Tokenizer
    var input: seq<Message>
    var snap: seq<Message>
    var exposed: set<Message>

    // The run's live snapshot: equal to the live messages in value, sharing no object with anything
    // a component can reach.
    ghost predicate InStep()
      reads this, input, snap
    {
      && Values(snap) == Values(input)
      && (forall m :: m in input ==> m in exposed)
      && (forall m :: m in snap ==> m !in exposed)
    }

    constructor (count: Tokenizer, request: seq<Message>)
      ensures this.count == count && input == request && snap == []
      ensures exposed == set m | m in request
    {
      this.count := count;
      input, snap, exposed := request, [], set m | m in request;
    }

    /**
     * Any component at all: it makes new messages, writes any message it can reach, rebuilds the
     * list from any of them, any number of times, and then returns, fails or panics.
     */
    method Act() returns (action: Action)
      requires forall m :: m in input ==> m in exposed
      modifies this`input, this`exposed, exposed
      ensures action.proposed == Values(input)
      ensures forall m :: m in input ==> m in exposed
      ensures forall m :: m in exposed ==> m in old(exposed) || fresh(m)
    {
      var moves: nat := *;
      while moves > 0
        invariant forall m :: m in input ==> m in exposed
        invariant forall m :: m in exposed ==> m in old(exposed) || fresh(m)
      {
        var choice: nat := *;
        var c: Content := *;
        if choice == 0 {
          var m := new Message(c);
          exposed := exposed + {m};
        } else if choice == 1 && exposed != {} {
          var m :| m in exposed;
          m.content := c;
        } else {
          var next: seq<Message> := *;
          if forall m | m in next :: m in exposed { input := next; }
        }
        moves := moves - 1;
      }
      action := *;
      action := action.(proposed := Values(input));
    }

    // Install the snapshot and make an independent one, because the live list now is the old copy.
    method Revert()
      requires forall m :: m in snap ==> m !in exposed
      modifies this`input, this`snap, this`exposed
      ensures InStep()
      ensures input == old(snap)
      ensures exposed == old(exposed) + set m | m in old(snap)
      ensures forall m :: m in snap ==> fresh(m)
      ensures Values(input) == old(Values(snap))
    {
      input := snap;
      snap := CloneMessages(input);
      exposed := exposed + set m | m in input;
    }

    method PutBack(i: nat, c: Content)
      requires i < |input|
      requires forall m :: m in input ==> m in exposed
      modifies this`input, this`exposed
      ensures Values(input) == old(Values(input))[i := c]
      ensures forall m :: m in input ==> m in exposed
      ensures forall m :: m in exposed ==> m in old(exposed) || fresh(m)
    {
      var m := new Message(c);
      input := input[i := m];
      exposed := exposed + {m};
    }

    method RestoreOwn(before: seq<Message>, changed: seq<nat>, own: set<nat>)
        returns (kept: seq<nat>, restored: bool)
      requires changed == Changed(Values(before), Values(input))
      requires forall m :: m in input ==> m in exposed
      modifies this`input, this`exposed
      ensures Values(input) == Restored(Values(before), old(Values(input)), own)
      ensures kept == Changed(Values(before), Values(input))
      ensures !restored ==> Values(input) == old(Values(input))
      ensures forall m :: m in input ==> m in exposed
      ensures forall m :: m in exposed ==> m in old(exposed) || fresh(m)
    {
      ghost var was, orig := Values(input), Values(before);
      if own == {} || |before| != |input| {
        assert Restored(orig, was, own) == was;
        return changed, false;
      }
      kept, restored := [], false;
      ghost var cur := was;
      for j := 0 to |changed|
        invariant cur == Values(input) && orig == Values(before)
        invariant PartlyRestored(orig, was, cur, own, kept, j)
        invariant !restored ==> cur == was
        invariant forall m :: m in input ==> m in exposed
        invariant forall m :: m in exposed ==> m in old(exposed) || fresh(m)
      {
        var i := changed[j];
        RestoreNext(orig, was, cur, own, kept, j);
        if i in own {
          PutBack(i, before[i].content);
          cur := cur[i := orig[i]];
          restored := true;
        } else {
          kept := kept + [i];
        }
      }
      AllRestored(orig, was, cur, own, kept);
    }

    // Bring the snapshot back in step, re-cloning only what changed, or the lot for a new count.
    method Resync(changed: seq<nat>)
      requires forall m :: m in input ==> m in exposed
      requires forall m :: m in snap ==> m !in exposed
      requires changed == Changed(Values(snap), Values(input))
      modifies this`snap
      ensures InStep()
      ensures forall m :: m in snap ==> m in old(snap) || fresh(m)
    {
      if |snap| != |input| {
        snap := CloneMessages(input);
        return;
      }
      ghost var was := snap;
      forall k | 0 <= k < |changed| ensures changed[k] < |was| {
        DiffListed(Values(was), Values(input), |was|, changed[k]);
      }
      for j := 0 to |changed|
        invariant |snap| == |was|
        invariant forall m :: m in snap ==> m in was || fresh(m)
        invariant forall i :: 0 <= i < |snap| ==> snap[i] == was[i] || snap[i].content == input[i].content
        invariant forall k :: 0 <= k < j ==> snap[changed[k]].content == input[changed[k]].content
      {
        var i := changed[j];
        var m := new Message(input[i].content);
        snap := snap[i := m];
      }
      forall i | 0 <= i < |snap| ensures snap[i].content == input[i].content {
        DiffListed(Values(was), Values(input), |was|, i);
      }
    }

    // A surviving proposal: own outputs back, the snapshot re-cloned where it changed.
    method Keep(own: set<nat>) returns (changed: seq<nat>)
      requires forall m :: m in input ==> m in exposed
      requires forall m :: m in snap ==> m !in exposed
      modifies this`input, this`snap, this`exposed
      ensures InStep()
      ensures Values(input) == Restored(old(Values(snap)), old(Values(input)), own)
      ensures changed == Changed(old(Values(snap)), Values(input))
      ensures forall m :: m in exposed ==> m in old(exposed) || fresh(m)
      ensures forall m :: m in snap ==> m in old(snap) || fresh(m)
    {
      changed := ChangedIdx(snap, input);
      var restored;
      changed, restored := RestoreOwn(snap, changed, own);
      Resync(changed);
    }

    // One component under snapshot isolation and the never-worse guard.
    method RunOne(comp: Component, own: set<nat>) returns (rep: Report, ghost turn: Turn)
      requires InStep()
      modifies this`input, this`snap, this`exposed, exposed
      ensures InStep()
      ensures turn.comp == comp
      ensures Values(input) == Settle(count, own, old(Values(input)), turn)
      ensures rep == ReportOf(count, own, old(Values(input)), turn)
      ensures TurnOutcome(count, own, old(Values(input)), turn, Values(input), rep)
      ensures forall m :: m in exposed ==> m in old(exposed) || m in old(snap) || fresh(m)
      ensures forall m :: m in snap ==> m in old(snap) || fresh(m)
    {
      ghost var was := Values(input);
      var baseline := Tokens(count, Values(snap));
      if comp.kind == Neither {
        turn := Turn(comp, Action([], false, false, [], false, false));
        rep := Report(comp.name, comp.kind, baseline, baseline, true, false, false, []);
        SameHasNoDiff(was, |was|);
        SettleOutcome(count, own, was, turn);
        return;
      }
      var a := Act();
      turn := Turn(comp, a);
      SettleOutcome(count, own, was, turn);
      var after := Tokens(count, Values(input));
      var dropped := comp.kind == Offload && after < baseline && a.keys == [] && !a.skipped && !a.irreversible;
      if a.panicked || a.failed || dropped || after > baseline {
        ReportRefused(count, own, was, turn);
        rep := Report(comp.name, comp.kind, baseline, baseline, a.skipped && !a.panicked,
                      true, a.panicked || a.failed || dropped, []);
        Revert();
      } else {
        var changed := Keep(own);
        rep := Report(comp.name, comp.kind, baseline, Tokens(count, Values(input)), a.skipped, false, false, changed);
      }
    }

    /**
     * A whole run. Whatever the enabled components do, the request ends at `Replay` of their actions
     * and the reports are `Reports` of them.
     */
    method Execute(comps: seq<Component>, own: set<nat>) returns (reports: seq<Report>, ghost turns: seq<Turn>)
      requires forall m :: m in input ==> m in exposed
      modifies this, exposed
      ensures InStep()
      ensures Filter(IsEnabled(), comps) == Components(turns)
      ensures Values(input) == Replay(count, own, old(Values(input)), turns)
      ensures reports == Reports(count, own, old(Values(input)), turns)
      ensures own == {} ==> Tokens(count, Values(input)) <= Tokens(count, old(Values(input)))
    {
      ghost var start := Values(input);
      snap := CloneMessages(input);
      reports, turns := [], [];
      for c := 0 to |comps|
        invariant InStep()
        invariant FilterOf(IsEnabled(), comps, c) == Components(turns)
        invariant Values(input) == Replay(count, own, start, turns)
        invariant reports == Reports(count, own, start, turns)
        invariant forall m :: m in exposed ==> m in old(exposed) || fresh(m)
        invariant forall m :: m in snap ==> fresh(m)
      {
        FilterStep(IsEnabled(), comps, c);
        if comps[c].enabled {
          var rep, t := RunOne(comps[c], own);
          OneTurnMore(count, own, start, turns, t);
          assert Components(turns + [t]) == Components(turns) + [t.comp] by {
            assert (turns + [t])[..|turns|] == turns;
          }
          turns := turns + [t];
          reports := reports + [rep];
        }
      }
      if own == {} { RunNeverWorse(count, start, turns); }
    }
  }

  function IsEnabled(): Component -> bool {
    (c: Component) => c.enabled
  }

  function Components(turns: seq<Turn>): seq<Component> {
    if turns == [] then [] else Components(turns[..|turns| - 1]) + [turns[|turns| - 1].comp]
  }

  /**
   * Charge each discarded change to the last component that changed that message.
   * The charges are exact per component, and together conserve the attributable total.
   */
  method RecordDiscards(reports: seq<Report>, discarded: map<nat, nat>) returns (counts: map<nat, nat>)
    ensures Billed(reports, discarded, counts)
  {
    var owner := map[];
    for c := 0 to |reports|
      invariant owner == OwnerTable(reports[..c])
    {
      assert reports[..c + 1][..c] == reports[..c];
      var changed := reports[c].changed;
      ghost var prior := owner;
      for j := 0 to |changed|
        invariant owner == Assign(prior, changed[..j], c)
      {
        assert changed[..j + 1][..j] == changed[..j];
        owner := owner[changed[j] := c];
      }
      assert changed[..|changed|] == changed;
    }
    assert reports[..|reports|] == reports;
    counts := Charge(reports, owner, discarded);
  }

  // The discards summed by owner, in whatever order the map is walked.
  method Charge(ghost reports: seq<Report>, owner: map<nat, nat>, discarded: map<nat, nat>)
      returns (counts: map<nat, nat>)
    requires owner == OwnerTable(reports)
    ensures Billed(reports, discarded, counts)
  {
    counts := map[];
    var todo := discarded.Keys;
    assert discarded - todo == map[];
    BillNothing(reports);
    while todo != {}
      invariant todo <= discarded.Keys
      invariant Billed(reports, discarded - todo, counts)
    {
      var i :| i in todo;
      OwnerTableAt(reports, i);
      BillOneMore(reports, discarded - todo, counts, i, discarded[i]);
      if i in owner { counts := counts[owner[i] := Lookup(counts, owner[i]) + discarded[i]]; }
      assert discarded - (todo - {i}) == (discarded - todo)[i := discarded[i]];
      todo := todo - {i};
    }
    assert discarded - todo == discarded;
  }
}
