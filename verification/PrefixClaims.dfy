/**
 * The single-writer protocol over cached prefixes (cheapmodel/cachecontrol.go).
 *
 * Each claim and each release is one hold of `prefixMu`, so every interleaving of concurrent callers
 * is some sequence of events. A ticket is a claim's release closure; releasing it twice is allowed.
 */
module PrefixClaims {
  // Times are in milliseconds.
  const PREFIX_ENTRY_TTL: nat := 240_000

  datatype Prefix = Prefix(written: bool, inflight: bool, at: int)

  datatype Ticket = Ticket(key: string, mark: bool, claimed: bool, done: bool)

  datatype Table = Table(prefixes: map<string, Prefix>, tickets: seq<Ticket>)

  datatype Event =
    | Claim(key: string, now: int)
    | Release(id: nat, wrote: bool, read: bool, now: int)

  // The prefix's record as a claim at `now` finds it: created if absent, expired if too old.
  function Found(t: Table, key: string, now: int): Prefix {
    var st := if key in t.prefixes then t.prefixes[key] else Prefix(false, false, 0);
    if st.written && now - st.at > PREFIX_ENTRY_TTL then st.(written := false) else st
  }

  function Claimed(t: Table, key: string, now: int): Table {
    var st := Found(t, key, now);
    var mark := st.written || !st.inflight;
    var claimed := mark && !st.written;
    Table(t.prefixes[key := if claimed then st.(inflight := true) else st],
          t.tickets + [Ticket(key, mark, claimed, false)])
  }

  predicate Live(t: Table, id: nat) {
    id < |t.tickets| && !t.tickets[id].done && t.tickets[id].key in t.prefixes
  }

  function Released(t: Table, id: nat, wrote: bool, read: bool, now: int): Table {
    if !Live(t, id) then t
    else
      var ticket := t.tickets[id];
      var st := t.prefixes[ticket.key];
      var freed := if ticket.claimed then st.(inflight := false) else st;
      Table(t.prefixes[ticket.key := if wrote || read then freed.(written := true, at := now) else freed],
            t.tickets[id := ticket.(done := true)])
  }

  function Apply(t: Table, e: Event): Table {
    match e
    case Claim(key, now) => Claimed(t, key, now)
    case Release(id, wrote, read, now) => Released(t, id, wrote, read, now)
  }

  function Run(events: seq<Event>): Table {
    if events == [] then Table(map[], []) else Apply(Run(events[..|events| - 1]), events[|events| - 1])
  }

  class PrefixCache {
    var prefixes: map<string, Prefix>
    var tickets: seq<Ticket>

    ghost function State(): Table
      reads this
    {
      Table(prefixes, tickets)
    }

    constructor ()
      ensures State() == Run([])
    {
      prefixes, tickets := map[], [];
    }

    method ClaimCacheWrite(key: string, now: int) returns (mark: bool, id: nat)
      modifies this
      ensures State() == Claimed(old(State()), key, now)
      ensures id == |old(tickets)| && tickets[id].mark == mark
    {
      if key !in prefixes { prefixes := prefixes[key := Prefix(false, false, 0)]; }
      var st := prefixes[key];
      if st.written && now - st.at > PREFIX_ENTRY_TTL { st := st.(written := false); }
      if st.written {
        mark := true;
      } else if st.inflight {
        mark := false;
      } else {
        st, mark := st.(inflight := true), true;
      }
      var claimed := mark && !st.written;
      prefixes := prefixes[key := st];
      id := |tickets|;
      tickets := tickets + [Ticket(key, mark, claimed, false)];
    }

    method Release(id: nat, wrote: bool, read: bool, now: int)
      requires id < |tickets| && tickets[id].key in prefixes
      modifies this
      ensures State() == Released(old(State()), id, wrote, read, now)
    {
      var ticket := tickets[id];
      if ticket.done { return; }
      tickets := tickets[id := ticket.(done := true)];
      var st := prefixes[ticket.key];
      if ticket.claimed { st := st.(inflight := false); }
      if wrote || read { st := st.(written := true, at := now); }
      prefixes := prefixes[ticket.key := st];
    }
  }

  // ---- What every interleaving keeps ----------------------------------------------------------

  // Ticket i holds the one write slot of its prefix.
  predicate Holds(t: Table, i: nat, key: string) {
    i < |t.tickets| && t.tickets[i].key == key && t.tickets[i].claimed && !t.tickets[i].done
  }

  ghost predicate SingleWriter(t: Table) {
    && (forall i :: 0 <= i < |t.tickets| ==> t.tickets[i].key in t.prefixes)
    && (forall i, j, key :: Holds(t, i, key) && Holds(t, j, key) ==> i == j)
    && (forall key :: key in t.prefixes ==> (t.prefixes[key].inflight <==> exists i :: Holds(t, i, key)))
  }

  lemma {:induction false} ClaimKeeps(t: Table, key: string, now: int)
    requires SingleWriter(t)
    ensures SingleWriter(Claimed(t, key, now))
  {
    var u, n := Claimed(t, key, now), |t.tickets|;
    assert forall i: nat, k :: i < n ==> Holds(u, i, k) == Holds(t, i, k);
    assert forall k :: Holds(u, n, k) <==> k == key && u.tickets[n].claimed;
    forall k | k in u.prefixes ensures u.prefixes[k].inflight <==> exists i :: Holds(u, i, k) {
      if k in t.prefixes && t.prefixes[k].inflight {
        var i :| Holds(t, i, k);
        assert Holds(u, i, k);
      } else if k == key && u.tickets[n].claimed {
        assert Holds(u, n, k);
      }
    }
  }

  lemma {:induction false} ReleaseKeeps(t: Table, id: nat, wrote: bool, read: bool, now: int)
    requires SingleWriter(t)
    ensures SingleWriter(Released(t, id, wrote, read, now))
  {
    if Live(t, id) {
      var u, key := Released(t, id, wrote, read, now), t.tickets[id].key;
      assert forall i, k :: Holds(u, i, k) <==> Holds(t, i, k) && i != id;
      forall k | k in u.prefixes ensures u.prefixes[k].inflight <==> exists i :: Holds(u, i, k) {
        if Holds(t, id, k) {
          assert !exists i :: Holds(u, i, k);
        } else if t.prefixes[k].inflight {
          var i :| Holds(t, i, k);
          assert Holds(u, i, k);
        }
      }
    }
  }

  // In every run at most one claimed ticket per prefix is outstanding, and inflight says exactly so.
  lemma {:induction false} AlwaysSingleWriter(events: seq<Event>)
    ensures SingleWriter(Run(events))
  {
    if events != [] {
      var init, e := events[..|events| - 1], events[|events| - 1];
      AlwaysSingleWriter(init);
      match e
      case Claim(key, now) => ClaimKeeps(Run(init), key, now);
      case Release(id, wrote, read, now) => ReleaseKeeps(Run(init), id, wrote, read, now);
    }
  }

  // Event k was the first release of a ticket for key, and saw the provider's entry.
  predicate Observed(events: seq<Event>, k: nat, key: string, at: int) {
    && k < |events|
    && events[k].Release?
    && (events[k].wrote || events[k].read)
    && events[k].now == at
    && Live(Run(events[..k]), events[k].id)
    && Run(events[..k]).tickets[events[k].id].key == key
  }

  lemma {:induction false} ObservedLater(events: seq<Event>, e: Event, k: nat, key: string, at: int)
    requires Observed(events, k, key, at)
    ensures Observed(events + [e], k, key, at)
  {
    assert (events + [e])[..k] == events[..k];
  }

  // A prefix believed written was observed, at exactly the time on its record.
  lemma {:induction false} WrittenWasObserved(events: seq<Event>, key: string)
    requires key in Run(events).prefixes && Run(events).prefixes[key].written
    ensures exists k :: Observed(events, k, key, Run(events).prefixes[key].at)
  {
    var n := |events| - 1;
    var init, e := events[..n], events[n];
    var t := Run(init);
    assert events == init + [e];
    if e.Release? && Live(t, e.id) && t.tickets[e.id].key == key && (e.wrote || e.read) {
      assert Observed(events, n, key, e.now);
    } else {
      WrittenWasObserved(init, key);
      var k :| Observed(init, k, key, t.prefixes[key].at);
      ObservedLater(init, e, k, key, t.prefixes[key].at);
    }
  }

  /**
   * A call that is marked either takes the one write slot, which nobody held, or was issued within
   * prefixEntryTTL of an entry some earlier release observed.
   */
  lemma {:induction false} MarksAreJustified(events: seq<Event>, key: string, now: int)
    ensures var t := Run(events);
      var ticket := Claimed(t, key, now).tickets[|t.tickets|];
      ticket.mark ==>
        if ticket.claimed then forall i :: !Holds(t, i, key)
        else exists k, at :: Observed(events, k, key, at) && now - at <= PREFIX_ENTRY_TTL
  {
    var t := Run(events);
    AlwaysSingleWriter(events);
    if Found(t, key, now).written {
      WrittenWasObserved(events, key);
    }
  }

  // A refused mark means a sibling holds the slot: once everything is released, the next claim marks.
  lemma {:induction false} RefusedOnlyWhileHeld(events: seq<Event>, key: string, now: int)
    ensures var t := Run(events);
      Claimed(t, key, now).tickets[|t.tickets|].mark <==>
        Found(t, key, now).written || forall i :: !Holds(t, i, key)
  {
    AlwaysSingleWriter(events);
    var t := Run(events);
    if key !in t.prefixes {
      assert forall i :: !Holds(t, i, key);
    }
  }

  // Clock readings in order, none after now.
  ghost predicate Timed(events: seq<Event>, now: int) {
    && (forall i :: 0 <= i < |events| ==> events[i].now <= now)
    && (forall i, j :: 0 <= i < j < |events| ==> events[i].now <= events[j].now)
  }

  ghost predicate RecentlyObserved(events: seq<Event>, key: string, now: int) {
    exists k, at :: Observed(events, k, key, at) && now - at <= PREFIX_ENTRY_TTL
  }

  // A record that is believed, and was last observed at `at` or later.
  predicate Believed(t: Table, key: string, at: int) {
    key in t.prefixes && t.prefixes[key].written && at <= t.prefixes[key].at
  }

  lemma {:induction false} StaysBelieved(t: Table, e: Event, key: string, at: int)
    requires Believed(t, key, at) && at <= e.now && e.now - at <= PREFIX_ENTRY_TTL
    ensures Believed(Apply(t, e), key, at)
  {
  }

  lemma {:induction false} ObservedIsBelieved(events: seq<Event>, now: int, k: nat, key: string, at: int)
    requires Timed(events, now) && Observed(events, k, key, at) && now - at <= PREFIX_ENTRY_TTL
    ensures Believed(Run(events), key, at)
  {
    var n := |events| - 1;
    var init, e := events[..n], events[n];
    if k < n {
      assert init[..k] == events[..k];
      ObservedIsBelieved(init, e.now, k, key, at);
      StaysBelieved(Run(init), e, key, at);
    }
  }

  /**
   * Exactly when a call is marked: some release observed the entry within prefixEntryTTL, or nobody holds the
   * slot; and the slot is taken only where nothing was observed that recently.
   */
  lemma {:induction false} MarkedIff(events: seq<Event>, key: string, now: int)
    requires Timed(events, now)
    ensures var t := Run(events);
      var ticket := Claimed(t, key, now).tickets[|t.tickets|];
      && (ticket.mark <==> RecentlyObserved(events, key, now) || forall i :: !Holds(t, i, key))
      && (ticket.claimed <==> !RecentlyObserved(events, key, now) && forall i :: !Holds(t, i, key))
  {
    var t := Run(events);
    RefusedOnlyWhileHeld(events, key, now);
    if Found(t, key, now).written { WrittenWasObserved(events, key); }
    if RecentlyObserved(events, key, now) {
      var k, at :| Observed(events, k, key, at) && now - at <= PREFIX_ENTRY_TTL;
      ObservedIsBelieved(events, now, k, key, at);
    }
  }

  lemma {:induction false} NextClaimMarks(events: seq<Event>, key: string, now: int)
    requires forall i :: 0 <= i < |Run(events).tickets| ==> Run(events).tickets[i].done
    ensures Claimed(Run(events), key, now).tickets[|Run(events).tickets|].mark
  {
    RefusedOnlyWhileHeld(events, key, now);
  }

  // Releasing again changes nothing, whatever the second caller reports.
  lemma {:induction false} ReleaseIsIdempotent(t: Table, id: nat, w: bool, r: bool, n: int, w': bool, r': bool, n': int)
    ensures Released(Released(t, id, w, r, n), id, w', r', n') == Released(t, id, w, r, n)
  {
    assert !Live(Released(t, id, w, r, n), id);
  }
}
