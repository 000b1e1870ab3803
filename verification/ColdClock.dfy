/**
 * When a prompt cache may be called cold (the cold block of BodyOpts in apply/apply.go).
 *
 * One conversation can reach the proxy under two session ids, with and without an explicit header,
 * while the provider keys its entry on content. So two clocks and two TTL records are consulted: the
 * thread's own (`key`) and the content alias's. Keep-alive pings touch the alias clock only.
 */
module ColdClock {
  import opened Lists

  // Milliseconds: coldMargin is one minute.
  const COLD_MARGIN: nat := 60_000

  // The tracker's last time per thread key, and the store's cg:seen: and cg:ttl: records.
  datatype Clocks = Clocks(turns: map<string, nat>, seen: map<string, nat>, ttls: map<string, nat>)

  // How long the provider keeps this request's entry, where that is known exactly; a provider that
  // promises a minimum, or nothing, is Inexact.
  datatype Lifetime = Exact(ms: nat) | Inexact

  // A tracked, non-bypassed turn, or a keep-alive touch. parent is set on the first request of a thread
  // that continues another one, and empty otherwise.
  datatype Event =
    | Turn(key: string, parent: string, alias: string, ttl: Lifetime, now: nat)
    | Touch(alias: string, now: nat)

  function CacheIsCold(prevAt: nat, now: nat, ttl: nat): bool {
    prevAt > 0 && now > prevAt && now - prevAt >= ttl + COLD_MARGIN
  }

  // The tracker's clock for a turn: its own record, else its parent's.
  function PrevTurn(c: Clocks, key: string, parent: string): nat {
    if key in c.turns then c.turns[key] else if parent != "" then Lookup(c.turns, parent) else 0
  }

  // sessionTTL: the longest lifetime recorded under k, now including ttl.
  function Widened(ttls: map<string, nat>, k: string, ttl: nat): (nat, map<string, nat>) {
    if k in ttls && ttls[k] > ttl then (ttls[k], ttls) else (ttl, ttls[k := ttl])
  }

  function TurnTTL(c: Clocks, e: Event): (nat, map<string, nat>)
    requires e.Turn? && e.ttl.Exact?
  {
    var (own, m1) := Widened(c.ttls, e.key, e.ttl.ms);
    var withParent := Max(own, if e.parent == "" then 0 else Lookup(m1, e.parent));
    Widened(m1, e.alias, withParent)
  }

  function Touched(c: Clocks, alias: string, now: nat): Clocks {
    if now == 0 || alias == "" || (alias in c.seen && c.seen[alias] >= now) then c
    else c.(seen := c.seen[alias := now])
  }

  function Apply(c: Clocks, e: Event): Clocks {
    match e
    case Touch(alias, now) => Touched(c, alias, now)
    case Turn(key, _, alias, ttl, now) =>
      Clocks(if now == 0 then c.turns[key := Lookup(c.turns, key)] else c.turns[key := now],
             if now == 0 then c.seen else c.seen[alias := now],
             if ttl.Exact? then TurnTTL(c, e).1 else c.ttls)
  }

  // The verdict of one turn: past a minimum the entry may still be there, so only an exact lifetime tells.
  predicate DeclaresCold(c: Clocks, e: Event)
    requires e.Turn?
  {
    var aliasAt := if e.now == 0 then 0 else Lookup(c.seen, e.alias);
    e.ttl.Exact? && CacheIsCold(Max(PrevTurn(c, e.key, e.parent), aliasAt), e.now, TurnTTL(c, e).0)
  }

  class Store {
    var turns: map<string, nat>
    var seen: map<string, nat>
    var ttls: map<string, nat>

    function State(): Clocks
      reads this
    {
      Clocks(turns, seen, ttls)
    }

    constructor ()
      ensures State() == Clocks(map[], map[], map[])
    {
      turns, seen, ttls := map[], map[], map[];
    }

    method AliasSeen(alias: string, now: nat) returns (prev: nat)
      modifies this`seen
      ensures prev == if now == 0 then 0 else Lookup(old(seen), alias)
      ensures seen == if now == 0 then old(seen) else old(seen)[alias := now]
    {
      if now == 0 { return 0; }
      prev := Lookup(seen, alias);
      seen := seen[alias := now];
    }

    method RecordCacheTouchAlias(alias: string, now: nat)
      modifies this`seen
      ensures State() == Touched(old(State()), alias, now)
    {
      if now == 0 || alias == "" { return; }
      if alias in seen && seen[alias] >= now { return; }
      seen := seen[alias := now];
    }

    method SessionTTL(k: string, ttl: nat) returns (longest: nat)
      modifies this`ttls
      ensures (longest, ttls) == Widened(old(ttls), k, ttl)
    {
      if k in ttls && ttls[k] > ttl { return ttls[k]; }
      ttls := ttls[k := ttl];
      return ttl;
    }

    method ColdTurn(key: string, parent: string, alias: string, asked: Lifetime, now: nat) returns (cold: bool)
      modifies this
      ensures State() == Apply(old(State()), Turn(key, parent, alias, asked, now))
      ensures cold == DeclaresCold(old(State()), Turn(key, parent, alias, asked, now))
    {
      var prevAt := PrevTurn(State(), key, parent);
      turns := turns[key := if now == 0 then Lookup(turns, key) else now];
      var aliasAt := AliasSeen(alias, now);
      if aliasAt > prevAt { prevAt := aliasAt; }
      if asked.Inexact? { return false; }
      var ttl := SessionTTL(key, asked.ms);
      if parent != "" && Lookup(ttls, parent) > ttl { ttl := Lookup(ttls, parent); }
      var a := SessionTTL(alias, ttl);
      if a > ttl { ttl := a; }
      cold := CacheIsCold(prevAt, now, ttl);
    }
  }

  // ---- Every run ------------------------------------------------------------------------------

  function Run(events: seq<Event>): Clocks {
    if events == [] then Clocks(map[], map[], map[]) else Apply(Run(events[..|events| - 1]), events[|events| - 1])
  }

  // Real clock readings, in order.
  ghost predicate Timed(events: seq<Event>) {
    && (forall i :: 0 <= i < |events| ==> events[i].now > 0 && events[i].alias != "")
    && (forall i, j :: 0 <= i < j < |events| ==> events[i].now <= events[j].now)
  }

  // The longest lifetime any turn asked for under alias.
  function LongestAsked(events: seq<Event>, alias: string): nat {
    if events == [] then 0
    else
      var e, before := events[|events| - 1], LongestAsked(events[..|events| - 1], alias);
      if e.Turn? && e.ttl.Exact? && e.alias == alias then Max(e.ttl.ms, before) else before
  }

  // The alias clock is never behind an event on that alias, and its TTL record never below what was asked.
  lemma {:induction false} AliasClockKeepsUp(events: seq<Event>, j: nat)
    requires Timed(events) && j < |events|
    ensures var c := Run(events); events[j].alias in c.seen && events[j].now <= c.seen[events[j].alias]
  {
    var n := |events| - 1;
    var init, e := events[..n], events[n];
    if j < n {
      AliasClockKeepsUp(init, j);
      SeenIsPast(init, events[j].alias, e.now);
    }
  }

  lemma {:induction false} SeenIsPast(events: seq<Event>, alias: string, now: nat)
    requires forall i :: 0 <= i < |events| ==> events[i].now <= now
    ensures Lookup(Run(events).seen, alias) <= now
  {
    if events != [] { SeenIsPast(events[..|events| - 1], alias, now); }
  }

  lemma {:induction false} TTLRecordKeepsUp(events: seq<Event>, alias: string)
    ensures LongestAsked(events, alias) <= Lookup(Run(events).ttls, alias)
  {
    if events != [] { TTLRecordKeepsUp(events[..|events| - 1], alias); }
  }

  /**
   * A live cache is never called cold: if a turn is declared cold, every earlier event on its alias,
   * under whichever session id, is older than the longest lifetime any turn ever asked for under that
   * alias plus the margin.
   */
  lemma {:induction false} ColdOnlyWhenIdle(events: seq<Event>, e: Event, j: nat)
    requires Timed(events + [e]) && e.Turn? && j < |events| && events[j].alias == e.alias
    requires DeclaresCold(Run(events), e)
    ensures e.now - events[j].now >= LongestAsked(events + [e], e.alias) + COLD_MARGIN
  {
    assert forall i :: 0 <= i < |events| ==> (events + [e])[i] == events[i];
    assert Timed(events);
    AliasClockKeepsUp(events, j);
    TTLRecordKeepsUp(events, e.alias);
    assert (events + [e])[..|events|] == events;
  }

  // ---- One conversation under one alias: the verdict exactly ------------------------------------

  ghost predicate OneAlias(events: seq<Event>, alias: string) {
    forall i :: 0 <= i < |events| ==> events[i].alias == alias
  }

  // Every clock and record is one an event on the alias accounts for.
  ghost predicate Accounted(c: Clocks, last: nat, longest: nat) {
    && (forall k :: k in c.turns ==> c.turns[k] <= last)
    && (forall k :: k in c.seen ==> c.seen[k] <= last)
    && (forall k :: k in c.ttls ==> c.ttls[k] <= longest)
  }

  lemma {:induction false} AlwaysAccounted(events: seq<Event>, alias: string)
    requires Timed(events) && OneAlias(events, alias)
    ensures Accounted(Run(events), if events == [] then 0 else events[|events| - 1].now, LongestAsked(events, alias))
  {
    if events != [] { AlwaysAccounted(events[..|events| - 1], alias); }
  }

  // What an accounted set of clocks says about a turn, given that the alias's own are exact.
  lemma {:induction false} VerdictOf(c: Clocks, e: Event, last: nat, longest: nat)
    requires e.Turn? && e.ttl.Exact? && e.now > 0 && Accounted(c, last, longest)
    requires Lookup(c.seen, e.alias) == last && Lookup(c.ttls, e.alias) == longest
    ensures DeclaresCold(c, e) <==> last > 0 && e.now - last >= Max(e.ttl.ms, longest) + COLD_MARGIN
  {
    assert TurnTTL(c, e).0 == Max(e.ttl.ms, longest);
    assert PrevTurn(c, e.key, e.parent) <= last;
  }

  /**
   * When all of a conversation arrives under one alias, by either session id and in any thread, a turn
   * is declared cold if and only if its lifetime is known exactly, something came before it, and the last
   * event is at least the longest lifetime ever asked for, plus the margin, in the past.
   */
  lemma {:induction false} ColdExactly(events: seq<Event>, e: Event)
    requires Timed(events) && e.Turn? && e.now > 0 && OneAlias(events, e.alias)
    ensures DeclaresCold(Run(events), e) <==>
      && e.ttl.Exact? && events != []
      && e.now - events[|events| - 1].now >= Max(e.ttl.ms, LongestAsked(events, e.alias)) + COLD_MARGIN
  {
    AlwaysAccounted(events, e.alias);
    TTLRecordKeepsUp(events, e.alias);
    if events != [] { AliasClockKeepsUp(events, |events| - 1); }
    if e.ttl.Exact? {
      VerdictOf(Run(events), e, if events == [] then 0 else events[|events| - 1].now, LongestAsked(events, e.alias));
    }
  }

  // ---- Any run: the verdict from the events alone ------------------------------------------------

  // The time of the last turn under a thread key, and whether there was one.
  function LastTurn(events: seq<Event>, key: string): Option<nat> {
    if events == [] then None
    else
      var e := events[|events| - 1];
      if e.Turn? && e.key == key then Some(e.now) else LastTurn(events[..|events| - 1], key)
  }

  // The time of the last event on an alias, 0 before any.
  function LastOn(events: seq<Event>, alias: string): nat {
    if events == [] then 0
    else if events[|events| - 1].alias == alias then events[|events| - 1].now
    else LastOn(events[..|events| - 1], alias)
  }

  // When the thread was last served: by a turn of its own or, on its first, by one of the thread it continues.
  function LastServed(events: seq<Event>, e: Event): nat
    requires e.Turn?
  {
    if LastTurn(events, e.key).Some? then LastTurn(events, e.key).value
    else if e.parent != "" && LastTurn(events, e.parent).Some? then LastTurn(events, e.parent).value
    else 0
  }

  // The longest lifetime that reached an id, thread or alias: a turn's reaches its thread, and its alias too,
  // there with all that had reached its thread and the thread it continues.
  function Reached(events: seq<Event>, id: string): nat
    decreases |events|, 0
  {
    if events == [] then 0
    else
      var e, init := events[|events| - 1], events[..|events| - 1];
      if e.Touch? || e.ttl.Inexact? then Reached(init, id)
      else
        var own := if id == e.key then Max(e.ttl.ms, Reached(init, id)) else Reached(init, id);
        if id == e.alias then Max(own, Asked(init, e)) else own
  }

  // What a turn brings to its alias.
  function Asked(events: seq<Event>, e: Event): nat
    requires e.Turn? && e.ttl.Exact?
    decreases |events|, 1
  {
    var own := Max(e.ttl.ms, Reached(events, e.key));
    if e.parent == "" then own else Max(own, Reached(events, e.parent))
  }

  lemma {:induction false} ClocksAre(events: seq<Event>, key: string, alias: string)
    requires Timed(events)
    ensures var c := Run(events);
      && (key in c.turns <==> LastTurn(events, key).Some?)
      && (key in c.turns ==> LastTurn(events, key) == Some(c.turns[key]))
      && Lookup(c.seen, alias) == LastOn(events, alias)
  {
    if events != [] {
      var init, e := events[..|events| - 1], events[|events| - 1];
      ClocksAre(init, key, alias);
      if e.Touch? { SeenIsPast(init, alias, e.now); }
    }
  }

  lemma {:induction false} WidenedIs(ttls: map<string, nat>, k: string, ttl: nat, id: string)
    ensures Widened(ttls, k, ttl).0 == Max(ttl, Lookup(ttls, k))
    ensures Lookup(Widened(ttls, k, ttl).1, id) == if id == k then Max(ttl, Lookup(ttls, k)) else Lookup(ttls, id)
  {
  }

  // What one turn makes of the records.
  lemma {:induction false} TurnRecords(c: Clocks, e: Event, id: string)
    requires e.Turn? && e.ttl.Exact?
    ensures var own := Max(e.ttl.ms, Lookup(c.ttls, e.key));
      var asked := if e.parent == "" then own else Max(own, Lookup(c.ttls, e.parent));
      var kept := if id == e.key then own else Lookup(c.ttls, id);
      Lookup(Apply(c, e).ttls, id) == if id == e.alias then Max(kept, asked) else kept
  {
    var (own, m1) := Widened(c.ttls, e.key, e.ttl.ms);
    WidenedIs(c.ttls, e.key, e.ttl.ms, id);
    WidenedIs(c.ttls, e.key, e.ttl.ms, e.parent);
    WidenedIs(c.ttls, e.key, e.ttl.ms, e.alias);
    WidenedIs(m1, e.alias, Max(own, if e.parent == "" then 0 else Lookup(m1, e.parent)), id);
  }

  lemma {:induction false} RecordsAre(events: seq<Event>, id: string)
    ensures Lookup(Run(events).ttls, id) == Reached(events, id)
    decreases |events|
  {
    if events != [] {
      var init, e := events[..|events| - 1], events[|events| - 1];
      RecordsAre(init, id);
      if e.Turn? && e.ttl.Exact? {
        RecordsAre(init, e.key);
        RecordsAre(init, e.parent);
        TurnRecords(Run(init), e, id);
      }
    }
  }

  /**
   * The verdict of any turn after any timed run: cold if and only if its lifetime is known exactly, its thread or
   * its alias was seen before, and the later of the two is as far back as the longest lifetime that reached the
   * thread, the thread it continues or the alias, and the margin.
   */
  lemma {:induction false} VerdictIs(events: seq<Event>, e: Event)
    requires Timed(events + [e]) && e.Turn?
    ensures DeclaresCold(Run(events), e) <==>
      && e.ttl.Exact?
      && var seen := Max(LastServed(events, e), LastOn(events, e.alias));
         seen > 0 && e.now - seen >= Max(Asked(events, e), Reached(events, e.alias)) + COLD_MARGIN
  {
    assert forall i :: 0 <= i < |events| ==> (events + [e])[i] == events[i];
    assert Timed(events) && (events + [e])[|events|] == e;
    ClocksAre(events, e.key, e.alias);
    ClocksAre(events, e.parent, e.alias);
    RecordsAre(events, e.key);
    RecordsAre(events, e.parent);
    RecordsAre(events, e.alias);
  }
}
