/**
 * The dashboard's stale-while-revalidate response cache (dash/api.go).
 *
 * `Cache` is what the mutex protects and each function below is one hold of it. Readers, cold
 * flights, background refreshes and clears are interleaved by `Run`, one hold per event; a reader's
 * load and its claim of the refresh are two separate holds, as in serveJSON.
 */
module JsonCache {
  const CACHE_TTL: nat := 30_000
  const CACHE_STALE: nat := 600_000
  const COMPUTE_TIMEOUT: nat := 120_000
  const MAX_BEFORE_DROP: nat := 256

  import opened Lists

  datatype Entry = Entry(at: int, body: string)

  datatype Cache = Cache(entries: map<string, Entry>, refreshing: set<string>, gen: nat)

  datatype Answer = Answer(body: string, young: bool, age: int)

  function Cleared(c: Cache): Cache {
    c.(entries := map[], gen := c.gen + 1)
  }

  function Loaded(c: Cache, key: string, now: int): Option<Answer> {
    if key !in c.entries then None
    else
      var age := now - c.entries[key].at;
      if age >= CACHE_TTL + CACHE_STALE && key !in c.refreshing then None
      else Some(Answer(c.entries[key].body, age < CACHE_TTL, age))
  }

  function Stored(c: Cache, key: string, body: string, now: int): Cache {
    var kept := if |c.entries| > MAX_BEFORE_DROP then map[] else c.entries;
    c.(entries := kept[key := Entry(now, body)])
  }

  function StoredIfCurrent(c: Cache, key: string, body: string, gen: nat, now: int): Cache {
    if c.gen == gen then Stored(c, key, body, now) else c
  }

  class ResponseCache {
    var entries: map<string, Entry>
    var refreshing: set<string>
    var gen: nat

    ghost function State(): Cache
      reads this
    {
      Cache(entries, refreshing, gen)
    }

    constructor ()
      ensures State() == Cache(map[], {}, 0)
    {
      entries, refreshing, gen := map[], {}, 0;
    }

    method Clear()
      modifies this`entries, this`gen
      ensures State() == Cleared(old(State()))
    {
      entries := map[];
      gen := gen + 1;
    }

    method LoadAged(key: string, now: int) returns (answer: Option<Answer>)
      ensures answer == Loaded(State(), key, now)
      ensures answer.Some? <==> key in entries && (now - entries[key].at < CACHE_TTL + CACHE_STALE || key in refreshing)
    {
      if key !in entries { return None; }
      var age := now - entries[key].at;
      if age >= CACHE_TTL + CACHE_STALE && key !in refreshing { return None; }
      return Some(Answer(entries[key].body, age < CACHE_TTL, age));
    }

    method BeginRefresh(key: string) returns (ok: bool)
      modifies this`refreshing
      ensures ok == (key !in old(refreshing))
      ensures State() == old(State()).(refreshing := old(refreshing) + {key})
    {
      if key in refreshing {
        assert refreshing + {key} == refreshing;
        return false;
      }
      refreshing := refreshing + {key};
      return true;
    }

    method EndRefresh(key: string)
      modifies this`refreshing
      ensures State() == old(State()).(refreshing := old(refreshing) - {key})
    {
      refreshing := refreshing - {key};
    }

    method SetIfCurrent(key: string, body: string, began: nat, now: int)
      modifies this`entries
      ensures State() == StoredIfCurrent(old(State()), key, body, began, now)
    {
      if gen == began {
        if |entries| > MAX_BEFORE_DROP { entries := map[]; }
        entries := entries[key := Entry(now, body)];
      }
    }
  }

  // ---- The protocol -----------------------------------------------------------------------------

  // A computation: a cold flight, or (background) a refresh holding its key's claim. `since` is the
  // event at which it read the generation, just before it began to compute.
  datatype Phase = Started | Computing(gen: nat, since: nat) | Done | Ended

  datatype Worker = Worker(key: string, background: bool, phase: Phase)

  // Beside the cache: the workers, the readers that saw a stale body and have yet to claim, and, for
  // stating the properties, where each entry came from, when each claim was taken, the event count
  // and the last clear.
  datatype Sys = Sys(
    cache: Cache, workers: seq<Worker>, pending: seq<string>, now: nat,
    origin: map<string, nat>, claimedAt: map<string, nat>, events: nat, lastClear: nat)

  datatype Event =
    | Tick(ms: nat)
    | Clear
    | Load(key: string)
    | Claim(reader: nat)
    | StartFlight(key: string)
    | ReadGen(id: nat)
    | Finish(id: nat, body: string)
    | End(id: nat)

  predicate Flying(s: Sys, key: string) {
    exists i :: 0 <= i < |s.workers| && s.workers[i].key == key && !s.workers[i].background && s.workers[i].phase != Ended
  }

  predicate StaleFor(s: Sys, key: string) {
    var a := Loaded(s.cache, key, s.now);
    a.Some? && !a.value.young
  }

  // beginRefresh, and the refresh goroutine it starts when it wins.
  function Begun(s: Sys, key: string): Sys {
    if key in s.cache.refreshing then s
    else s.(cache := s.cache.(refreshing := s.cache.refreshing + {key}),
            workers := s.workers + [Worker(key, true, Started)],
            claimedAt := s.claimedAt[key := s.now])
  }

  function Finished(s: Sys, id: nat, body: string): Sys
    requires id < |s.workers| && s.workers[id].phase.Computing?
  {
    var w := s.workers[id];
    var next := StoredIfCurrent(s.cache, w.key, body, w.phase.gen, s.now);
    s.(cache := next,
       workers := s.workers[id := w.(phase := Done)],
       origin := if s.cache.gen == w.phase.gen then s.origin[w.key := w.phase.since] else s.origin)
  }

  function Stopped(s: Sys, id: nat): Sys
    requires id < |s.workers|
  {
    var w := s.workers[id];
    s.(cache := if w.background && w.phase != Ended then s.cache.(refreshing := s.cache.refreshing - {w.key}) else s.cache,
       workers := s.workers[id := w.(phase := Ended)])
  }

  // An event that is not possible in s changes nothing but the event count.
  function Effect(s: Sys, e: Event): Sys {
    match e
    case Tick(ms) => s.(now := s.now + ms)
    case Clear => s.(cache := Cleared(s.cache), lastClear := s.events)
    case Load(key) => if StaleFor(s, key) then s.(pending := s.pending + [key]) else s
    case Claim(r) => if r < |s.pending| then Begun(s, s.pending[r]) else s
    case StartFlight(key) => if Flying(s, key) then s else s.(workers := s.workers + [Worker(key, false, Started)])
    case ReadGen(id) =>
      if id < |s.workers| && s.workers[id].phase.Started?
      then s.(workers := s.workers[id := s.workers[id].(phase := Computing(s.cache.gen, s.events))])
      else s
    case Finish(id, body) => if id < |s.workers| && s.workers[id].phase.Computing? then Finished(s, id, body) else s
    case End(id) => if id < |s.workers| then Stopped(s, id) else s
  }

  function Step(s: Sys, e: Event): Sys {
    Effect(s, e).(events := s.events + 1)
  }

  function Run(events: seq<Event>): Sys {
    if events == [] then Sys(Cache(map[], {}, 0), [], [], 0, map[], map[], 1, 0)
    else Step(Run(events[..|events| - 1]), events[|events| - 1])
  }

  // ---- What every interleaving keeps --------------------------------------------------------------

  // Every entry comes from a compute that began after the last clear.
  ghost predicate EntriesCurrent(s: Sys) {
    forall key :: key in s.cache.entries ==> key in s.origin && s.lastClear <= s.origin[key] < s.events
  }

  // A worker whose generation is still the cache's read it after the last clear.
  ghost predicate WorkersCurrent(s: Sys) {
    && s.lastClear < s.events
    && forall i :: 0 <= i < |s.workers| && s.workers[i].phase.Computing? ==>
      && s.workers[i].phase.gen <= s.cache.gen
      && s.workers[i].phase.since < s.events
      && (s.workers[i].phase.gen == s.cache.gen ==> s.lastClear <= s.workers[i].phase.since)
  }

  predicate Holds(s: Sys, i: nat, key: string) {
    i < |s.workers| && s.workers[i].key == key && s.workers[i].background && s.workers[i].phase != Ended
  }

  ghost predicate OneRefresh(s: Sys) {
    && (forall i, j, key :: Holds(s, i, key) && Holds(s, j, key) ==> i == j)
    && (forall key :: key in s.cache.refreshing <==> exists i :: Holds(s, i, key))
  }

  predicate Bounded(s: Sys) {
    |s.cache.entries| <= MAX_BEFORE_DROP + 1
  }

  lemma {:induction false} StepWorkers(s: Sys, e: Event)
    requires WorkersCurrent(s)
    ensures WorkersCurrent(Step(s, e))
  {
  }

  lemma {:induction false} StepEntries(s: Sys, e: Event)
    requires WorkersCurrent(s) && EntriesCurrent(s)
    ensures EntriesCurrent(Step(s, e))
  {
  }

  lemma {:induction false} BegunOne(s: Sys, key: string)
    requires OneRefresh(s)
    ensures OneRefresh(Begun(s, key))
  {
    var u := Begun(s, key);
    if key !in s.cache.refreshing {
      var n := |s.workers|;
      assert forall i: nat, k :: i < n ==> Holds(u, i, k) == Holds(s, i, k);
      assert forall k :: Holds(u, n, k) <==> k == key;
      forall k ensures k in u.cache.refreshing <==> exists i :: Holds(u, i, k) {
        if k in s.cache.refreshing {
          var i :| Holds(s, i, k);
          assert Holds(u, i, k);
        } else if k == key {
          assert Holds(u, n, k);
        }
      }
    }
  }

  lemma {:induction false} StoppedOne(s: Sys, id: nat)
    requires OneRefresh(s) && id < |s.workers|
    ensures OneRefresh(Stopped(s, id))
  {
    var u := Stopped(s, id);
    assert forall i: nat, k :: Holds(u, i, k) <==> Holds(s, i, k) && i != id;
    forall k ensures k in u.cache.refreshing <==> exists i :: Holds(u, i, k) {
      if k in s.cache.refreshing && !Holds(s, id, k) {
        var i :| Holds(s, i, k);
        assert Holds(u, i, k);
      }
    }
  }

  // A change that moves no worker in or out of holding a claim keeps the claims as they are.
  lemma {:induction false} SameHolders(s: Sys, u: Sys)
    requires OneRefresh(s) && u.cache.refreshing == s.cache.refreshing
    requires forall i: nat, k :: Holds(u, i, k) == Holds(s, i, k)
    ensures OneRefresh(u)
  {
  }

  lemma {:induction false} StepOne(s: Sys, e: Event)
    requires OneRefresh(s)
    ensures OneRefresh(Step(s, e))
  {
    var u := Effect(s, e);
    assert OneRefresh(u) by {
      match e
      case Claim(r) => if r < |s.pending| { BegunOne(s, s.pending[r]); }
      case End(id) => if id < |s.workers| { StoppedOne(s, id); }
      case _ => SameHolders(s, u);
    }
    SameHolders(u, Step(s, e));
  }

  lemma {:induction false} StoreBound(c: Cache, key: string, body: string, now: int)
    requires |c.entries| <= MAX_BEFORE_DROP + 1
    ensures |Stored(c, key, body, now).entries| <= MAX_BEFORE_DROP + 1
  {
    var kept := if |c.entries| > MAX_BEFORE_DROP then map[] else c.entries;
    assert kept[key := Entry(now, body)].Keys == kept.Keys + {key};
  }

  lemma {:induction false} StepBounded(s: Sys, e: Event)
    requires Bounded(s)
    ensures Bounded(Step(s, e))
  {
    if e.Finish? && e.id < |s.workers| { StoreBound(s.cache, s.workers[e.id].key, e.body, s.now); }
  }

  /**
   * In every interleaving: each stored entry comes from a compute that began after the last clear,
   * each claimed key has exactly one refresh holding it, and the map never exceeds 257 entries.
   */
  lemma {:induction false} AlwaysSafe(events: seq<Event>)
    ensures EntriesCurrent(Run(events)) && WorkersCurrent(Run(events))
    ensures OneRefresh(Run(events)) && Bounded(Run(events))
  {
    if events != [] {
      var init, e := events[..|events| - 1], events[|events| - 1];
      AlwaysSafe(init);
      StepWorkers(Run(init), e);
      StepEntries(Run(init), e);
      StepOne(Run(init), e);
      StepBounded(Run(init), e);
    }
  }

  // A body past TTL plus stale is answered only while one refresh of its key holds the claim, and
  // whatever is answered is the stored body at its own age.
  lemma {:induction false} StaleOnlyWhileRefreshing(events: seq<Event>, key: string)
    ensures var s := Run(events);
      var a := Loaded(s.cache, key, s.now);
      a.Some? ==>
        && key in s.cache.entries && key in s.origin && s.lastClear <= s.origin[key]
        && a.value.body == s.cache.entries[key].body && a.value.age == s.now - s.cache.entries[key].at
        && (a.value.young <==> a.value.age < CACHE_TTL)
        && (a.value.age >= CACHE_TTL + CACHE_STALE ==>
              exists i :: Holds(s, i, key) && forall j :: Holds(s, j, key) ==> j == i)
  {
    AlwaysSafe(events);
  }

  // ---- What is stored is answered -------------------------------------------------------------------

  // This event ends the answers with an earlier body: a clear, or a store of the current generation that
  // replaces the key's body or finds the map too large.
  predicate Displaces(s: Sys, e: Event, key: string) {
    || e.Clear?
    || (&& e.Finish? && e.id < |s.workers| && s.workers[e.id].phase.Computing? && s.workers[e.id].phase.gen == s.cache.gen
        && (s.workers[e.id].key == key || |s.cache.entries| > MAX_BEFORE_DROP))
  }

  // The body stored for the key, still there.
  predicate Standing(s: Sys, key: string, body: string, at: nat) {
    key in s.cache.entries && s.cache.entries[key] == Entry(at, body) && at <= s.now
  }

  lemma {:induction false} StepStands(s: Sys, e: Event, key: string, body: string, at: nat)
    requires Standing(s, key, body, at) && !Displaces(s, e, key)
    ensures Standing(Step(s, e), key, body, at)
  {
  }

  lemma {:induction false} RunNext(events: seq<Event>, k: nat)
    requires k < |events|
    ensures Run(events[..k + 1]) == Step(Run(events[..k]), events[k])
  {
    assert events[..k + 1][..k] == events[..k];
  }

  // Nothing displaces the key's body at event j.
  ghost predicate Undisturbed(events: seq<Event>, key: string, j: nat)
    requires j < |events|
  {
    !Displaces(Run(events[..j]), events[j], key)
  }

  lemma {:induction false} StandsNext(events: seq<Event>, key: string, body: string, at: nat, k: nat)
    requires k < |events| && Standing(Run(events[..k]), key, body, at) && Undisturbed(events, key, k)
    ensures Standing(Run(events[..k + 1]), key, body, at)
  {
    RunNext(events, k);
    StepStands(Run(events[..k]), events[k], key, body, at);
  }

  lemma {:induction false} StillStands(events: seq<Event>, m: nat, key: string, body: string, at: nat, n: nat)
    requires m <= n <= |events| && Standing(Run(events[..m]), key, body, at)
    requires forall j :: m <= j < n ==> Undisturbed(events, key, j)
    ensures Standing(Run(events[..n]), key, body, at)
  {
    if m < n {
      var k := n - 1;
      StillStands(events, m, key, body, at, k);
      StandsNext(events, key, body, at, k);
    }
  }

  // A finished compute of the current generation leaves its body standing.
  lemma {:induction false} FinishStands(s: Sys, id: nat, body: string)
    requires id < |s.workers| && s.workers[id].phase.Computing? && s.workers[id].phase.gen == s.cache.gen
    ensures Standing(Step(s, Finish(id, body)), s.workers[id].key, body, s.now)
  {
  }

  // What a load answers for a standing body.
  ghost predicate AnsweredWith(s: Sys, key: string, body: string, at: nat) {
    var a, age := Loaded(s.cache, key, s.now), s.now - at;
    && (a.Some? <==> age < CACHE_TTL + CACHE_STALE || exists i :: Holds(s, i, key))
    && (a.Some? ==> a.value == Answer(body, age < CACHE_TTL, age))
  }

  lemma {:induction false} StandingIsAnswered(s: Sys, key: string, body: string, at: nat)
    requires Standing(s, key, body, at) && OneRefresh(s)
    ensures AnsweredWith(s, key, body, at)
  {
  }

  // Event m is a compute of the current generation finishing with this body for this key.
  predicate Stores(s: Sys, e: Event, key: string, body: string) {
    && e.Finish? && e.body == body && e.id < |s.workers| && s.workers[e.id].key == key
    && s.workers[e.id].phase.Computing? && s.workers[e.id].phase.gen == s.cache.gen
  }

  /**
   * A body a compute of the current generation stored is what every load answers, at its age, until a clear,
   * a newer store of the key or a drop of the map: always before TTL plus stale, and past that exactly while
   * a refresh of the key is unfinished.
   */
  lemma {:induction false} StoredIsAnswered(events: seq<Event>, m: nat, key: string, body: string)
    requires m < |events| && Stores(Run(events[..m]), events[m], key, body)
    requires forall j :: m < j < |events| ==> Undisturbed(events, key, j)
    ensures AnsweredWith(Run(events), key, body, Run(events[..m]).now)
  {
    StoreStands(events, m, key, body);
    StillStands(events, m + 1, key, body, Run(events[..m]).now, |events|);
    AlwaysSafe(events);
    assert events[..|events|] == events;
    StandingIsAnswered(Run(events), key, body, Run(events[..m]).now);
  }

  lemma {:induction false} StoreStands(events: seq<Event>, m: nat, key: string, body: string)
    requires m < |events| && Stores(Run(events[..m]), events[m], key, body)
    ensures Standing(Run(events[..m + 1]), key, body, Run(events[..m]).now)
  {
    assert events[..m + 1][..m] == events[..m];
    FinishStands(Run(events[..m]), events[m].id, body);
  }

  // A stale answer leaves its reader to claim, and once it has claimed a refresh of the key is running.
  lemma {:induction false} StaleReaderRefreshes(s: Sys, key: string)
    requires OneRefresh(s) && key in s.cache.entries
    requires CACHE_TTL <= s.now - s.cache.entries[key].at < CACHE_TTL + CACHE_STALE
    ensures exists i :: Holds(Step(Step(s, Load(key)), Claim(|s.pending|)), i, key)
  {
    var loaded := Step(s, Load(key));
    assert loaded.pending == s.pending + [key];
    StepOne(s, Load(key));
    StepOne(loaded, Claim(|s.pending|));
  }

  lemma {:induction false} FlightStarts(s: Sys, key: string)
    requires !Flying(s, key)
    ensures var id, u := |s.workers|, Step(Step(s, StartFlight(key)), ReadGen(|s.workers|));
      && u.cache == s.cache && u.now == s.now && |u.workers| == id + 1 && u.workers[id].key == key
      && u.workers[id].phase.Computing? && u.workers[id].phase.gen == s.cache.gen
  {
  }

  // A cold reader's flight, once it has read its generation and finished, answers the next load.
  lemma {:induction false} FlightAnswers(s: Sys, key: string, body: string)
    requires !Flying(s, key)
    ensures var id := |s.workers|;
      var u := Step(Step(Step(s, StartFlight(key)), ReadGen(id)), Finish(id, body));
      u.now == s.now && Loaded(u.cache, key, u.now) == Some(Answer(body, true, 0))
  {
    FlightStarts(s, key);
    FinishStands(Step(Step(s, StartFlight(key)), ReadGen(|s.workers|)), |s.workers|, body);
  }

  // ---- The time bound -----------------------------------------------------------------------------

  // Past TTL plus stale, a body is answered for no longer than the key's refresh has been running.
  predicate AnswersInBound(s: Sys, key: string) {
    var a := Loaded(s.cache, key, s.now);
    a.Some? && a.value.age >= CACHE_TTL + CACHE_STALE ==>
      key in s.claimedAt && a.value.age < CACHE_TTL + CACHE_STALE + (s.now - s.claimedAt[key])
  }

  // A claim that wins finds an entry load would still answer on its own.
  predicate ClaimsInTime(s: Sys, e: Event) {
    e.Claim? && e.reader < |s.pending| ==>
      var key := s.pending[e.reader];
      key !in s.cache.refreshing && key in s.cache.entries ==>
        s.now - s.cache.entries[key].at < CACHE_TTL + CACHE_STALE
  }

  ghost predicate ClaimsAreYoung(s: Sys) {
    && (forall key :: key in s.cache.entries ==> s.cache.entries[key].at <= s.now)
    && forall key :: key in s.cache.refreshing ==>
      && key in s.claimedAt && s.claimedAt[key] <= s.now
      && (key in s.cache.entries ==> s.claimedAt[key] < s.cache.entries[key].at + CACHE_TTL + CACHE_STALE)
  }

  lemma {:induction false} StoreYoung(s: Sys, id: nat, body: string)
    requires ClaimsAreYoung(s) && id < |s.workers| && s.workers[id].phase.Computing?
    ensures ClaimsAreYoung(Finished(s, id, body))
  {
  }

  lemma {:induction false} StepYoung(s: Sys, e: Event)
    requires ClaimsAreYoung(s) && ClaimsInTime(s, e)
    ensures ClaimsAreYoung(Step(s, e))
  {
    if e.Finish? && e.id < |s.workers| && s.workers[e.id].phase.Computing? { StoreYoung(s, e.id, e.body); }
  }

  lemma {:induction false} AlwaysYoung(events: seq<Event>, n: nat)
    requires n <= |events|
    requires forall k :: 0 <= k < n ==> ClaimsInTime(Run(events[..k]), events[k])
    ensures ClaimsAreYoung(Run(events[..n]))
  {
    if n > 0 {
      AlwaysYoung(events, n - 1);
      assert events[..n][..n - 1] == events[..n - 1];
      StepYoung(Run(events[..n - 1]), events[n - 1]);
    }
  }

  lemma {:induction false} YoungInBound(s: Sys, key: string)
    requires ClaimsAreYoung(s)
    ensures AnswersInBound(s, key)
  {
  }

  lemma {:induction false} LateClaimOutOfBound(s: Sys, e: Event)
    requires !ClaimsInTime(s, e)
    ensures !AnswersInBound(Step(s, e), s.pending[e.reader])
  {
  }

  ghost predicate AlwaysInBound(events: seq<Event>) {
    forall n, key :: 0 <= n <= |events| ==> AnswersInBound(Run(events[..n]), key)
  }

  ghost predicate AlwaysInTime(events: seq<Event>) {
    forall k :: 0 <= k < |events| ==> ClaimsInTime(Run(events[..k]), events[k])
  }

  /**
   * That bound holds throughout a run if and only if every winning claim came in time. serveJSON
   * loads and claims in two holds, so nothing makes it come in time.
   */
  lemma {:induction false} RunningBoundIff(events: seq<Event>)
    ensures AlwaysInBound(events) <==> AlwaysInTime(events)
  {
    if AlwaysInTime(events) {
      forall n, key | 0 <= n <= |events| ensures AnswersInBound(Run(events[..n]), key) {
        AlwaysYoung(events, n);
        YoungInBound(Run(events[..n]), key);
      }
    } else {
      var k :| 0 <= k < |events| && !ClaimsInTime(Run(events[..k]), events[k]);
      var s, after := Run(events[..k]), Run(events[..k + 1]);
      assert after == Step(s, events[k]) by { assert events[..k + 1][..k] == events[..k]; }
      LateClaimOutOfBound(s, events[k]);
      assert !AnswersInBound(after, s.pending[events[k].reader]);
    }
  }

  // ---- The documented bound -------------------------------------------------------------------------

  // The bound load's comment states.
  predicate WithinDocumented(s: Sys, key: string) {
    var a := Loaded(s.cache, key, s.now);
    a.Some? ==> a.value.age < CACHE_TTL + CACHE_STALE + COMPUTE_TIMEOUT
  }

  ghost predicate AlwaysDocumented(events: seq<Event>) {
    forall n, key :: 0 <= n <= |events| ==> WithinDocumented(Run(events[..n]), key)
  }

  // No refresh has outlived the timeout of its context.
  ghost predicate PromptNow(s: Sys) {
    forall key :: key in s.cache.refreshing ==> key in s.claimedAt && s.now <= s.claimedAt[key] + COMPUTE_TIMEOUT
  }

  ghost predicate Prompt(events: seq<Event>) {
    forall n :: 0 <= n <= |events| ==> PromptNow(Run(events[..n]))
  }

  // A run that is `events` up to n, and from there on has only prompt refreshes and claims in time.
  ghost predicate Continues(run: seq<Event>, events: seq<Event>, n: nat) {
    && n <= |events| && n <= |run| && run[..n] == events[..n] && Prompt(run)
    && forall k :: n <= k < |run| ==> ClaimsInTime(Run(run[..k]), run[k])
  }

  lemma {:induction false} InTimeIsDocumented(events: seq<Event>)
    requires Prompt(events) && AlwaysInTime(events)
    ensures AlwaysDocumented(events)
  {
    forall n, key | 0 <= n <= |events| ensures WithinDocumented(Run(events[..n]), key) {
      AlwaysYoung(events, n);
      YoungInBound(Run(events[..n]), key);
      assert PromptNow(Run(events[..n]));
    }
  }

  lemma {:induction false} ContinuesInTime(run: seq<Event>, events: seq<Event>, n: nat)
    requires Continues(run, events, n) && AlwaysInTime(events)
    ensures AlwaysInTime(run)
  {
    forall k | 0 <= k < n ensures ClaimsInTime(Run(run[..k]), run[k]) {
      assert run[..k] == run[..n][..k] == events[..n][..k] == events[..k];
      assert run[k] == run[..n][k] == events[k];
    }
  }

  lemma {:induction false} PromptOneMore(events: seq<Event>, e: Event)
    requires Prompt(events) && PromptNow(Run(events + [e]))
    ensures Prompt(events + [e])
  {
    forall n | 0 <= n <= |events| + 1 ensures PromptNow(Run((events + [e])[..n])) {
      if n <= |events| { assert (events + [e])[..n] == events[..n]; } else { assert (events + [e])[..n] == events + [e]; }
    }
  }

  lemma {:induction false} PromptEnds(events: seq<Event>)
    requires Prompt(events)
    ensures PromptNow(Run(events))
  {
    assert events[..|events|] == events;
  }

  // The first m workers are over, whatever they were doing; nothing else changed.
  ghost predicate OnlyEnded(s: Sys, u: Sys, m: nat) {
    && m <= |s.workers| == |u.workers|
    && (forall i :: 0 <= i < m ==> u.workers[i].phase == Ended)
    && (forall i :: m <= i < |s.workers| ==> u.workers[i] == s.workers[i])
    && u.cache.entries == s.cache.entries && u.cache.refreshing <= s.cache.refreshing
    && u.now == s.now && u.claimedAt == s.claimedAt
  }

  lemma {:induction false} EndOne(s: Sys, u: Sys, m: nat)
    requires m < |s.workers| && OnlyEnded(s, u, m) && PromptNow(u)
    ensures OnlyEnded(s, Step(u, End(m)), m + 1) && PromptNow(Step(u, End(m)))
  {
  }

  lemma {:induction false} EndFirst(events: seq<Event>, m: nat) returns (more: seq<Event>)
    requires Prompt(events) && m <= |Run(events).workers|
    ensures Prompt(more) && OnlyEnded(Run(events), Run(more), m)
    ensures |events| <= |more| && more[..|events|] == events && forall k :: |events| <= k < |more| ==> more[k].End?
  {
    more := events;
    if m > 0 {
      var init := EndFirst(events, m - 1);
      PromptEnds(init);
      EndOne(Run(events), Run(init), m - 1);
      var s;
      more, s := Then(init, Run(init), End(m - 1));
      assert more[..|events|] == init[..|events|];
    }
  }

  // With all the others over, the newest refresh is the only one left.
  lemma {:induction false} OneLeft(s: Sys, m: nat, key: string)
    requires OneRefresh(s) && |s.workers| == m + 1 && s.workers[m] == Worker(key, true, Started)
    requires forall i :: 0 <= i < m ==> s.workers[i].phase == Ended
    ensures s.cache.refreshing == {key}
  {
    assert Holds(s, m, key);
    forall k | k in s.cache.refreshing ensures k == key { var i :| Holds(s, i, k); }
  }

  lemma {:induction false} LateClaimWins(s: Sys, e: Event) returns (u: Sys, key: string)
    requires PromptNow(s) && !ClaimsInTime(s, e)
    ensures u == Step(s, e) && PromptNow(u) && key in u.cache.entries && key in u.claimedAt && u.claimedAt[key] == u.now
    ensures u.now - u.cache.entries[key].at >= CACHE_TTL + CACHE_STALE
    ensures u.workers == s.workers + [Worker(key, true, Started)]
  {
    u, key := Step(s, e), s.pending[e.reader];
  }

  lemma {:induction false} LoneRefreshBreaks(s: Sys, key: string)
    requires s.cache.refreshing == {key} && key in s.claimedAt && s.claimedAt[key] == s.now
    requires key in s.cache.entries && s.now - s.cache.entries[key].at >= CACHE_TTL + CACHE_STALE
    ensures var u := Step(s, Tick(COMPUTE_TIMEOUT)); PromptNow(u) && !WithinDocumented(u, key)
  {
  }

  // Once the others are over, the refresh of a late claim takes its body past the bound within its timeout.
  lemma {:induction false} LastRefreshBreaks(events: seq<Event>, u: Sys, m: nat, key: string) returns (more: seq<Event>)
    requires Prompt(events) && |u.workers| == m + 1 && u.workers[m] == Worker(key, true, Started) && OnlyEnded(u, Run(events), m)
    requires key in u.cache.entries && u.now - u.cache.entries[key].at >= CACHE_TTL + CACHE_STALE
    requires key in u.claimedAt && u.claimedAt[key] == u.now
    ensures more == events + [Tick(COMPUTE_TIMEOUT)] && Prompt(more) && !WithinDocumented(Run(more), key)
  {
    AlwaysSafe(events);
    OneLeft(Run(events), m, key);
    LoneRefreshBreaks(Run(events), key);
    var s;
    more, s := Then(events, Run(events), Tick(COMPUTE_TIMEOUT));
  }

  // A claim that comes late and wins: its refresh, ended within its timeout, still breaks the bound.
  lemma {:induction false} LateClaimBreaks(events: seq<Event>, e: Event) returns (more: seq<Event>, key: string)
    requires Prompt(events) && !ClaimsInTime(Run(events), e)
    ensures |events| < |more| && more[..|events| + 1] == events + [e] && Prompt(more)
    ensures forall k :: |events| < k < |more| ==> !more[k].Claim?
    ensures !WithinDocumented(Run(more), key)
  {
    PromptEnds(events);
    var u;
    u, key := LateClaimWins(Run(events), e);
    var claimed, next := Then(events, Run(events), e);
    var quiet := EndFirst(claimed, |u.workers| - 1);
    more := LastRefreshBreaks(quiet, u, |u.workers| - 1, key);
    assert more[..|events| + 1] == quiet[..|claimed|];
  }

  /**
   * Where no refresh outlives its timeout, the documented bound is safe from a run, whatever prompt
   * refreshes and timely claims come after any part of it, if and only if every winning claim of the run
   * came in time.
   */
  lemma {:induction false} StaleBoundIff(events: seq<Event>)
    requires Prompt(events)
    ensures AlwaysInTime(events) <==> forall run, n :: Continues(run, events, n) ==> AlwaysDocumented(run)
  {
    if AlwaysInTime(events) {
      forall run, n | Continues(run, events, n) ensures AlwaysDocumented(run) {
        ContinuesInTime(run, events, n);
        InTimeIsDocumented(run);
      }
    } else {
      var k :| 0 <= k < |events| && !ClaimsInTime(Run(events[..k]), events[k]);
      LateClaimUndocumented(events, k);
    }
  }

  lemma {:induction false} PromptPrefix(events: seq<Event>, k: nat)
    requires Prompt(events) && k <= |events|
    ensures Prompt(events[..k])
  {
    forall n | 0 <= n <= k ensures PromptNow(Run(events[..k][..n])) { assert events[..k][..n] == events[..n]; }
  }

  lemma {:induction false} LateClaimUndocumented(events: seq<Event>, k: nat)
    requires Prompt(events) && k < |events| && !ClaimsInTime(Run(events[..k]), events[k])
    ensures exists run :: Continues(run, events, k + 1) && !AlwaysDocumented(run)
  {
    PromptPrefix(events, k);
    var run, key := LateClaimBreaks(events[..k], events[k]);
    assert events[..k + 1] == events[..k] + [events[k]];
    assert Continues(run, events, k + 1);
    assert run[..|run|] == run;
    assert !AlwaysDocumented(run);
  }

  /**
   * And no other bound holds in its place: a reader that loads a stale body and
   * claims late lets a body of any age be answered by a refresh that has only just begun.
   */
  lemma {:induction false} StaleBoundFailsInTwoHolds(extra: nat) returns (events: seq<Event>)
    ensures var s := Run(events);
      var a := Loaded(s.cache, "k", s.now);
      && a.Some? && a.value.age >= CACHE_TTL + CACHE_STALE + extra
      && "k" in s.claimedAt && s.claimedAt["k"] == s.now
    ensures Prompt(events)
  {
    var s;
    events, s := StaleReader();
    events, s := Then(events, s, Tick(CACHE_STALE + extra));
    events, s := Then(events, s, Claim(0));
  }

  // A run that leaves one reader holding a stale body of "k", stored at time 0, and no refresh begun.
  lemma {:induction false} StaleReader() returns (events: seq<Event>, s: Sys)
    ensures s == Run(events) && s.now == CACHE_TTL && s.pending == ["k"] && s.cache.refreshing == {}
    ensures "k" in s.cache.entries && s.cache.entries["k"] == Entry(0, "b")
    ensures Prompt(events)
  {
    events, s := StoredBody();
    events, s := Then(events, s, Tick(CACHE_TTL));
    events, s := Then(events, s, Load("k"));
  }

  lemma {:induction false} StoredBody() returns (events: seq<Event>, s: Sys)
    ensures s == Run(events) && s.now == 0 && s.pending == [] && s.cache.refreshing == {} && Prompt(events)
    ensures s.cache.entries == map["k" := Entry(0, "b")]
  {
    events := [];
    s := Run(events);
    events, s := Then(events, s, StartFlight("k"));
    events, s := Then(events, s, ReadGen(0));
    events, s := Then(events, s, Finish(0, "b"));
  }

  lemma {:induction false} Then(events: seq<Event>, s: Sys, e: Event) returns (more: seq<Event>, next: Sys)
    requires s == Run(events)
    ensures more == events + [e] && next == Step(s, e) == Run(more)
    ensures Prompt(events) && PromptNow(next) ==> Prompt(more)
  {
    more, next := events + [e], Step(s, e);
    assert more[..|events|] == events;
    if Prompt(events) && PromptNow(next) { PromptOneMore(events, e); }
  }
}
