/**
  The fleet generation fence (internal/auth/generation.go): replicas advertise their generation
  under a self-expiring key, withdraw when they cannot serve, and an older replica that sees a
  newer one latches a fence. Time is in milliseconds. A scan is one atomic read of the store. A write
  or delete whose caller has given up may still take effect later.
 */
module FleetFence {
  import opened Wrappers
  import opened Strings

  /** One replica's heartbeat key: its generation and its random id. */
  datatype FleetKey = FleetKey(gen: int, id: string)

  /** The TTL of a published key and how long a publish counts as fresh; how long after its caller gave
      up a command may still take effect (below 0: not at all), and how long the loop waits after that
      before it publishes again. */
  datatype Timing = Timing(ttl: nat, grace: nat, lag: int, gap: nat)

  /** The fleet's own timing; a tick that is due starts the next refresh at once. */
  function FleetTiming(lag: int): Timing {
    Timing(20_000, 16_000, lag, 0)
  }

  /** A command the store may still execute, and when its caller gave up. */
  datatype Command = SetKey(key: FleetKey, at: int) | DelKey(key: FleetKey, at: int)

  /** Where the beacon loop is: a publish has its timestamp before the write is sent, and is
      marked after the write returned; a withdrawal clears its mark before the delete is sent. */
  datatype Phase = Idle | Publishing(at: int) | Written(at: int) | Withdrawing

  datatype Beacon = Beacon(key: FleetKey, phase: Phase, lastOk: Option<int>, everOk: bool, fenced: bool)

  /** Time, the shared store with each key's expiry, the running replicas by id, two histories (the
      keys whose replica's readiness check had passed before it advertised, and the keys ever
      written), and the commands that were given up. */
  datatype Fleet = Fleet(
    now: int, store: map<FleetKey, int>, replicas: map<string, Beacon>,
    ready: set<FleetKey>, advertised: set<FleetKey>, late: set<Command>)

  predicate Live(f: Fleet, k: FleetKey) {
    k in f.store && f.store[k] > f.now
  }

  predicate NewerLive(f: Fleet, gen: int) {
    exists k :: k in f.store && Live(f, k) && k.gen > gen
  }

  predicate Fresh(f: Fleet, t: Timing, b: Beacon) {
    b.lastOk.Some? && f.now - b.lastOk.value <= t.grace
  }

  /** FleetGenerationReady accepts. */
  predicate Ready(f: Fleet, t: Timing, b: Beacon) {
    !b.fenced && Fresh(f, t, b) && Live(f, b.key) && !NewerLive(f, b.key.gen)
  }

  /** A readiness check gets as far as the fleet and finds a newer generation there. */
  predicate SeesNewer(f: Fleet, t: Timing, b: Beacon) {
    !b.fenced && Fresh(f, t, b) && Live(f, b.key) && NewerLive(f, b.key.gen)
  }

  // ---------------------------------------------------------------- steps

  datatype Event =
    | Start(id: string, gen: int)
    | Pass(ms: nat)
    | ReadyPasses(id: string)
    | ReadyFails(id: string)
    | SetLands(id: string, heard: bool)
    | SetFails(id: string)
    | SetGivenUp(id: string)
    | MarkPublished(id: string)
    | DelEnds(id: string, lands: bool)
    | DelGivenUp(id: string)
    | Lands(c: Command)
    | Scan(id: string)
    | Ask(id: string)
    | Crash(id: string)
    | Wipe(gone: set<FleetKey>)

  function Update(f: Fleet, id: string, b: Beacon): Fleet {
    f.(replicas := f.replicas[id := b])
  }

  function Execute(f: Fleet, t: Timing, c: Command): Fleet {
    var rest := f.late - {c};
    match c
    case SetKey(key, at) =>
      f.(store := f.store[key := f.now + t.ttl], advertised := f.advertised + {key}, late := rest)
    case DelKey(key, at) => f.(store := f.store - {key}, late := rest)
  }

  function Step(f: Fleet, t: Timing, e: Event): Fleet {
    match e
    case Start(id, gen) =>
      if id in f.replicas || (exists k :: k in f.advertised + f.ready && k.id == id) then f
      else Update(f, id, Beacon(FleetKey(gen, id), Idle, None, false, false))
    case Pass(ms) => f.(now := f.now + ms)
    case ReadyPasses(id) =>
      if id in f.replicas && f.replicas[id].phase.Idle? then
        var b := f.replicas[id];
        Update(f, id, b.(phase := Publishing(f.now))).(ready := f.ready + {b.key})
      else f
    case ReadyFails(id) =>
      if id in f.replicas && f.replicas[id].phase.Idle? && f.replicas[id].everOk then
        Update(f, id, f.replicas[id].(lastOk := None, phase := Withdrawing))
      else f
    case SetLands(id, heard) =>
      if id in f.replicas && f.replicas[id].phase.Publishing? then
        var b := f.replicas[id];
        var f1 := f.(store := f.store[b.key := f.now + t.ttl], advertised := f.advertised + {b.key});
        Update(f1, id, b.(phase := if heard then Written(b.phase.at) else Idle))
      else f
    case SetFails(id) =>
      if id in f.replicas && f.replicas[id].phase.Publishing? then Update(f, id, f.replicas[id].(phase := Idle)) else f
    case SetGivenUp(id) =>
      if id in f.replicas && f.replicas[id].phase.Publishing? then
        var b := f.replicas[id];
        Update(f, id, b.(phase := Idle)).(late := f.late + {SetKey(b.key, f.now)})
      else f
    case MarkPublished(id) =>
      if id in f.replicas && f.replicas[id].phase.Written? then
        var b := f.replicas[id];
        Update(f, id, b.(lastOk := Some(b.phase.at), everOk := true, phase := Idle))
      else f
    case DelEnds(id, lands) =>
      if id in f.replicas && f.replicas[id].phase.Withdrawing? then
        var b := f.replicas[id];
        var f1 := if lands then f.(store := f.store - {b.key}) else f;
        Update(f1, id, b.(phase := Idle))
      else f
    case DelGivenUp(id) =>
      if id in f.replicas && f.replicas[id].phase.Withdrawing? then
        var b := f.replicas[id];
        Update(f, id, b.(phase := Idle)).(late := f.late + {DelKey(b.key, f.now)})
      else f
    case Lands(c) => if c in f.late && f.now <= c.at + t.lag then Execute(f, t, c) else f
    case Scan(id) =>
      if id in f.replicas && NewerLive(f, f.replicas[id].key.gen) then
        Update(f, id, f.replicas[id].(fenced := true))
      else f
    case Ask(id) =>
      if id in f.replicas && SeesNewer(f, t, f.replicas[id]) then
        Update(f, id, f.replicas[id].(fenced := true))
      else f
    case Crash(id) => f.(replicas := f.replicas - {id})
    case Wipe(gone) => f.(store := f.store - gone)
  }

  function Run(f: Fleet, t: Timing, es: seq<Event>): Fleet {
    if es == [] then f else Step(Run(f, t, es[..|es| - 1]), t, es[|es| - 1])
  }

  const EMPTY := Fleet(0, map[], map[], {}, {}, {})

  // ---------------------------------------------------------------- the fence is justified

  /** A replica of a strictly newer generation advertised itself, its readiness check passed. */
  ghost predicate NewerAdvertised(f: Fleet, gen: int) {
    exists k :: k in f.advertised && k in f.ready && k.gen > gen
  }

  ghost predicate KeysJustified(f: Fleet) {
    && (forall k :: k in f.store ==> k in f.advertised)
    && f.advertised <= f.ready
    && (forall c :: c in f.late && c.SetKey? ==> c.key in f.ready)
  }

  ghost predicate BeaconJustified(f: Fleet, id: string, b: Beacon) {
    && b.key.id == id
    && (b.phase.Publishing? ==> b.key in f.ready)
    && (b.fenced ==> NewerAdvertised(f, b.key.gen))
  }

  ghost predicate FenceJustified(f: Fleet) {
    KeysJustified(f) && forall id :: id in f.replicas ==> BeaconJustified(f, id, f.replicas[id])
  }

  lemma NewerAdvertisedStays(f: Fleet, f': Fleet, gen: int)
    requires NewerAdvertised(f, gen) && f.advertised <= f'.advertised && f.ready <= f'.ready
    ensures NewerAdvertised(f', gen)
  {
    var k :| k in f.advertised && k in f.ready && k.gen > gen;
    assert k in f'.advertised && k in f'.ready;
  }

  lemma HistoriesGrow(f: Fleet, t: Timing, e: Event)
    ensures f.advertised <= Step(f, t, e).advertised && f.ready <= Step(f, t, e).ready
  {
  }

  lemma StepKeepsKeys(f: Fleet, t: Timing, e: Event)
    requires FenceJustified(f)
    ensures KeysJustified(Step(f, t, e))
  {
    if (e.SetLands? || e.SetGivenUp?) && e.id in f.replicas {
      assert BeaconJustified(f, e.id, f.replicas[e.id]);
    }
  }

  lemma StepKeepsBeacon(f: Fleet, t: Timing, e: Event, id: string)
    requires FenceJustified(f) && id in Step(f, t, e).replicas
    ensures BeaconJustified(Step(f, t, e), id, Step(f, t, e).replicas[id])
  {
    var f' := Step(f, t, e);
    HistoriesGrow(f, t, e);
    if id in f.replicas {
      assert BeaconJustified(f, id, f.replicas[id]);
      if f.replicas[id].fenced {
        NewerAdvertisedStays(f, f', f.replicas[id].key.gen);
      } else if f'.replicas[id].fenced {
        ScanIsJustified(f, f.replicas[id].key.gen);
      }
    }
  }

  lemma ScanIsJustified(f: Fleet, gen: int)
    requires KeysJustified(f) && NewerLive(f, gen)
    ensures NewerAdvertised(f, gen)
  {
    var k :| k in f.store && Live(f, k) && k.gen > gen;
    assert k in f.advertised && k in f.ready;
  }

  lemma StepKeepsJustified(f: Fleet, t: Timing, e: Event)
    requires FenceJustified(f)
    ensures FenceJustified(Step(f, t, e))
  {
    StepKeepsKeys(f, t, e);
    forall id | id in Step(f, t, e).replicas
      ensures BeaconJustified(Step(f, t, e), id, Step(f, t, e).replicas[id])
    {
      StepKeepsBeacon(f, t, e, id);
    }
  }

  /** In every run, with crashes, store failures and wipes: a fenced replica was preceded by an
      advertisement of a strictly newer generation whose readiness check had passed. So no replica
      of the highest generation ever advertised is fenced. */
  lemma {:induction false} EveryFenceIsJustified(t: Timing, es: seq<Event>)
    ensures FenceJustified(Run(EMPTY, t, es))
    decreases |es|
  {
    if es != [] {
      EveryFenceIsJustified(t, es[..|es| - 1]);
      StepKeepsJustified(Run(EMPTY, t, es[..|es| - 1]), t, es[|es| - 1]);
    }
  }

  lemma HighestIsNeverFenced(t: Timing, es: seq<Event>, id: string)
    requires id in Run(EMPTY, t, es).replicas
    requires forall k :: k in Run(EMPTY, t, es).advertised ==> k.gen <= Run(EMPTY, t, es).replicas[id].key.gen
    ensures !Run(EMPTY, t, es).replicas[id].fenced
  {
    EveryFenceIsJustified(t, es);
  }

  /** The fence latches: no step of any kind clears it while the replica runs. */
  lemma FenceLatches(f: Fleet, t: Timing, e: Event, id: string)
    requires id in f.replicas && f.replicas[id].fenced
    ensures id in Step(f, t, e).replicas ==> Step(f, t, e).replicas[id].fenced
  {
  }

  lemma {:induction false} FenceLatchesForever(f: Fleet, t: Timing, es: seq<Event>, id: string)
    requires id in f.replicas && f.replicas[id].fenced
    requires forall k :: 0 <= k < |es| ==> es[k] != Crash(id)
    ensures id in Run(f, t, es).replicas && Run(f, t, es).replicas[id].fenced
    decreases |es|
  {
    if es != [] {
      FenceLatchesForever(f, t, es[..|es| - 1], id);
      FenceLatches(Run(f, t, es[..|es| - 1]), t, es[|es| - 1], id);
    }
  }

  /** Once a readiness check has seen a newer generation, no later check of that process is ready,
      whatever happens to the fleet and the store. */
  lemma SeenNewerNeverReady(f: Fleet, t: Timing, es: seq<Event>, id: string)
    requires id in f.replicas && SeesNewer(f, t, f.replicas[id])
    requires forall k :: 0 <= k < |es| ==> es[k] != Crash(id)
    ensures var f' := Run(Step(f, t, Ask(id)), t, es);
            id in f'.replicas && !Ready(f', t, f'.replicas[id])
  {
    FenceLatchesForever(Step(f, t, Ask(id)), t, es, id);
  }

  /** Replicas of different generations are never both ready against the same store. */
  lemma OneGenerationServes(f: Fleet, t: Timing, a: Beacon, b: Beacon)
    requires Ready(f, t, a) && Ready(f, t, b)
    ensures a.key.gen == b.key.gen
  {
  }

  // ---------------------------------------------------------------- silent replicas

  /** A step in which the replica hears of no successful publish. */
  predicate Unheard(e: Event, id: string) {
    e != MarkPublished(id) && e != Crash(id)
  }

  lemma {:induction false} MarkStays(f: Fleet, t: Timing, es: seq<Event>, id: string)
    requires id in f.replicas && forall k :: 0 <= k < |es| ==> Unheard(es[k], id)
    ensures var f' := Run(f, t, es);
            id in f'.replicas && (f'.replicas[id].lastOk.None? || f'.replicas[id].lastOk == f.replicas[id].lastOk)
    decreases |es|
  {
    if es != [] {
      MarkStays(f, t, es[..|es| - 1], id);
      assert Unheard(es[|es| - 1], id);
    }
  }

  /** Whatever else happens, a replica that has heard of no successful publish for more than 16 seconds
      is not ready. */
  lemma SilentIsUnready(f: Fleet, lag: int, es: seq<Event>, id: string)
    requires id in f.replicas && forall k :: 0 <= k < |es| ==> Unheard(es[k], id)
    requires var f' := Run(f, FleetTiming(lag), es);
             f.replicas[id].lastOk.Some? ==> f'.now > f.replicas[id].lastOk.value + 16_000
    ensures var f' := Run(f, FleetTiming(lag), es);
            id in f'.replicas && !Ready(f', FleetTiming(lag), f'.replicas[id])
  {
    MarkStays(f, FleetTiming(lag), es, id);
  }

  /** No key outlives its time to live. */
  ghost predicate Expiring(f: Fleet, t: Timing) {
    forall k :: k in f.store ==> f.store[k] <= f.now + t.ttl
  }

  lemma {:induction false} EveryKeyExpires(t: Timing, es: seq<Event>)
    ensures Expiring(Run(EMPTY, t, es), t)
    decreases |es|
  {
    if es != [] {
      EveryKeyExpires(t, es[..|es| - 1]);
    }
  }

  /** The step writes the key. */
  predicate Writes(f: Fleet, e: Event, key: FleetKey) {
    || (e.SetLands? && e.id in f.replicas && f.replicas[e.id].key == key)
    || (e.Lands? && e.c.SetKey? && e.c.key == key)
  }

  predicate NeverWrites(f: Fleet, t: Timing, es: seq<Event>, key: FleetKey) {
    es == [] || (NeverWrites(f, t, es[..|es| - 1], key) && !Writes(Run(f, t, es[..|es| - 1]), es[|es| - 1], key))
  }

  lemma {:induction false} UnwrittenKeyAges(f: Fleet, t: Timing, es: seq<Event>, key: FleetKey)
    requires NeverWrites(f, t, es, key)
    ensures var f' := Run(f, t, es); key in f'.store ==> key in f.store && f'.store[key] == f.store[key]
    decreases |es|
  {
    if es != [] {
      UnwrittenKeyAges(f, t, es[..|es| - 1], key);
    }
  }

  /** After any run, a key that is not written for 20 seconds is gone from the fleet. */
  lemma SilentKeyIsGone(before: seq<Event>, lag: int, es: seq<Event>, key: FleetKey)
    requires var f := Run(EMPTY, FleetTiming(lag), before);
             && NeverWrites(f, FleetTiming(lag), es, key)
             && Run(f, FleetTiming(lag), es).now >= f.now + 20_000
    ensures !Live(Run(Run(EMPTY, FleetTiming(lag), before), FleetTiming(lag), es), key)
  {
    EveryKeyExpires(FleetTiming(lag), before);
    UnwrittenKeyAges(Run(EMPTY, FleetTiming(lag), before), FleetTiming(lag), es, key);
  }

  // ---------------------------------------------------------------- the timing margin

  /** No wipe, and no publish sooner after a command was given up than the gap. */
  predicate QuietStep(f: Fleet, t: Timing, e: Event) {
    && !e.Wipe?
    && (e.ReadyPasses? && e.id in f.replicas ==>
          forall c :: c in f.late && c.key == f.replicas[e.id].key ==> c.at + t.gap <= f.now)
  }

  predicate Quiet(t: Timing, es: seq<Event>) {
    es == [] || (Quiet(t, es[..|es| - 1]) && QuietStep(Run(EMPTY, t, es[..|es| - 1]), t, es[|es| - 1]))
  }

  /** A timestamp that is or will become a publish mark is covered by the key's expiry. */
  predicate Covered(f: Fleet, t: Timing, b: Beacon, at: int) {
    at <= f.now && b.key in f.store && f.store[b.key] >= at + t.ttl
  }

  /** Deletes of the key were given up long enough before the timestamp. */
  ghost predicate DeletedBefore(f: Fleet, t: Timing, key: FleetKey, at: int) {
    forall c :: c in f.late && c.DelKey? && c.key == key ==> c.at + t.gap <= at
  }

  ghost predicate MarkCovered(f: Fleet, t: Timing, id: string, b: Beacon) {
    && b.key.id == id
    && (b.everOk || b.phase.Publishing? || b.phase.Written? ==> b.key in f.ready)
    && (b.phase.Publishing? ==> b.phase.at <= f.now && DeletedBefore(f, t, b.key, b.phase.at))
    && (b.phase.Written? ==> Covered(f, t, b, b.phase.at) && DeletedBefore(f, t, b.key, b.phase.at))
    && (b.phase.Withdrawing? ==> b.lastOk.None? && b.everOk)
    && (b.lastOk.Some? ==> Covered(f, t, b, b.lastOk.value) && DeletedBefore(f, t, b.key, b.lastOk.value))
  }

  ghost predicate MarksCovered(f: Fleet, t: Timing) {
    && (forall c :: c in f.late ==> c.key in f.ready)
    && forall id :: id in f.replicas ==> MarkCovered(f, t, id, f.replicas[id])
  }

  /** A command that lands: a delete is of no replica that counts on its key. */
  lemma LandingKeepsCovered(f: Fleet, t: Timing, c: Command, id: string)
    requires MarksCovered(f, t) && c in f.late && f.now <= c.at + t.lag && t.lag < t.gap && id in f.replicas
    ensures MarkCovered(Execute(f, t, c), t, id, f.replicas[id])
  {
    var b := f.replicas[id];
    assert MarkCovered(f, t, id, b);
  }

  /** A step of one replica leaves the others covered. */
  lemma StepKeepsOthers(f: Fleet, t: Timing, e: Event, id: string)
    requires MarksCovered(f, t) && !e.Wipe? && !e.Lands? && id in f.replicas && id in Step(f, t, e).replicas
    requires Step(f, t, e).replicas[id] == f.replicas[id]
    ensures MarkCovered(Step(f, t, e), t, id, f.replicas[id])
  {
    assert MarkCovered(f, t, id, f.replicas[id]);
  }

  lemma StepKeepsOne(f: Fleet, t: Timing, e: Event, id: string)
    requires MarksCovered(f, t) && QuietStep(f, t, e) && !e.Lands?
    requires id in Step(f, t, e).replicas && (id !in f.replicas || Step(f, t, e).replicas[id] != f.replicas[id])
    ensures MarkCovered(Step(f, t, e), t, id, Step(f, t, e).replicas[id])
  {
    if id in f.replicas {
      assert MarkCovered(f, t, id, f.replicas[id]);
    }
  }

  lemma StepKeepsCovered(f: Fleet, t: Timing, e: Event)
    requires MarksCovered(f, t) && QuietStep(f, t, e) && t.lag < t.gap
    ensures MarksCovered(Step(f, t, e), t)
  {
    var f' := Step(f, t, e);
    forall id | id in f'.replicas ensures MarkCovered(f', t, id, f'.replicas[id]) {
      if e.Lands? {
        if c :| e == Lands(c) && c in f.late && f.now <= c.at + t.lag {
          LandingKeepsCovered(f, t, c, id);
        }
      } else if id in f.replicas && f'.replicas[id] == f.replicas[id] {
        StepKeepsOthers(f, t, e, id);
      } else {
        StepKeepsOne(f, t, e, id);
      }
    }
    forall c | c in f'.late ensures c.key in f'.ready {
      if e.DelGivenUp? && e.id in f.replicas {
        assert MarkCovered(f, t, e.id, f.replicas[e.id]);
      } else if e.SetGivenUp? && e.id in f.replicas {
        assert MarkCovered(f, t, e.id, f.replicas[e.id]);
      }
    }
  }

  lemma {:induction false} EveryMarkIsCovered(t: Timing, es: seq<Event>)
    requires Quiet(t, es) && t.lag < t.gap
    ensures MarksCovered(Run(EMPTY, t, es), t)
    decreases |es|
  {
    if es != [] {
      EveryMarkIsCovered(t, es[..|es| - 1]);
      StepKeepsCovered(Run(EMPTY, t, es[..|es| - 1]), t, es[|es| - 1]);
    }
  }

  /** A beacon that counts as fresh is visible to the fleet. */
  ghost predicate FreshIsVisible(f: Fleet, t: Timing) {
    forall id :: id in f.replicas && Fresh(f, t, f.replicas[id]) ==> Live(f, f.replicas[id].key)
  }

  ghost predicate AlwaysVisible(t: Timing) {
    forall es: seq<Event> :: Quiet(t, es) ==> FreshIsVisible(Run(EMPTY, t, es), t)
  }

  lemma RunSnoc(t: Timing, es: seq<Event>, e: Event)
    ensures Run(EMPTY, t, es + [e]) == Step(Run(EMPTY, t, es), t, e)
    ensures Quiet(t, es + [e]) <==> Quiet(t, es) && QuietStep(Run(EMPTY, t, es), t, e)
  {
    assert (es + [e])[..|es|] == es;
  }

  /** The fleet of one replica. */
  function Single(now: int, store: map<FleetKey, int>, b: Beacon, written: bool, late: set<Command>): Fleet {
    Fleet(now, store, map[b.key.id := b], {b.key}, if written then {b.key} else {}, late)
  }

  /** A first publish by the only replica. */
  lemma FirstPublish(t: Timing, id: string) returns (es: seq<Event>)
    ensures var key := FleetKey(0, id);
            && Quiet(t, es)
            && Run(EMPTY, t, es) == Single(0, map[key := t.ttl], Beacon(key, Idle, Some(0), true, false), true, {})
  {
    var key := FleetKey(0, id);
    RunSnoc(t, [], Start(id, 0));
    var es1 := [] + [Start(id, 0)];
    assert Run(EMPTY, t, es1) == Fleet(0, map[], map[id := Beacon(key, Idle, None, false, false)], {}, {}, {});
    RunSnoc(t, es1, ReadyPasses(id));
    var es2 := es1 + [ReadyPasses(id)];
    assert Run(EMPTY, t, es2) == Single(0, map[], Beacon(key, Publishing(0), None, false, false), false, {});
    RunSnoc(t, es2, SetLands(id, true));
    var es3 := es2 + [SetLands(id, true)];
    assert Run(EMPTY, t, es3) == Single(0, map[key := t.ttl], Beacon(key, Written(0), None, false, false), true, {});
    RunSnoc(t, es3, MarkPublished(id));
    es := es3 + [MarkPublished(id)];
  }

  /** Without a margin, a replica published once is still fresh when its key expires. */
  lemma NoMarginFails(t: Timing, id: string) returns (es: seq<Event>)
    requires t.grace >= t.ttl
    ensures Quiet(t, es) && !FreshIsVisible(Run(EMPTY, t, es), t)
  {
    var before := FirstPublish(t, id);
    RunSnoc(t, before, Pass(t.ttl));
    es := before + [Pass(t.ttl)];
    var f := Run(EMPTY, t, es);
    assert f.replicas[id].lastOk == Some(0) && !Live(f, f.replicas[id].key);
  }

  /** A withdrawal whose delete is given up. */
  lemma GiveUpDelete(t: Timing, id: string) returns (es: seq<Event>)
    ensures var key := FleetKey(0, id);
            && Quiet(t, es)
            && Run(EMPTY, t, es)
               == Single(t.gap, map[key := t.ttl], Beacon(key, Idle, None, true, false), true, {DelKey(key, 0)})
  {
    var key := FleetKey(0, id);
    var es0 := FirstPublish(t, id);
    RunSnoc(t, es0, ReadyFails(id));
    var es1 := es0 + [ReadyFails(id)];
    assert Run(EMPTY, t, es1) == Single(0, map[key := t.ttl], Beacon(key, Withdrawing, None, true, false), true, {});
    RunSnoc(t, es1, DelGivenUp(id));
    var es2 := es1 + [DelGivenUp(id)];
    assert Run(EMPTY, t, es2)
        == Single(0, map[key := t.ttl], Beacon(key, Idle, None, true, false), true, {DelKey(key, 0)});
    RunSnoc(t, es2, Pass(t.gap));
    es := es2 + [Pass(t.gap)];
  }

  /** And the publish after it. */
  lemma PublishAgain(t: Timing, id: string) returns (es: seq<Event>)
    ensures var key := FleetKey(0, id);
            && Quiet(t, es)
            && Run(EMPTY, t, es)
               == Single(t.gap, map[key := t.gap + t.ttl], Beacon(key, Idle, Some(t.gap), true, false), true,
                         {DelKey(key, 0)})
  {
    var key := FleetKey(0, id);
    var late := {DelKey(key, 0)};
    var es0 := GiveUpDelete(t, id);
    RunSnoc(t, es0, ReadyPasses(id));
    var es1 := es0 + [ReadyPasses(id)];
    PublishSteps(t, key, late);
    RunSnoc(t, es1, SetLands(id, true));
    var es2 := es1 + [SetLands(id, true)];
    RunSnoc(t, es2, MarkPublished(id));
    es := es2 + [MarkPublished(id)];
  }

  lemma PublishSteps(t: Timing, key: FleetKey, late: set<Command>)
    ensures var b := Beacon(key, Idle, None, true, false);
            && Step(Single(t.gap, map[key := t.ttl], b, true, late), t, ReadyPasses(key.id))
               == Single(t.gap, map[key := t.ttl], b.(phase := Publishing(t.gap)), true, late)
            && Step(Single(t.gap, map[key := t.ttl], b.(phase := Publishing(t.gap)), true, late), t,
                    SetLands(key.id, true))
               == Single(t.gap, map[key := t.gap + t.ttl], b.(phase := Written(t.gap)), true, late)
            && Step(Single(t.gap, map[key := t.gap + t.ttl], b.(phase := Written(t.gap)), true, late), t,
                    MarkPublished(key.id))
               == Single(t.gap, map[key := t.gap + t.ttl], b.(lastOk := Some(t.gap)), true, late)
  {
  }

  /** A delete that lands after the next publish takes the key of a fresh replica. */
  lemma LateDeleteFails(t: Timing, id: string) returns (es: seq<Event>)
    requires t.lag >= t.gap
    ensures Quiet(t, es) && !FreshIsVisible(Run(EMPTY, t, es), t)
  {
    var before := PublishAgain(t, id);
    var c := DelKey(FleetKey(0, id), 0);
    RunSnoc(t, before, Lands(c));
    es := before + [Lands(c)];
    var f := Run(EMPTY, t, es);
    assert f.replicas[id].lastOk == Some(f.now) && f.replicas[id].key !in f.store;
  }

  /** With an unwiped store, fresh always means visible exactly when the grace is below the TTL and no
      command can land as late as the next publish. */
  lemma VisibleExactlyWithMargin(t: Timing)
    ensures AlwaysVisible(t) <==> t.grace < t.ttl && t.lag < t.gap
  {
    if t.grace < t.ttl && t.lag < t.gap {
      forall es: seq<Event> | Quiet(t, es) ensures FreshIsVisible(Run(EMPTY, t, es), t) {
        EveryMarkIsCovered(t, es);
      }
    } else if t.grace >= t.ttl {
      var es := NoMarginFails(t, "");
    } else {
      var es := LateDeleteFails(t, "");
    }
  }

  /** With both margins an unfenced fresh replica on an unwiped store serves exactly when no newer
      generation is live. */
  lemma FreshServesUnlessNewer(t: Timing, es: seq<Event>, id: string)
    requires t.grace < t.ttl && t.lag < t.gap
    requires Quiet(t, es) && id in Run(EMPTY, t, es).replicas
    ensures var f := Run(EMPTY, t, es);
            var b := f.replicas[id];
            !b.fenced && Fresh(f, t, b) ==> (Ready(f, t, b) <==> !NewerLive(f, b.key.gen))
  {
    EveryMarkIsCovered(t, es);
  }

  /** The fleet's own timing leaves no gap, so there it takes that no command lands late. */
  lemma FleetVisibleExactly(lag: int)
    ensures AlwaysVisible(FleetTiming(lag)) <==> lag < 0
  {
    VisibleExactlyWithMargin(FleetTiming(lag));
  }

  // ---------------------------------------------------------------- the scan

  const KEY_PREFIX := "hpg:fleet:"

  function KeyText(k: FleetKey): string {
    KEY_PREFIX + (IntText(k.gen) + (":" + k.id))
  }

  /** The text before the first ':', if there is one. */
  function BeforeColon(s: string): Option<string> {
    if s == "" then None
    else if s[0] == ':' then Some("")
    else
      match BeforeColon(s[1..])
      case None => None
      case Some(t) => Some([s[0]] + t)
  }

  /** The generation a store key names, if it names one. */
  function GenOf(text: string): Option<int> {
    var rest := if KEY_PREFIX <= text then text[|KEY_PREFIX|..] else text;
    match BeforeColon(rest)
    case None => None
    case Some(gen) => ParseInt(gen)
  }

  lemma {:induction false} ColonEndsText(t: string, rest: string)
    requires forall i :: 0 <= i < |t| ==> t[i] != ':'
    ensures BeforeColon(t + (":" + rest)) == Some(t)
  {
    var s := t + (":" + rest);
    if t != "" {
      assert s[1..] == t[1..] + (":" + rest);
      ColonEndsText(t[1..], rest);
      assert t == [t[0]] + t[1..];
    }
  }

  /** What a replica writes, every other replica reads as the same generation. */
  lemma KeyTextNamesGeneration(k: FleetKey)
    ensures GenOf(KeyText(k)) == Some(k.gen)
  {
    var rest := IntText(k.gen) + (":" + k.id);
    assert KeyText(k)[|KEY_PREFIX|..] == rest;
    ColonEndsText(IntText(k.gen), k.id);
    ParsesIntText(k.gen);
  }

  /** scanFleet over the pages the cursor walks through; a failed page is an error, not a clear
      read. The result is the presence of the own key and the highest generation seen. */
  method ScanFleet(pages: seq<seq<string>>, scans: nat -> bool, selfKey: string, ownGen: int)
    returns (r: Option<(bool, int)>)
    ensures r.Some? <==> forall p: nat :: p < |pages| ==> scans(p)
    ensures r.Some? ==> (r.value.0 <==> exists p :: 0 <= p < |pages| && selfKey in pages[p])
    ensures r.Some? ==> r.value.1 >= ownGen
    ensures r.Some? ==>
              forall p, k :: 0 <= p < |pages| && k in pages[p] && GenOf(k).Some? ==> GenOf(k).value <= r.value.1
    ensures r.Some? && r.value.1 > ownGen ==>
              exists p, k :: 0 <= p < |pages| && k in pages[p] && GenOf(k) == Some(r.value.1)
  {
    var selfSeen, newest := false, ownGen;
    for p := 0 to |pages|
      invariant forall q: nat :: q < p ==> scans(q)
      invariant selfSeen <==> exists q :: 0 <= q < p && selfKey in pages[q]
      invariant newest >= ownGen
      invariant forall q, k :: 0 <= q < p && k in pages[q] && GenOf(k).Some? ==> GenOf(k).value <= newest
      invariant newest > ownGen ==> exists q, k :: 0 <= q < p && k in pages[q] && GenOf(k) == Some(newest)
    {
      if !scans(p) {
        return None;
      }
      var seen, top := ScanPage(pages[p], selfKey, newest);
      if top > newest {
        assert exists k :: k in pages[p] && GenOf(k) == Some(top);
      }
      selfSeen, newest := selfSeen || seen, top;
    }
    return Some((selfSeen, newest));
  }

  method ScanPage(page: seq<string>, selfKey: string, start: int) returns (seen: bool, newest: int)
    ensures seen <==> selfKey in page
    ensures newest >= start
    ensures forall k :: k in page && GenOf(k).Some? ==> GenOf(k).value <= newest
    ensures newest > start ==> exists k :: k in page && GenOf(k) == Some(newest)
  {
    seen, newest := false, start;
    for i := 0 to |page|
      invariant seen <==> selfKey in page[..i]
      invariant newest >= start
      invariant forall k :: k in page[..i] && GenOf(k).Some? ==> GenOf(k).value <= newest
      invariant newest > start ==> exists k :: k in page[..i] && GenOf(k) == Some(newest)
    {
      var k := page[i];
      assert page[..i + 1] == page[..i] + [k];
      if k == selfKey {
        seen := true;
      }
      var gen := GenOf(k);
      if gen.Some? && gen.value > newest {
        newest := gen.value;
        assert k in page[..i + 1];
      }
    }
    assert page[..|page|] == page;
  }

  lemma KeyTextIsInjective(a: FleetKey, b: FleetKey)
    requires KeyText(a) == KeyText(b)
    ensures a == b
  {
    KeyTextNamesGeneration(a);
    KeyTextNamesGeneration(b);
    var front := KEY_PREFIX + (IntText(a.gen) + ":");
    assert KeyText(a) == front + a.id && KeyText(b) == front + b.id;
    assert KeyText(a)[|front|..] == a.id && KeyText(b)[|front|..] == b.id;
  }

  predicate LiveIn(keys: map<FleetKey, int>, now: int, k: FleetKey) {
    k in keys && keys[k] > now
  }

  ghost predicate InPages(pages: seq<seq<string>>, text: string) {
    exists p :: 0 <= p < |pages| && text in pages[p]
  }

  /** The pages hold the texts of the live keys, each at least once, and nothing else. */
  ghost predicate Lists(pages: seq<seq<string>>, keys: map<FleetKey, int>, now: int) {
    && pages != []
    && (forall k :: LiveIn(keys, now, k) ==> InPages(pages, KeyText(k)))
    && (forall text :: InPages(pages, text) ==> exists k :: LiveIn(keys, now, k) && KeyText(k) == text)
  }

  /** Scanning the pages of the live keys decides whether the own key is live and whether a newer
      generation is. */
  lemma ScanDecides(pages: seq<seq<string>>, keys: map<FleetKey, int>, now: int, own: FleetKey, seen: bool, newest: int)
    requires Lists(pages, keys, now)
    requires seen <==> exists p :: 0 <= p < |pages| && KeyText(own) in pages[p]
    requires forall p, k :: 0 <= p < |pages| && k in pages[p] && GenOf(k).Some? ==> GenOf(k).value <= newest
    requires newest > own.gen ==> exists p, k :: 0 <= p < |pages| && k in pages[p] && GenOf(k) == Some(newest)
    ensures seen <==> LiveIn(keys, now, own)
    ensures newest > own.gen <==> exists k :: LiveIn(keys, now, k) && k.gen > own.gen
  {
    if seen {
      assert InPages(pages, KeyText(own));
      var k :| LiveIn(keys, now, k) && KeyText(k) == KeyText(own);
      KeyTextIsInjective(k, own);
    }
    if newest > own.gen {
      var p, text :| 0 <= p < |pages| && text in pages[p] && GenOf(text) == Some(newest);
      assert InPages(pages, text);
      var k :| LiveIn(keys, now, k) && KeyText(k) == text;
      KeyTextNamesGeneration(k);
    }
    if k :| LiveIn(keys, now, k) && k.gen > own.gen {
      assert InPages(pages, KeyText(k));
      KeyTextNamesGeneration(k);
    }
  }

  // ---------------------------------------------------------------- the beacon

  /** What a cursor walk over the store returns. */
  type Listing = (map<FleetKey, int>, int) -> seq<seq<string>>

  ghost predicate ListsLive(listing: Listing) {
    forall keys, now :: Lists(listing(keys, now), keys, now)
  }

  /** The shared store, as one replica writes and deletes its own key in it. */
  class SharedStore {
    var keys: map<FleetKey, int>
    var late: set<Command>

    constructor ()
      ensures keys == map[] && late == {}
    {
      keys, late := map[], {};
    }
  }

  /** How a write or delete ends: a command given up may land later. */
  datatype SetOutcome = Heard | Unheard | Lost | WriteGivenUp
  datatype DelOutcome = Deleted | NotDeleted | DeleteGivenUp

  /** What one refresh of the beacon meets. */
  datatype Refresh = Refresh(ready: bool, wrote: SetOutcome, deleted: DelOutcome, scans: bool)

  /** The protocol steps of one refresh up to its scan, and all of them. */
  function BeatSteps(f: Fleet, t: Timing, id: string, r: Refresh): Fleet {
    if !r.ready then
      var f1 := Step(f, t, ReadyFails(id));
      if r.deleted.DeleteGivenUp? then Step(f1, t, DelGivenUp(id)) else Step(f1, t, DelEnds(id, r.deleted.Deleted?))
    else
      var f1 := Step(f, t, ReadyPasses(id));
      match r.wrote
      case Lost => Step(f1, t, SetFails(id))
      case Unheard => Step(f1, t, SetLands(id, false))
      case WriteGivenUp => Step(f1, t, SetGivenUp(id))
      case Heard => Step(Step(f1, t, SetLands(id, true)), t, MarkPublished(id))
  }

  function RefreshSteps(f: Fleet, t: Timing, id: string, r: Refresh): Fleet {
    var f1 := BeatSteps(f, t, id, r);
    if r.scans then Step(f1, t, Scan(id)) else f1
  }

  /** The fleet as one replica alone can see and change it. */
  function Alone(now: int, store: map<FleetKey, int>, late: set<Command>, b: Beacon): Fleet {
    Fleet(now, store, map[b.key.id := b], {}, {}, late)
  }

  class FleetBeacon {
    const key: FleetKey
    var lastOk: Option<int>
    var everOk: bool
    var fenced: bool

    constructor (key: FleetKey)
      ensures View() == Beacon(key, Idle, None, false, false)
    {
      this.key := key;
      lastOk, everOk, fenced := None, false, false;
    }

    ghost function View(): Beacon
      reads this
    {
      Beacon(key, Idle, lastOk, everOk, fenced)
    }

    /** publishFleetBeat: the timestamp is the one taken before the write. */
    method Publish(store: SharedStore, now: int, t: Timing, wrote: SetOutcome)
      modifies this, store
      ensures fenced == old(fenced)
      ensures store.keys
              == if wrote.Heard? || wrote.Unheard? then old(store.keys)[key := now + t.ttl] else old(store.keys)
      ensures store.late == if wrote.WriteGivenUp? then old(store.late) + {SetKey(key, now)} else old(store.late)
      ensures (lastOk, everOk) == if wrote.Heard? then (Some(now), true) else (old(lastOk), old(everOk))
    {
      if wrote.Heard? || wrote.Unheard? {
        store.keys := store.keys[key := now + t.ttl];
      } else if wrote.WriteGivenUp? {
        store.late := store.late + {SetKey(key, now)};
      }
      if wrote.Heard? {
        lastOk, everOk := Some(now), true;
      }
    }

    /** withdrawFleetBeat: the mark is dropped before the key is deleted. */
    method Withdraw(store: SharedStore, now: int, deleted: DelOutcome)
      modifies this, store
      ensures fenced == old(fenced) && everOk == old(everOk)
      ensures lastOk == if everOk then None else old(lastOk)
      ensures store.keys == if everOk && deleted.Deleted? then old(store.keys) - {key} else old(store.keys)
      ensures store.late
              == if everOk && deleted.DeleteGivenUp? then old(store.late) + {DelKey(key, now)} else old(store.late)
    {
      if !everOk {
        return;
      }
      lastOk := None;
      if deleted.Deleted? {
        store.keys := store.keys - {key};
      } else if deleted.DeleteGivenUp? {
        store.late := store.late + {DelKey(key, now)};
      }
    }

    /** scanFleet from this replica; None when the walk fails. */
    method ScanStore(store: SharedStore, now: int, listing: Listing, scans: bool) returns (r: Option<(bool, bool)>)
      requires ListsLive(listing)
      ensures r.Some? <==> scans
      ensures scans ==>
                r.value
                == (LiveIn(store.keys, now, key), NewerLive(Alone(now, store.keys, store.late, View()), key.gen))
    {
      var pages := listing(store.keys, now);
      var answers := (p: nat) => scans;
      var scanned := ScanFleet(pages, answers, KeyText(key), key.gen);
      assert Lists(pages, store.keys, now);
      if scanned.None? {
        return None;
      }
      assert answers(0);
      var (seen, newest) := scanned.value;
      ScanDecides(pages, store.keys, now, key, seen, newest);
      ghost var f := Alone(now, store.keys, store.late, View());
      assert forall k :: LiveIn(store.keys, now, k) <==> k in f.store && Live(f, k);
      return Some((seen, newest > key.gen));
    }

    /** refreshFleetFence */
    method RefreshFence(store: SharedStore, now: int, listing: Listing, scans: bool)
      requires ListsLive(listing)
      modifies this`fenced
      ensures fenced <==> old(fenced) || (scans && NewerLive(Alone(now, store.keys, store.late, View()), key.gen))
    {
      var r := ScanStore(store, now, listing, scans);
      if r.Some? && r.value.1 {
        fenced := true;
      }
    }

    /** refreshFleetBeat is exactly its sequence of protocol steps. */
    method RefreshBeat(store: SharedStore, now: int, t: Timing, listing: Listing, r: Refresh)
      requires ListsLive(listing)
      modifies this, store
      ensures var f := RefreshSteps(Alone(now, old(store.keys), old(store.late), old(View())), t, key.id, r);
              store.keys == f.store && store.late == f.late && f.replicas == map[key.id := View()]
    {
      ghost var b, keys, late := View(), store.keys, store.late;
      if r.ready {
        Publish(store, now, t, r.wrote);
        PublishAlone(now, keys, late, b, t, r);
      } else {
        Withdraw(store, now, r.deleted);
        WithdrawAlone(now, keys, late, b, t, r);
      }
      ghost var f, beat := BeatSteps(Alone(now, keys, late, b), t, key.id, r), View();
      RefreshFence(store, now, listing, r.scans);
      ScanAlone(f, t, beat, r.scans);
    }

    /** FleetGenerationReady against the store as it is; a failed scan is not ready and fences nothing. */
    method GenerationReady(store: SharedStore, now: int, t: Timing, listing: Listing, scans: bool) returns (ready: bool)
      requires ListsLive(listing)
      modifies this`fenced
      ensures ready <==> scans && Ready(Alone(now, store.keys, store.late, old(View())), t, old(View()))
      ensures ready ==> !fenced
      ensures fenced <==>
              || old(fenced)
              || (&& scans && lastOk.Some? && now - lastOk.value <= t.grace && LiveIn(store.keys, now, key)
                  && exists k :: LiveIn(store.keys, now, k) && k.gen > key.gen)
      ensures scans ==>
                map[key.id := View()] == Step(Alone(now, store.keys, store.late, old(View())), t, Ask(key.id)).replicas
    {
      ghost var f := Alone(now, store.keys, store.late, View());
      NewerAlone(f, key.gen);
      if fenced || lastOk.None? || now - lastOk.value > t.grace {
        return false;
      }
      var r := ScanStore(store, now, listing, scans);
      if r.None? || !r.value.0 {
        return false;
      }
      if r.value.1 {
        fenced := true;
        return false;
      }
      return true;
    }
  }

  lemma NewerAlone(f: Fleet, gen: int)
    ensures NewerLive(f, gen) <==> exists k :: LiveIn(f.store, f.now, k) && k.gen > gen
  {
    assert forall k :: LiveIn(f.store, f.now, k) <==> k in f.store && Live(f, k);
  }

  /** The effect of the publish steps on a replica alone with the store. */
  lemma PublishAlone(now: int, keys: map<FleetKey, int>, late: set<Command>, b: Beacon, t: Timing, r: Refresh)
    requires b.phase.Idle? && r.ready
    ensures var f := BeatSteps(Alone(now, keys, late, b), t, b.key.id, r);
            && f.now == now
            && f.store == (if r.wrote.Heard? || r.wrote.Unheard? then keys[b.key := now + t.ttl] else keys)
            && f.late == (if r.wrote.WriteGivenUp? then late + {SetKey(b.key, now)} else late)
            && f.replicas == map[b.key.id := if r.wrote.Heard? then b.(lastOk := Some(now), everOk := true) else b]
  {
    var id := b.key.id;
    var f1 := Step(Alone(now, keys, late, b), t, ReadyPasses(id));
    assert f1.replicas == map[id := b.(phase := Publishing(now))];
    match r.wrote
    case Lost => assert Step(f1, t, SetFails(id)).replicas == map[id := b];
    case Unheard => assert Step(f1, t, SetLands(id, false)).replicas == map[id := b];
    case WriteGivenUp => assert Step(f1, t, SetGivenUp(id)).replicas == map[id := b];
    case Heard =>
      var f2 := Step(f1, t, SetLands(id, true));
      assert f2.replicas == map[id := b.(phase := Written(now))];
  }

  /** The effect of the withdrawal steps. */
  lemma WithdrawAlone(now: int, keys: map<FleetKey, int>, late: set<Command>, b: Beacon, t: Timing, r: Refresh)
    requires b.phase.Idle? && !r.ready
    ensures var f := BeatSteps(Alone(now, keys, late, b), t, b.key.id, r);
            && f.now == now
            && f.store == (if b.everOk && r.deleted.Deleted? then keys - {b.key} else keys)
            && f.late == (if b.everOk && r.deleted.DeleteGivenUp? then late + {DelKey(b.key, now)} else late)
            && f.replicas == map[b.key.id := if b.everOk then b.(lastOk := None) else b]
  {
    var id := b.key.id;
    if b.everOk {
      var f1 := Step(Alone(now, keys, late, b), t, ReadyFails(id));
      assert f1.replicas == map[id := b.(lastOk := None, phase := Withdrawing)];
    }
  }

  /** The effect of the scan on a replica alone with the store. */
  lemma ScanAlone(f: Fleet, t: Timing, b: Beacon, scans: bool)
    requires f.replicas == map[b.key.id := b]
    ensures var f' := if scans then Step(f, t, Scan(b.key.id)) else f;
            && f'.store == f.store && f'.late == f.late
            && f'.replicas == map[b.key.id := b.(fenced := b.fenced || (scans && NewerLive(f, b.key.gen)))]
  {
  }
}
