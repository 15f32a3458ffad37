/**
  The access-log store (internal/accesslog/store.go): batches are written with their hourly
  rollups and a ledger entry in one transaction; raw rows are pruned afterwards. Timestamps are
  seconds; a bucket is the hour they fall in.
 */
module AccessLogStore {
  import opened Wrappers

  datatype Entry = Entry(route: int, ts: int, status: int, latencyMs: int, bytesResp: int, bytesReq: int)

  datatype Key = Key(route: int, hour: int)

  datatype Rollup = Rollup(
    requests: int, errors4xx: int, errors5xx: int, latencySum: int, latencyMax: int, bytesResp: int, bytesReq: int)

  datatype Row = Row(id: nat, entry: Entry)

  datatype Db = Db(ledger: map<string, int>, rows: seq<Row>, nextId: nat, rollups: map<Key, Rollup>)

  /** Batch ids are remembered for 48 hours. */
  const LEDGER_TTL := 48 * 3600

  function KeyOf(e: Entry): Key {
    Key(e.route, e.ts / 3600)
  }

  function Is4xx(e: Entry): int {
    if 400 <= e.status <= 499 then 1 else 0
  }

  function Is5xx(e: Entry): int {
    if e.status >= 500 then 1 else 0
  }

  /** The upsert: a first entry inserts its own figures, a later one adds to the row. */
  function Upsert(rollups: map<Key, Rollup>, e: Entry): map<Key, Rollup> {
    var k := KeyOf(e);
    var first := Rollup(1, Is4xx(e), Is5xx(e), e.latencyMs, e.latencyMs, e.bytesResp, e.bytesReq);
    if k !in rollups then rollups[k := first]
    else
      var r := rollups[k];
      rollups[k := Rollup(
        r.requests + 1, r.errors4xx + first.errors4xx, r.errors5xx + first.errors5xx,
        r.latencySum + first.latencySum, if r.latencyMax < first.latencyMax then first.latencyMax else r.latencyMax,
        r.bytesResp + first.bytesResp, r.bytesReq + first.bytesReq)]
  }

  // ---------------------------------------------------------------- the operation

  /** How the commit ends: an error may come back although the transaction landed. */
  datatype Commit = Committed | CommittedUnheard | NotCommitted

  datatype Io = Io(available: bool, begins: bool, ledgerWrites: bool, failsAt: Option<nat>, commit: Commit,
                   prunes: int -> bool, purges: bool, now: int)

  datatype Outcome = Accepted | Duplicate | Failed

  function Rolled(rollups: map<Key, Rollup>, es: seq<Entry>): map<Key, Rollup> {
    if es == [] then rollups else Upsert(Rolled(rollups, es[..|es| - 1]), es[|es| - 1])
  }

  function Stored(rows: seq<Row>, nextId: nat, es: seq<Entry>): seq<Row> {
    rows + seq(|es|, i requires 0 <= i < |es| => Row(nextId + i, es[i]))
  }

  /** The database once the transaction has landed. */
  function Landed(db: Db, batchId: string, es: seq<Entry>, now: int): Db {
    Db(if batchId == "" then db.ledger else db.ledger[batchId := now],
       Stored(db.rows, db.nextId, es), db.nextId + |es|, Rolled(db.rollups, es))
  }

  predicate Newer(a: Row, b: Row) {
    a.entry.ts > b.entry.ts || (a.entry.ts == b.entry.ts && a.id > b.id)
  }

  /** The rows of the same route that come before r in ORDER BY ts DESC, id DESC. */
  function NewerThan(rows: seq<Row>, r: Row): set<Row> {
    set x | x in rows && x.entry.route == r.entry.route && Newer(x, r)
  }

  function Pruned(rows: seq<Row>, route: int, keep: nat): seq<Row> {
    PruneAgainst(rows, rows, route, keep)
  }

  function PruneAgainst(all: seq<Row>, rows: seq<Row>, route: int, keep: nat): seq<Row> {
    if rows == [] then []
    else
      (if rows[0].entry.route != route || |NewerThan(all, rows[0])| < keep then [rows[0]] else [])
      + PruneAgainst(all, rows[1..], route, keep)
  }

  /** Best-effort pruning of the routes of es, and forgetting of old batch ids. */
  function PruneRoutes(rows: seq<Row>, es: seq<Entry>, keep: nat, io: Io): seq<Row> {
    if es == [] then rows
    else
      var route := es[|es| - 1].route;
      var before := PruneRoutes(rows, es[..|es| - 1], keep, io);
      if io.prunes(route) then Pruned(before, route, keep) else before
  }

  function Purged(ledger: map<string, int>, now: int): map<string, int> {
    map id | id in ledger && ledger[id] >= now - LEDGER_TTL :: ledger[id]
  }

  function Cleaned(db: Db, batchId: string, es: seq<Entry>, keep: nat, io: Io): Db {
    db.(rows := PruneRoutes(db.rows, es, keep, io),
        ledger := if batchId != "" && io.purges then Purged(db.ledger, io.now) else db.ledger)
  }

  /** Whether the transaction of this call reaches the database. */
  predicate Lands(db: Db, batchId: string, es: seq<Entry>, io: Io) {
    && io.available && es != [] && io.begins
    && (batchId != "" ==> io.ledgerWrites && batchId !in db.ledger)
    && !(io.failsAt.Some? && io.failsAt.value < |es|)
    && !io.commit.NotCommitted?
  }

  function Insert(db: Db, batchId: string, es: seq<Entry>, keep: nat, io: Io): (Db, Outcome) {
    if !io.available || es == [] then (db, Accepted)
    else if !io.begins || (batchId != "" && !io.ledgerWrites) then (db, Failed)
    else if batchId != "" && batchId in db.ledger then (db, Duplicate)
    else if !Lands(db, batchId, es, io) then (db, Failed)
    else if io.commit.CommittedUnheard? then (Landed(db, batchId, es, io.now), Failed)
    else (Cleaned(Landed(db, batchId, es, io.now), batchId, es, keep, io), Accepted)
  }

  // ---------------------------------------------------------------- what a rollup should say

  /** The entry is one of this route, of a second in this hour. */
  predicate Within(e: Entry, k: Key) {
    e.route == k.route && k.hour * 3600 <= e.ts < k.hour * 3600 + 3600
  }

  lemma WithinItsBucket(e: Entry, k: Key)
    ensures Within(e, k) <==> k == KeyOf(e)
  {
  }

  /** The entries of one route and hour, in the order they were committed. */
  function Of(es: seq<Entry>, k: Key): seq<Entry> {
    if es == [] then []
    else Of(es[..|es| - 1], k) + (if Within(es[|es| - 1], k) then [es[|es| - 1]] else [])
  }

  function Sum(es: seq<Entry>, f: Entry -> int): int {
    if es == [] then 0 else Sum(es[..|es| - 1], f) + f(es[|es| - 1])
  }

  /** m is the largest latency of es. */
  predicate IsMaxLatency(es: seq<Entry>, m: int) {
    && (forall i :: 0 <= i < |es| ==> es[i].latencyMs <= m)
    && (exists i :: 0 <= i < |es| && es[i].latencyMs == m)
  }

  /** r is exactly the aggregate of es: the count, the error, latency and byte sums, and the
      maximum latency. */
  ghost predicate Aggregates(r: Rollup, es: seq<Entry>) {
    && r.requests == |es|
    && r.errors4xx == Sum(es, (e: Entry) => if 400 <= e.status < 500 then 1 else 0)
    && r.errors5xx == Sum(es, (e: Entry) => if e.status < 500 then 0 else 1)
    && r.latencySum == Sum(es, (e: Entry) => e.latencyMs)
    && IsMaxLatency(es, r.latencyMax)
    && r.bytesResp == Sum(es, (e: Entry) => e.bytesResp)
    && r.bytesReq == Sum(es, (e: Entry) => e.bytesReq)
  }

  /** Every rollup row is the aggregate of all entries committed for its route and hour, and
      there is a row for every route and hour that has one. */
  ghost predicate RollupsExact(rollups: map<Key, Rollup>, all: seq<Entry>) {
    forall k: Key :: ExactAt(rollups, all, k)
  }

  ghost predicate ExactAt(rollups: map<Key, Rollup>, all: seq<Entry>, k: Key) {
    && (k in rollups <==> Of(all, k) != [])
    && (k in rollups ==> Aggregates(rollups[k], Of(all, k)))
  }

  lemma AggregateGrows(r: Rollup, es: seq<Entry>, e: Entry)
    requires es != [] ==> Aggregates(r, es)
    ensures var m := map[KeyOf(e) := r];
            var rolled := if es == [] then Upsert(map[], e) else Upsert(m, e);
            KeyOf(e) in rolled && Aggregates(rolled[KeyOf(e)], es + [e])
  {
    var more := es + [e];
    assert more[..|es|] == es && more[|es|] == e;
    if es != [] {
      assert forall i :: 0 <= i < |es| ==> more[i] == es[i];
    }
  }

  lemma UpsertKeepsOther(rollups: map<Key, Rollup>, all: seq<Entry>, e: Entry, k: Key)
    requires ExactAt(rollups, all, k) && k != KeyOf(e)
    ensures ExactAt(Upsert(rollups, e), all + [e], k)
  {
    WithinItsBucket(e, k);
    assert (all + [e])[..|all|] == all;
    assert Of(all + [e], k) == Of(all, k);
  }

  lemma UpsertKeepsOwn(rollups: map<Key, Rollup>, all: seq<Entry>, e: Entry)
    requires ExactAt(rollups, all, KeyOf(e))
    ensures ExactAt(Upsert(rollups, e), all + [e], KeyOf(e))
  {
    var k := KeyOf(e);
    WithinItsBucket(e, k);
    assert (all + [e])[..|all|] == all;
    assert Of(all + [e], k) == Of(all, k) + [e];
    if k in rollups {
      AggregateGrows(rollups[k], Of(all, k), e);
    } else {
      AggregateGrows(Rollup(0, 0, 0, 0, 0, 0, 0), Of(all, k), e);
    }
  }

  lemma UpsertKeepsExact(rollups: map<Key, Rollup>, all: seq<Entry>, e: Entry)
    requires RollupsExact(rollups, all)
    ensures RollupsExact(Upsert(rollups, e), all + [e])
  {
    forall k: Key ensures ExactAt(Upsert(rollups, e), all + [e], k) {
      assert ExactAt(rollups, all, k);
      if k == KeyOf(e) {
        UpsertKeepsOwn(rollups, all, e);
      } else {
        UpsertKeepsOther(rollups, all, e, k);
      }
    }
  }

  lemma {:induction false} RolledKeepsExact(rollups: map<Key, Rollup>, all: seq<Entry>, es: seq<Entry>)
    requires RollupsExact(rollups, all)
    ensures RollupsExact(Rolled(rollups, es), all + es)
    decreases |es|
  {
    if es == [] {
      assert all + es == all;
    } else {
      var init, last := es[..|es| - 1], es[|es| - 1];
      RolledKeepsExact(rollups, all, init);
      UpsertKeepsExact(Rolled(rollups, init), all + init, last);
      assert all + init + [last] == all + es;
    }
  }

  // ---------------------------------------------------------------- runs

  datatype Call = Call(batchId: string, es: seq<Entry>, io: Io)

  /** The database, everything ever committed, the committed batch ids, and the ids the ledger
      has forgotten, each as often as it happened. */
  datatype World = World(db: Db, all: seq<Entry>, batches: multiset<string>, forgotten: multiset<string>)

  function Forget(before: map<string, int>, after: map<string, int>): multiset<string> {
    multiset(before.Keys - after.Keys)
  }

  function Step(w: World, c: Call, keep: nat): World {
    var db' := Insert(w.db, c.batchId, c.es, keep, c.io).0;
    if !Lands(w.db, c.batchId, c.es, c.io) then w.(db := db')
    else
      World(db', w.all + c.es,
            if c.batchId == "" then w.batches else w.batches + multiset{c.batchId},
            w.forgotten + Forget(Landed(w.db, c.batchId, c.es, c.io.now).ledger, db'.ledger))
  }

  function Run(w: World, cs: seq<Call>, keep: nat): World {
    if cs == [] then w else Step(Run(w, cs[..|cs| - 1], keep), cs[|cs| - 1], keep)
  }

  const EMPTY := World(Db(map[], [], 0, map[]), [], multiset{}, multiset{})

  /** Each id was counted once for every time it was forgotten, plus once if the ledger still
      holds it. */
  ghost predicate CountedOnce(ledger: map<string, int>, batches: multiset<string>, forgotten: multiset<string>) {
    forall id: string :: batches[id] == forgotten[id] + (if id in ledger then 1 else 0)
  }

  /** Rows are stored in the order of their ids, all below the next one. */
  ghost predicate Ascending(rows: seq<Row>, nextId: nat) {
    && (forall i, j :: 0 <= i < j < |rows| ==> rows[i].id < rows[j].id)
    && (forall i :: 0 <= i < |rows| ==> rows[i].id < nextId)
  }

  ghost predicate Exact(w: World) {
    && RollupsExact(w.db.rollups, w.all)
    && CountedOnce(w.db.ledger, w.batches, w.forgotten)
    && Ascending(w.db.rows, w.db.nextId)
  }

  lemma StoredAscends(rows: seq<Row>, nextId: nat, es: seq<Entry>)
    requires Ascending(rows, nextId)
    ensures Ascending(Stored(rows, nextId, es), nextId + |es|)
  {
  }

  lemma {:induction false} PruneAscends(all: seq<Row>, rows: seq<Row>, route: int, keep: nat, nextId: nat)
    requires Ascending(rows, nextId)
    ensures Ascending(PruneAgainst(all, rows, route, keep), nextId)
    decreases |rows|
  {
    if rows != [] {
      PruneAscends(all, rows[1..], route, keep, nextId);
      var rest := PruneAgainst(all, rows[1..], route, keep);
      forall i | 0 <= i < |rest| ensures rows[0].id < rest[i].id {
        PrunedMeans(all, rows[1..], route, keep, rest[i]);
      }
    }
  }

  lemma {:induction false} PruneRoutesAscends(rows: seq<Row>, es: seq<Entry>, keep: nat, io: Io, nextId: nat)
    requires Ascending(rows, nextId)
    ensures Ascending(PruneRoutes(rows, es, keep, io), nextId)
    decreases |es|
  {
    if es != [] {
      var init := es[..|es| - 1];
      PruneRoutesAscends(rows, init, keep, io, nextId);
      var before := PruneRoutes(rows, init, keep, io);
      PruneAscends(before, before, es[|es| - 1].route, keep, nextId);
    }
  }

  lemma CommitCounts(
    ledger: map<string, int>, batches: multiset<string>, forgotten: multiset<string>, id: string, now: int)
    requires CountedOnce(ledger, batches, forgotten) && id !in ledger
    ensures CountedOnce(ledger[id := now], batches + multiset{id}, forgotten)
  {
  }

  lemma PurgeCounts(ledger: map<string, int>, batches: multiset<string>, forgotten: multiset<string>, now: int)
    requires CountedOnce(ledger, batches, forgotten)
    ensures CountedOnce(Purged(ledger, now), batches, forgotten + Forget(ledger, Purged(ledger, now)))
  {
  }

  lemma LandedCounts(w: World, c: Call)
    requires CountedOnce(w.db.ledger, w.batches, w.forgotten) && Lands(w.db, c.batchId, c.es, c.io)
    ensures CountedOnce(Landed(w.db, c.batchId, c.es, c.io.now).ledger,
                        if c.batchId == "" then w.batches else w.batches + multiset{c.batchId}, w.forgotten)
  {
    if c.batchId != "" {
      CommitCounts(w.db.ledger, w.batches, w.forgotten, c.batchId, c.io.now);
    }
  }

  lemma ForgetsNothing(ledger: map<string, int>, batches: multiset<string>, forgotten: multiset<string>)
    requires CountedOnce(ledger, batches, forgotten)
    ensures CountedOnce(ledger, batches, forgotten + Forget(ledger, ledger))
  {
  }

  lemma StepKeepsCounts(w: World, c: Call, keep: nat)
    requires CountedOnce(w.db.ledger, w.batches, w.forgotten)
    ensures var w' := Step(w, c, keep); CountedOnce(w'.db.ledger, w'.batches, w'.forgotten)
  {
    if Lands(w.db, c.batchId, c.es, c.io) {
      var ledger := Landed(w.db, c.batchId, c.es, c.io.now).ledger;
      var batches := if c.batchId == "" then w.batches else w.batches + multiset{c.batchId};
      LandedCounts(w, c);
      ForgetsNothing(ledger, batches, w.forgotten);
      PurgeCounts(ledger, batches, w.forgotten, c.io.now);
    }
  }

  lemma StepKeepsRows(w: World, c: Call, keep: nat)
    requires Ascending(w.db.rows, w.db.nextId)
    ensures var db := Step(w, c, keep).db; Ascending(db.rows, db.nextId)
  {
    if Lands(w.db, c.batchId, c.es, c.io) {
      var landed := Landed(w.db, c.batchId, c.es, c.io.now);
      StoredAscends(w.db.rows, w.db.nextId, c.es);
      PruneRoutesAscends(landed.rows, c.es, keep, c.io, landed.nextId);
    }
  }

  lemma StepKeepsExact(w: World, c: Call, keep: nat)
    requires Exact(w)
    ensures Exact(Step(w, c, keep))
  {
    StepKeepsCounts(w, c, keep);
    StepKeepsRows(w, c, keep);
    if Lands(w.db, c.batchId, c.es, c.io) {
      RolledKeepsExact(w.db.rollups, w.all, c.es);
    }
  }

  /** After any sequence of calls, with failures, unheard commits and resends. */
  lemma {:induction false} EveryRunIsExact(cs: seq<Call>, keep: nat)
    ensures Exact(Run(EMPTY, cs, keep))
    decreases |cs|
  {
    if cs != [] {
      EveryRunIsExact(cs[..|cs| - 1], keep);
      StepKeepsExact(Run(EMPTY, cs[..|cs| - 1], keep), cs[|cs| - 1], keep);
    } else {
      assert forall k: Key :: ExactAt(map[], [], k);
    }
  }

  /** A batch id still in the ledger and never forgotten was counted once; resending it is
      reported and changes nothing. */
  lemma ResendCountsOnce(w: World, c: Call, keep: nat)
    requires Exact(w) && c.batchId != "" && c.batchId in w.db.ledger
    ensures Step(w, c, keep) == w
    ensures w.forgotten[c.batchId] == 0 ==> w.batches[c.batchId] == 1
    ensures c.io.available && c.es != [] && c.io.begins && c.io.ledgerWrites ==>
              Insert(w.db, c.batchId, c.es, keep, c.io).1 == Duplicate
  {
  }

  lemma StepRemembers(w: World, c: Call, keep: nat, id: string)
    requires id in w.db.ledger && c.io.now <= w.db.ledger[id] + 48 * 3600
    ensures var ledger := Step(w, c, keep).db.ledger; id in ledger && ledger[id] == w.db.ledger[id]
  {
  }

  lemma CommitIsRecorded(w: World, c: Call, keep: nat)
    requires Lands(w.db, c.batchId, c.es, c.io) && c.batchId != ""
    ensures var ledger := Step(w, c, keep).db.ledger; c.batchId in ledger && ledger[c.batchId] == c.io.now
  {
  }

  /** Whatever calls follow, a batch id is remembered, with its time, as long as no call comes more than
      48 hours after it. */
  lemma {:induction false} RememberedFor48Hours(w: World, id: string, cs: seq<Call>, keep: nat)
    requires id in w.db.ledger
    requires forall k :: 0 <= k < |cs| ==> cs[k].io.now <= w.db.ledger[id] + 48 * 3600
    ensures var ledger := Run(w, cs, keep).db.ledger; id in ledger && ledger[id] == w.db.ledger[id]
    decreases |cs|
  {
    if cs != [] {
      RememberedFor48Hours(w, id, cs[..|cs| - 1], keep);
      StepRemembers(Run(w, cs[..|cs| - 1], keep), cs[|cs| - 1], keep, id);
    }
  }

  lemma KnownIsDuplicate(db: Db, c: Call, keep: nat)
    requires c.batchId != "" && c.batchId in db.ledger && c.es != []
    requires c.io.available && c.io.begins && c.io.ledgerWrites
    ensures Insert(db, c.batchId, c.es, keep, c.io) == (db, Duplicate)
  {
  }

  /** So a batch that was committed, whether the answer was heard or not, and is sent again within 48
      hours is a duplicate and changes nothing. */
  lemma {:induction false} ResendIsDuplicate(w: World, c: Call, cs: seq<Call>, resend: Call, keep: nat)
    requires Lands(w.db, c.batchId, c.es, c.io) && c.batchId != ""
    requires forall k :: 0 <= k < |cs| ==> cs[k].io.now <= c.io.now + 48 * 3600
    requires resend.batchId == c.batchId && resend.es != []
    requires resend.io.available && resend.io.begins && resend.io.ledgerWrites
    ensures var w' := Run(Step(w, c, keep), cs, keep);
            Insert(w'.db, resend.batchId, resend.es, keep, resend.io) == (w'.db, Duplicate)
  {
    CommitIsRecorded(w, c, keep);
    RememberedFor48Hours(Step(w, c, keep), c.batchId, cs, keep);
    KnownIsDuplicate(Run(Step(w, c, keep), cs, keep).db, resend, keep);
  }

  /** A call forgets exactly the ids that are more than 48 hours old, if it names a batch, its commit is
      heard and the cleaning works, and none otherwise. */
  lemma ForgetsExactlyTheOld(w: World, c: Call, keep: nat, id: string)
    requires Lands(w.db, c.batchId, c.es, c.io)
    ensures id in Step(w, c, keep).db.ledger <==>
            || (c.batchId != "" && id == c.batchId)
            || (&& id in w.db.ledger
                && (c.batchId != "" && c.io.commit.Committed? && c.io.purges
                    ==> w.db.ledger[id] >= c.io.now - 48 * 3600))
  {
  }

  /** Nothing goes wrong before the commit, and the batch is new. */
  predicate Undisturbed(db: Db, c: Call) {
    && c.io.available && c.es != [] && c.io.begins
    && (c.batchId != "" ==> c.io.ledgerWrites && c.batchId !in db.ledger)
    && (forall i: nat :: i < |c.es| ==> c.io.failsAt != Some(i))
  }

  /** A batch is written whole or not at all: all of it if nothing goes wrong before a commit that lands,
      and otherwise the store is unchanged. */
  lemma AllOrNothing(db: Db, c: Call, keep: nat)
    ensures var after := Insert(db, c.batchId, c.es, keep, c.io).0;
            if Undisturbed(db, c) && !c.io.commit.NotCommitted?
            then after.rollups == Rolled(db.rollups, c.es) && after.nextId == db.nextId + |c.es|
            else after == db
  {
    if c.io.failsAt.Some? && c.io.failsAt.value < |c.es| {
      assert c.io.failsAt == Some(c.io.failsAt.value);
    }
  }

  /** What the answer says: a duplicate changed nothing; a failure changed nothing unless the commit
      landed unheard; and a batch that is accepted was written, if and only if the database is there
      and the batch is not empty. */
  lemma AnswerTells(db: Db, c: Call, keep: nat)
    ensures var (after, answer) := Insert(db, c.batchId, c.es, keep, c.io);
            && (answer.Duplicate? ==> after == db && c.batchId in db.ledger)
            && (answer.Failed? && !c.io.commit.CommittedUnheard? ==> after == db)
            && (answer.Accepted? ==>
                  ((Undisturbed(db, c) && c.io.commit.Committed?) <==> (c.io.available && c.es != [])))
            && (Undisturbed(db, c) ==> (answer.Accepted? <==> c.io.commit.Committed?))
  {
    if c.io.failsAt.Some? && c.io.failsAt.value < |c.es| {
      assert c.io.failsAt == Some(c.io.failsAt.value);
    }
  }

  // ---------------------------------------------------------------- pruning

  ghost predicate DistinctIds(rows: seq<Row>) {
    forall i, j :: 0 <= i < j < |rows| ==> rows[i].id != rows[j].id
  }

  /** Pruning a route keeps the other routes whole, and of its own rows a newest part: whatever
      is kept is newer than whatever is dropped. */
  lemma PruneKeepsNewest(all: seq<Row>, route: int, keep: nat, kept: Row, dropped: Row)
    requires kept in Pruned(all, route, keep) && kept.entry.route == route
    requires dropped in all && dropped.entry.route == route && dropped !in Pruned(all, route, keep)
    requires DistinctIds(all)
    ensures kept.entry.ts > dropped.entry.ts || (kept.entry.ts == dropped.entry.ts && kept.id > dropped.id)
  {
    PrunedMeans(all, all, route, keep, kept);
    PrunedMeans(all, all, route, keep, dropped);
    if !Newer(kept, dropped) {
      NewerIsTotal(all, kept, dropped);
      var a, b := NewerThan(all, dropped), NewerThan(all, kept);
      assert a <= b;
      CardinalityMonotone(a, b);
      assert false;
    }
  }

  ghost function OfRoute(rows: seq<Row>, route: int): set<Row> {
    set r | r in rows && r.entry.route == route
  }

  /** Of the pruned route keep rows are left, or all if there are fewer. */
  lemma PruneLeavesExactly(all: seq<Row>, route: int, keep: nat)
    requires DistinctIds(all)
    ensures var had := |OfRoute(all, route)|;
            |OfRoute(Pruned(all, route, keep), route)| == if had < keep then had else keep
  {
    var had, kept := OfRoute(all, route), OfRoute(Pruned(all, route, keep), route);
    forall r: Row | r.entry.route == route ensures r in kept <==> r in all && |NewerThan(all, r)| < keep {
      PrunedMeans(all, all, route, keep, r);
    }
    if kept != {} {
      var o := OldestOf(all, kept);
      assert kept - {o} <= NewerThan(all, o);
      CardinalityMonotone(kept - {o}, NewerThan(all, o));
    }
    CardinalityMonotone(kept, had);
    if kept == had {
    } else {
      var d := NewestOf(all, had - kept);
      assert NewerThan(all, d) <= kept by {
        NeverNewerThanItself(d);
      }
      CardinalityMonotone(NewerThan(all, d), kept);
    }
  }

  lemma NeverNewerThanItself(r: Row)
    ensures !Newer(r, r)
    ensures forall x :: Newer(x, r) ==> !Newer(r, x)
  {
  }

  lemma {:induction false} NewestOf(all: seq<Row>, rows: set<Row>) returns (n: Row)
    requires rows != {} && forall r :: r in rows ==> r in all
    requires DistinctIds(all)
    ensures n in rows && forall r :: r in rows && r != n ==> Newer(n, r)
    decreases rows
  {
    var x :| x in rows;
    n := x;
    if rows != {x} {
      assert rows - {x} != {};
      var y := NewestOf(all, rows - {x});
      NewerIsTotal(all, x, y);
      if Newer(y, x) {
        n := y;
      }
      forall r | r in rows && r != n ensures Newer(n, r) {
        assert r == x || r == y || Newer(y, r);
      }
    }
  }

  lemma {:induction false} OldestOf(all: seq<Row>, rows: set<Row>) returns (o: Row)
    requires rows != {} && forall r :: r in rows ==> r in all
    requires DistinctIds(all)
    ensures o in rows && forall r :: r in rows && r != o ==> Newer(r, o)
    decreases rows
  {
    var x :| x in rows;
    o := x;
    if rows != {x} {
      assert rows - {x} != {};
      var y := OldestOf(all, rows - {x});
      NewerIsTotal(all, x, y);
      if Newer(x, y) {
        o := y;
      }
      forall r | r in rows && r != o ensures Newer(r, o) {
        assert r == x || r == y || Newer(r, y);
      }
    }
  }

  lemma NewerIsTotal(all: seq<Row>, a: Row, b: Row)
    requires a in all && b in all && a != b
    requires DistinctIds(all)
    ensures Newer(a, b) || Newer(b, a)
  {
    var i :| 0 <= i < |all| && all[i] == a;
    var j :| 0 <= j < |all| && all[j] == b;
    assert all[i].id != all[j].id by {
      assert i < j || j < i;
    }
  }

  lemma {:induction false} CardinalityMonotone(a: set<Row>, b: set<Row>)
    requires a <= b
    ensures |a| <= |b|
  {
    if a != {} {
      var x :| x in a;
      CardinalityMonotone(a - {x}, b - {x});
    }
  }

  lemma {:induction false} PrunedMeans(all: seq<Row>, rows: seq<Row>, route: int, keep: nat, r: Row)
    ensures r in PruneAgainst(all, rows, route, keep)
            <==> r in rows && (r.entry.route != route || |NewerThan(all, r)| < keep)
    decreases |rows|
  {
    if rows != [] {
      PrunedMeans(all, rows[1..], route, keep, r);
    }
  }

  /** Some entry of es is for the route, and its pruning works. */
  predicate Trims(es: seq<Entry>, io: Io, route: int) {
    io.prunes(route) && exists i :: 0 <= i < |es| && es[i].route == route
  }

  lemma NewerOn(a: Row, b: Row, c: Row)
    requires Newer(a, b) && Newer(b, c)
    ensures Newer(a, c)
  {
  }

  /** A row that is newer than a kept one is kept, so the kept rows see the same newer rows. */
  lemma KeptSeesAllNewer(rows: seq<Row>, kept: seq<Row>, trims: int -> bool, keep: nat, r: Row)
    requires forall x :: x in kept <==> x in rows && (!trims(x.entry.route) || |NewerThan(rows, x)| < keep)
    requires r in kept
    ensures NewerThan(kept, r) == NewerThan(rows, r)
  {
    forall x | x in NewerThan(rows, r) ensures x in kept {
      forall y | y in NewerThan(rows, x) ensures y in NewerThan(rows, r) {
        NewerOn(y, x, r);
      }
      CardinalityMonotone(NewerThan(rows, x), NewerThan(rows, r));
    }
  }

  /** After all routes of a batch have been trimmed, one after the other. */
  lemma {:induction false} TrimmedMeans(rows: seq<Row>, es: seq<Entry>, keep: nat, io: Io)
    ensures forall r :: r in PruneRoutes(rows, es, keep, io)
              <==> r in rows && (!Trims(es, io, r.entry.route) || |NewerThan(rows, r)| < keep)
    decreases |es|
  {
    if es != [] {
      var init, route := es[..|es| - 1], es[|es| - 1].route;
      TrimmedMeans(rows, init, keep, io);
      var before := PruneRoutes(rows, init, keep, io);
      forall r ensures r in PruneRoutes(rows, es, keep, io)
                 <==> r in rows && (!Trims(es, io, r.entry.route) || |NewerThan(rows, r)| < keep)
      {
        TrimsGrows(es, io, r.entry.route);
        PrunedMeans(before, before, route, keep, r);
        if r in before {
          KeptSeesAllNewer(rows, before, x => Trims(init, io, x), keep, r);
        }
      }
    }
  }

  lemma TrimsGrows(es: seq<Entry>, io: Io, route: int)
    requires es != []
    ensures Trims(es, io, route) <==>
            Trims(es[..|es| - 1], io, route) || (io.prunes(route) && es[|es| - 1].route == route)
  {
    var init := es[..|es| - 1];
    if Trims(init, io, route) {
      var i :| 0 <= i < |init| && init[i].route == route;
      assert es[i].route == route;
    }
  }

  lemma AscendingIsDistinct(rows: seq<Row>, nextId: nat)
    requires Ascending(rows, nextId)
    ensures DistinctIds(rows)
  {
  }

  /** After every accepted call, from every reachable store: of each route of the batch whose pruning
      worked keep rows are left, or all if there are fewer, and they are the newest. */
  lemma AcceptedCallTrims(w: World, c: Call, keep: nat, route: int)
    requires Exact(w) && Lands(w.db, c.batchId, c.es, c.io) && c.io.commit.Committed?
    requires Trims(c.es, c.io, route)
    ensures var before, after := Landed(w.db, c.batchId, c.es, c.io.now).rows, Step(w, c, keep).db.rows;
            && |OfRoute(after, route)|
               == (if |OfRoute(before, route)| < keep then |OfRoute(before, route)| else keep)
            && (forall r :: r in after ==> r in before)
            && (forall kept, dropped :: kept in after && kept.entry.route == route
                                        && dropped in before && dropped.entry.route == route && dropped !in after
                                        ==> Newer(kept, dropped))
  {
    var landed := Landed(w.db, c.batchId, c.es, c.io.now);
    StoredAscends(w.db.rows, w.db.nextId, c.es);
    AscendingIsDistinct(landed.rows, landed.nextId);
    TrimmedIsPruned(landed.rows, c.es, keep, c.io, route);
    PruneLeavesExactly(landed.rows, route, keep);
    TrimmedIsNewest(landed.rows, c.es, keep, c.io, route);
  }

  /** On a trimmed route the batch's pruning leaves what pruning that route alone would. */
  lemma TrimmedIsPruned(rows: seq<Row>, es: seq<Entry>, keep: nat, io: Io, route: int)
    requires Trims(es, io, route)
    ensures OfRoute(PruneRoutes(rows, es, keep, io), route) == OfRoute(Pruned(rows, route, keep), route)
    ensures forall r :: r in PruneRoutes(rows, es, keep, io) ==> r in rows
  {
    TrimmedMeans(rows, es, keep, io);
    forall r: Row | r.entry.route == route
      ensures r in PruneRoutes(rows, es, keep, io) <==> r in Pruned(rows, route, keep)
    {
      PrunedMeans(rows, rows, route, keep, r);
    }
  }

  lemma TrimmedIsNewest(rows: seq<Row>, es: seq<Entry>, keep: nat, io: Io, route: int)
    requires Trims(es, io, route) && DistinctIds(rows)
    ensures forall kept, dropped :: kept in PruneRoutes(rows, es, keep, io) && kept.entry.route == route
                                    && dropped in rows && dropped.entry.route == route
                                    && dropped !in PruneRoutes(rows, es, keep, io)
                                    ==> Newer(kept, dropped)
  {
    TrimmedMeans(rows, es, keep, io);
    forall kept, dropped | kept in PruneRoutes(rows, es, keep, io) && kept.entry.route == route
                           && dropped in rows && dropped.entry.route == route
                           && dropped !in PruneRoutes(rows, es, keep, io)
      ensures Newer(kept, dropped)
    {
      PrunedMeans(rows, rows, route, keep, kept);
      PrunedMeans(rows, rows, route, keep, dropped);
      PruneKeepsNewest(rows, route, keep, kept, dropped);
    }
  }

  // ---------------------------------------------------------------- the program

  class Store {
    var db: Db
    const maxPerRoute: nat

    constructor (db: Db, maxPerRoute: int)
      ensures this.db == db && this.maxPerRoute == if maxPerRoute <= 0 then 500 else maxPerRoute
    {
      this.db := db;
      this.maxPerRoute := if maxPerRoute <= 0 then 500 else maxPerRoute;
    }

    /** The entries staged in the open transaction, up to the first that fails. */
    method Stage(start: Db, es: seq<Entry>, failsAt: Option<nat>) returns (tx: Db, ok: bool)
      ensures ok <==> !(failsAt.Some? && failsAt.value < |es|)
      ensures ok ==>
                tx == Db(start.ledger, Stored(start.rows, start.nextId, es), start.nextId + |es|,
                         Rolled(start.rollups, es))
    {
      tx := start;
      for i := 0 to |es|
        invariant !(failsAt.Some? && failsAt.value < i)
        invariant tx.ledger == start.ledger && tx.nextId == start.nextId + i
        invariant tx.rows == Stored(start.rows, start.nextId, es[..i])
        invariant tx.rollups == Rolled(start.rollups, es[..i])
      {
        if failsAt == Some(i) {
          return tx, false;
        }
        assert es[..i + 1][..i] == es[..i];
        tx := Db(tx.ledger, tx.rows + [Row(tx.nextId, es[i])], tx.nextId + 1, Upsert(tx.rollups, es[i]));
        assert tx.rows == Stored(start.rows, start.nextId, es[..i + 1]);
      }
      assert es[..|es|] == es;
      ok := true;
    }

    /** InsertBatch: ledger, rows and rollups in one transaction, then best-effort cleaning. */
    method InsertBatch(batchId: string, es: seq<Entry>, io: Io) returns (r: Outcome)
      modifies this
      ensures (db, r) == Insert(old(db), batchId, es, maxPerRoute, io)
    {
      if !io.available || es == [] {
        return Accepted;
      }
      if !io.begins {
        return Failed;
      }
      var tx := db;
      if batchId != "" {
        if !io.ledgerWrites {
          return Failed;
        }
        if batchId in tx.ledger {
          return Duplicate;
        }
        tx := tx.(ledger := tx.ledger[batchId := io.now]);
      }
      var ok;
      tx, ok := Stage(tx, es, io.failsAt);
      if !ok || io.commit.NotCommitted? {
        return Failed;
      }
      db := tx;
      if io.commit.CommittedUnheard? {
        return Failed;
      }
      for i := 0 to |es|
        invariant db == tx.(rows := PruneRoutes(tx.rows, es[..i], maxPerRoute, io))
      {
        assert es[..i + 1][..i] == es[..i];
        if io.prunes(es[i].route) {
          db := db.(rows := Pruned(db.rows, es[i].route, maxPerRoute));
        }
      }
      assert es[..|es|] == es;
      if batchId != "" && io.purges {
        db := db.(ledger := Purged(db.ledger, io.now));
      }
      return Accepted;
    }
  }
}
