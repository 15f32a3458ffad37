/**
  Revocation by epoch (internal/auth/session.go, epoch.go, apikey.go). A session or API key
  carries the auth_epoch its identities had when it was minted; the database row is read again
  on every use. The Redis purge is only a fast path and may fail in any way.

  Each credential has a history mark, stale, that no operation reads: it is set when an identity
  the credential carries is bumped or deleted after its epoch was read. Safety is that a stale
  credential is never accepted.
 */
module AuthEpoch {
  type UserId = nat

  datatype User = User(epoch: int, active: bool)

  /** The identities and epochs a session or API key was minted with; impersonator 0 is none. */
  datatype Claim = Claim(owner: UserId, epoch: int, impersonator: UserId, impersonatorEpoch: int, stale: bool) {
    predicate Carries(u: UserId) {
      owner == u || (impersonator > 0 && impersonator == u)
    }
  }

  datatype Session = Session(claim: Claim, ver: int)

  datatype ApiKey = ApiKey(claim: Claim, revoked: bool, expired: bool)

  const SESSION_SCHEMA_VER := 2

  /** Which id a new user may get, from the ids present and the ids ever given. */
  type Ids = (set<UserId>, set<UserId>, UserId) -> bool

  /** AUTO_INCREMENT counts past every id ever given. */
  predicate AutoIncrement(present: set<UserId>, given: set<UserId>, u: UserId) {
    forall v :: v in given ==> v < u
  }

  /** A SQLite rowid counts past the ids still present. */
  predicate RowId(present: set<UserId>, given: set<UserId>, u: UserId) {
    forall v :: v in present ==> v < u
  }

  /** The database, the ids it ever gave, Redis, and the claims handlers have read but not stored. */
  datatype World = World(
    users: map<UserId, User>, given: set<UserId>, pending: map<nat, Claim>,
    sessions: map<string, Session>, keys: map<string, ApiKey>)

  // ---------------------------------------------------------------- epoch checks

  datatype EpochRead = Unreadable | Gone | Current(epoch: int)

  function UserEpoch(users: map<UserId, User>, u: UserId, readable: bool): EpochRead {
    if !readable then Unreadable else if u in users then Current(users[u].epoch) else Gone
  }

  /** Valid, denied for good, or not decidable now. */
  datatype Verdict = Valid | Stale | Unknown

  function EpochOk(users: map<UserId, User>, u: UserId, stamped: int, readable: bool): Verdict {
    match UserEpoch(users, u, readable)
    case Unreadable => Unknown
    case Gone => Stale
    case Current(epoch) => if epoch == stamped then Valid else Stale
  }

  function EpochValid(users: map<UserId, User>, c: Claim, ownerReadable: bool, impReadable: bool): Verdict {
    var owner := EpochOk(users, c.owner, c.epoch, ownerReadable);
    if !owner.Valid? then owner
    else if c.impersonator > 0 then EpochOk(users, c.impersonator, c.impersonatorEpoch, impReadable)
    else Valid
  }

  // ---------------------------------------------------------------- operations

  /** How the Redis read ends; a timeout is taken for no session. */
  datatype RedisRead = Answers | TimesOut | Fails | Garbled

  datatype LoadIo = LoadIo(redis: RedisRead, ownerReadable: bool, impReadable: bool, deletes: bool)

  datatype Loaded = NoSession | LoadError | Accepted(session: Session)

  function Drop(w: World, sid: string, io: LoadIo): World {
    if io.deletes then w.(sessions := w.sessions - {sid}) else w
  }

  /** Load: reads the session and re-verifies its epochs. */
  function Load(w: World, sid: string, io: LoadIo): (World, Loaded) {
    if io.redis.TimesOut? then (w, NoSession)
    else if io.redis.Fails? then (w, LoadError)
    else if sid !in w.sessions then (w, NoSession)
    else if io.redis.Garbled? then (w, LoadError)
    else if w.sessions[sid].ver < SESSION_SCHEMA_VER then (Drop(w, sid, io), NoSession)
    else
      match EpochValid(w.users, w.sessions[sid].claim, io.ownerReadable, io.impReadable)
      case Unknown => (w, LoadError)
      case Stale => (Drop(w, sid, io), NoSession)
      case Valid => (w, Accepted(w.sessions[sid]))
  }

  /** What a verification meets: whether the row is read, whether it has a usable HMAC and the secret
      matches it, and, for a row without one, whether there is room for the slow hash and it matches. */
  datatype KeyIo = KeyIo(readable: bool, hasHmac: bool, hmacMatches: bool, hashAdmitted: bool, hashMatches: bool)

  /** A stored HMAC has the last word; only a row without one goes to the slow hash. */
  predicate SecretProven(io: KeyIo) {
    if io.hasHmac then io.hmacMatches else io.hashAdmitted && io.hashMatches
  }

  /** VerifyAPIKey once the token has named a key. */
  predicate VerifyKey(w: World, kid: string, io: KeyIo) {
    && io.readable && kid in w.keys && w.keys[kid].claim.owner in w.users
    && !w.keys[kid].revoked && !w.keys[kid].expired
    && w.users[w.keys[kid].claim.owner].active
    && w.keys[kid].claim.epoch == w.users[w.keys[kid].claim.owner].epoch
    && SecretProven(io)
  }

  datatype Event =
    | CreateUser(u: UserId)
    | ReadOwner(handler: nat, u: UserId)
    | ReadImpersonator(handler: nat, u: UserId)
    | StoreSession(handler: nat, sid: string)
    | CreateKey(kid: string, u: UserId)
    | RevokeKey(kid: string)
    | ExpireKey(kid: string)
    | Bump(u: UserId, active: bool)
    | Delete(u: UserId, cascade: bool)
    | Purge(gone: set<string>)
    | Use(sid: string, io: LoadIo)

  predicate FreshId(w: World, ids: Ids, u: UserId) {
    u > 0 && u !in w.users && ids(w.users.Keys, w.given, u)
  }

  function Mark(c: Claim, u: UserId): Claim {
    if c.Carries(u) then c.(stale := true) else c
  }

  /** Every claim on u, wherever it is, was minted before the change that happens now. */
  function MarkAll(w: World, u: UserId): World {
    w.(pending := map h | h in w.pending :: Mark(w.pending[h], u),
       sessions := map s | s in w.sessions :: w.sessions[s].(claim := Mark(w.sessions[s].claim, u)),
       keys := map k | k in w.keys :: w.keys[k].(claim := Mark(w.keys[k].claim, u)))
  }

  function Step(w: World, ids: Ids, e: Event): World {
    match e
    case CreateUser(u) =>
      if FreshId(w, ids, u) then
        w.(users := w.users[u := User(0, true)], given := w.given + {u})
      else w
    case ReadOwner(h, u) =>
      if u in w.users then w.(pending := w.pending[h := Claim(u, w.users[u].epoch, 0, 0, false)]) else w
    case ReadImpersonator(h, u) =>
      if h in w.pending && w.pending[h].impersonator == 0 && u in w.users then
        w.(pending := w.pending[h := w.pending[h].(impersonator := u, impersonatorEpoch := w.users[u].epoch)])
      else w
    case StoreSession(h, sid) =>
      if h in w.pending && sid !in w.sessions then
        w.(sessions := w.sessions[sid := Session(w.pending[h], SESSION_SCHEMA_VER)])
      else w
    case CreateKey(kid, u) =>
      if kid !in w.keys && u in w.users then
        w.(keys := w.keys[kid := ApiKey(Claim(u, w.users[u].epoch, 0, 0, false), false, false)])
      else w
    case RevokeKey(kid) =>
      if kid in w.keys then w.(keys := w.keys[kid := w.keys[kid].(revoked := true)]) else w
    case ExpireKey(kid) =>
      if kid in w.keys then w.(keys := w.keys[kid := w.keys[kid].(expired := true)]) else w
    case Bump(u, active) =>
      if u in w.users then
        var m := MarkAll(w, u);
        m.(users := w.users[u := User(w.users[u].epoch + 1, active)])
      else w
    case Delete(u, cascade) =>
      if u in w.users then
        var m := MarkAll(w, u);
        m.(users := w.users - {u},
           keys := if cascade then map k | k in m.keys && m.keys[k].claim.owner != u :: m.keys[k] else m.keys)
      else w
    case Purge(gone) => w.(sessions := w.sessions - gone)
    case Use(sid, io) => Load(w, sid, io).0
  }

  function Run(w: World, ids: Ids, es: seq<Event>): World {
    if es == [] then w else Step(Run(w, ids, es[..|es| - 1]), ids, es[|es| - 1])
  }

  const EMPTY := World(map[], {}, map[], map[], map[])

  // ---------------------------------------------------------------- the invariant

  /** The stamped epoch of u can never be current again. */
  predicate Dead(users: map<UserId, User>, u: UserId, stamped: int) {
    u !in users || users[u].epoch > stamped
  }

  predicate Sound(users: map<UserId, User>, given: set<UserId>, c: Claim) {
    && c.owner in given && (c.owner in users ==> c.epoch <= users[c.owner].epoch)
    && (c.impersonator > 0 ==> c.impersonator in given)
    && (c.impersonator in users ==> c.impersonatorEpoch <= users[c.impersonator].epoch)
    && (c.stale ==>
          || Dead(users, c.owner, c.epoch)
          || (c.impersonator > 0 && Dead(users, c.impersonator, c.impersonatorEpoch)))
  }

  ghost predicate PendingSound(users: map<UserId, User>, given: set<UserId>, pending: map<nat, Claim>) {
    forall h :: h in pending ==> Sound(users, given, pending[h])
  }

  ghost predicate SessionsSound(users: map<UserId, User>, given: set<UserId>, sessions: map<string, Session>) {
    forall s :: s in sessions ==> Sound(users, given, sessions[s].claim)
  }

  ghost predicate KeysSound(users: map<UserId, User>, given: set<UserId>, keys: map<string, ApiKey>) {
    forall k :: k in keys ==> Sound(users, given, keys[k].claim) && keys[k].claim.impersonator == 0
  }

  ghost predicate AllSound(w: World) {
    && (forall u :: u in w.users ==> 0 < u && u in w.given)
    && PendingSound(w.users, w.given, w.pending)
    && SessionsSound(w.users, w.given, w.sessions)
    && KeysSound(w.users, w.given, w.keys)
  }

  lemma CreateKeepsSound(w: World, u: UserId, c: Claim)
    requires u > 0 && u !in w.given && Sound(w.users, w.given, c)
    ensures Sound(w.users[u := User(0, true)], w.given + {u}, c)
  {
  }

  lemma BumpKeepsSound(w: World, u: UserId, active: bool, c: Claim)
    requires u in w.users && 0 < u && Sound(w.users, w.given, c)
    ensures Sound(w.users[u := User(w.users[u].epoch + 1, active)], w.given, Mark(c, u))
  {
  }

  lemma DeleteKeepsSound(w: World, u: UserId, c: Claim)
    requires u in w.users && Sound(w.users, w.given, c)
    ensures Sound(w.users - {u}, w.given, Mark(c, u))
  {
  }

  lemma StepCreate(w: World, ids: Ids, u: UserId)
    requires AllSound(w) && (FreshId(w, ids, u) ==> u !in w.given)
    ensures AllSound(Step(w, ids, CreateUser(u)))
  {
    if FreshId(w, ids, u) {
      forall h | h in w.pending { CreateKeepsSound(w, u, w.pending[h]); }
      forall s | s in w.sessions { CreateKeepsSound(w, u, w.sessions[s].claim); }
      forall k | k in w.keys { CreateKeepsSound(w, u, w.keys[k].claim); }
    }
  }

  lemma MarkedStaySound(w: World, u: UserId, users: map<UserId, User>)
    requires PendingSound(w.users, w.given, w.pending)
    requires SessionsSound(w.users, w.given, w.sessions) && KeysSound(w.users, w.given, w.keys)
    requires forall c: Claim :: Sound(w.users, w.given, c) ==> Sound(users, w.given, Mark(c, u))
    ensures PendingSound(users, w.given, MarkAll(w, u).pending)
    ensures SessionsSound(users, w.given, MarkAll(w, u).sessions)
    ensures KeysSound(users, w.given, MarkAll(w, u).keys)
  {
  }

  lemma StepBump(w: World, ids: Ids, u: UserId, active: bool)
    requires AllSound(w)
    ensures AllSound(Step(w, ids, Bump(u, active)))
  {
    if u in w.users {
      var users := w.users[u := User(w.users[u].epoch + 1, active)];
      forall c: Claim | Sound(w.users, w.given, c) ensures Sound(users, w.given, Mark(c, u)) {
        BumpKeepsSound(w, u, active, c);
      }
      MarkedStaySound(w, u, users);
    }
  }

  lemma StepDelete(w: World, ids: Ids, u: UserId, cascade: bool)
    requires AllSound(w)
    ensures AllSound(Step(w, ids, Delete(u, cascade)))
  {
    if u in w.users {
      var users := w.users - {u};
      forall c: Claim | Sound(w.users, w.given, c) ensures Sound(users, w.given, Mark(c, u)) {
        DeleteKeepsSound(w, u, c);
      }
      MarkedStaySound(w, u, users);
    }
  }

  /** No id that may be given now was given before. */
  ghost predicate GivesNewIds(w: World, ids: Ids) {
    forall u :: FreshId(w, ids, u) ==> u !in w.given
  }

  lemma StepKeepsSound(w: World, ids: Ids, e: Event)
    requires AllSound(w) && GivesNewIds(w, ids)
    ensures AllSound(Step(w, ids, e))
  {
    match e
    case CreateUser(u) => StepCreate(w, ids, u);
    case Bump(u, active) => StepBump(w, ids, u, active);
    case Delete(u, cascade) => StepDelete(w, ids, u, cascade);
    case _ =>
  }

  /** No run gives an id twice. */
  ghost predicate NeverReuses(ids: Ids) {
    forall es: seq<Event> :: GivesNewIds(Run(EMPTY, ids, es), ids)
  }

  lemma {:induction false} EveryRunIsSound(ids: Ids, es: seq<Event>)
    requires NeverReuses(ids)
    ensures AllSound(Run(EMPTY, ids, es))
    decreases |es|
  {
    if es != [] {
      EveryRunIsSound(ids, es[..|es| - 1]);
      StepKeepsSound(Run(EMPTY, ids, es[..|es| - 1]), ids, es[|es| - 1]);
    }
  }

  // ---------------------------------------------------------------- safety

  /** No use of a session or key, whatever the reads and deletes do, accepts a stale claim. */
  ghost predicate RejectsStale(w: World) {
    && (forall sid: string, io: LoadIo :: Load(w, sid, io).1.Accepted? ==> !Load(w, sid, io).1.session.claim.stale)
    && (forall kid: string, io: KeyIo :: VerifyKey(w, kid, io) ==> !w.keys[kid].claim.stale)
  }

  lemma SoundRejectsStale(w: World)
    requires AllSound(w)
    ensures RejectsStale(w)
  {
    forall sid: string, io: LoadIo | Load(w, sid, io).1.Accepted?
      ensures !Load(w, sid, io).1.session.claim.stale
    {
      assert Sound(w.users, w.given, w.sessions[sid].claim);
    }
  }

  ghost predicate AlwaysRejectsStale(ids: Ids) {
    forall es: seq<Event> :: RejectsStale(Run(EMPTY, ids, es))
  }

  lemma RunSnoc(ids: Ids, es: seq<Event>, e: Event)
    ensures Run(EMPTY, ids, es + [e]) == Step(Run(EMPTY, ids, es), ids, e)
  {
    assert (es + [e])[..|es|] == es;
  }

  /** A run with the same users in which a session of u's first time is kept: it carries epoch 0, and
      is stale once that user is gone. */
  predicate KeepsSession(w: World, w': World, u: UserId, sid: string) {
    && w'.users == w.users && w'.given == w.given
    && (u !in w.given ==> sid !in w'.sessions)
    && (u in w.given ==>
          && sid in w'.sessions && w'.sessions[sid].ver == SESSION_SCHEMA_VER
          && w'.sessions[sid].claim == Claim(u, 0, 0, 0, w'.sessions[sid].claim.stale)
          && (u !in w.users ==> w'.sessions[sid].claim.stale))
  }

  /** Giving u once more revives that session. */
  lemma SecondTimeRevives(w: World, ids: Ids, u: UserId, sid: string)
    requires u in w.given && FreshId(w, ids, u) && KeepsSession(w, w, u, sid)
    ensures !RejectsStale(Step(w, ids, CreateUser(u)))
  {
    var w', io := Step(w, ids, CreateUser(u)), LoadIo(Answers, true, true, true);
    assert w'.sessions[sid] == w.sessions[sid] && w'.users[u] == User(0, true);
    assert Load(w', sid, io).1 == Accepted(w'.sessions[sid]);
  }

  lemma FirstTimeMints(w: World, w': World, ids: Ids, u: UserId, sid: string)
    requires KeepsSession(w, w', u, sid) && FreshId(w, ids, u) && u !in w.given
    ensures var m := Step(Step(Step(w', ids, CreateUser(u)), ids, ReadOwner(0, u)), ids, StoreSession(0, sid));
            KeepsSession(Step(w, ids, CreateUser(u)), m, u, sid)
  {
    var w1 := Step(w', ids, CreateUser(u));
    assert w1.users[u] == User(0, true);
    var w2 := Step(w1, ids, ReadOwner(0, u));
    assert w2.pending[0] == Claim(u, 0, 0, 0, false);
  }

  /** Events other than new users, bumps and deletions leave the users alone. */
  lemma OthersKeepUsers(w: World, ids: Ids, e: Event)
    requires !e.CreateUser? && !e.Bump? && !e.Delete?
    ensures Step(w, ids, e).users == w.users && Step(w, ids, e).given == w.given
  {
  }

  lemma UserEventsKeepSession(w: World, w': World, ids: Ids, e: Event, u: UserId, sid: string)
    requires KeepsSession(w, w', u, sid) && (e.Bump? || e.Delete? || (e.CreateUser? && e.u != u))
    ensures KeepsSession(Step(w, ids, e), Step(w', ids, e), u, sid)
  {
  }

  /** For every run there is one with the same users that mints a session of u and keeps it, or one
      that already accepts a stale claim. */
  lemma {:induction false} MintAlong(ids: Ids, es: seq<Event>, u: UserId, sid: string) returns (es': seq<Event>)
    ensures !RejectsStale(Run(EMPTY, ids, es'))
            || KeepsSession(Run(EMPTY, ids, es), Run(EMPTY, ids, es'), u, sid)
    decreases |es|
  {
    if es == [] {
      return [];
    }
    var front, e := es[..|es| - 1], es[|es| - 1];
    es' := MintAlong(ids, front, u, sid);
    if RejectsStale(Run(EMPTY, ids, es')) {
      es' := MintOneMore(ids, front, e, es', u, sid);
      assert front + [e] == es;
      RunSnoc(ids, front, e);
    }
  }

  lemma MintOneMore(ids: Ids, front: seq<Event>, e: Event, before: seq<Event>, u: UserId, sid: string)
    returns (es': seq<Event>)
    requires KeepsSession(Run(EMPTY, ids, front), Run(EMPTY, ids, before), u, sid)
    ensures !RejectsStale(Run(EMPTY, ids, es'))
            || KeepsSession(Step(Run(EMPTY, ids, front), ids, e), Run(EMPTY, ids, es'), u, sid)
  {
    var w, w' := Run(EMPTY, ids, front), Run(EMPTY, ids, before);
    es' := before;
    if e == CreateUser(u) && FreshId(w, ids, u) {
      es' := before + [e];
      RunSnoc(ids, before, e);
      if u in w.given {
        SecondTimeRevives(w', ids, u, sid);
      } else {
        FirstTimeMints(w, w', ids, u, sid);
        RunSnoc(ids, es', ReadOwner(0, u));
        RunSnoc(ids, es' + [ReadOwner(0, u)], StoreSession(0, sid));
        es' := es' + [ReadOwner(0, u)] + [StoreSession(0, sid)];
      }
    } else if e.Bump? || e.Delete? || (e.CreateUser? && e.u != u) {
      es' := before + [e];
      RunSnoc(ids, before, e);
      UserEventsKeepSession(w, w', ids, e, u, sid);
    } else if !e.CreateUser? {
      OthersKeepUsers(w, ids, e);
    }
  }

  /** An id that some run gives twice makes some run accept a stale claim. */
  lemma ReuseRevives(ids: Ids, es: seq<Event>, u: UserId) returns (es': seq<Event>)
    requires FreshId(Run(EMPTY, ids, es), ids, u) && u in Run(EMPTY, ids, es).given
    ensures !RejectsStale(Run(EMPTY, ids, es'))
  {
    es' := MintAlong(ids, es, u, "");
    if RejectsStale(Run(EMPTY, ids, es')) {
      SecondTimeRevives(Run(EMPTY, ids, es'), ids, u, "");
      RunSnoc(ids, es', CreateUser(u));
      es' := es' + [CreateUser(u)];
    }
  }

  /** For every way of giving ids, and over every interleaving of minting, bumps, deletions, purges and
      uses: a claim minted before a bump or deletion of an identity it carries is never accepted
      afterwards, exactly when no run gives an id twice. */
  lemma RevocationIsDurableExactlyWithoutIdReuse(ids: Ids)
    ensures AlwaysRejectsStale(ids) <==> NeverReuses(ids)
  {
    if NeverReuses(ids) {
      forall es: seq<Event> ensures RejectsStale(Run(EMPTY, ids, es)) {
        EveryRunIsSound(ids, es);
        SoundRejectsStale(Run(EMPTY, ids, es));
      }
    } else {
      var es: seq<Event> :| !GivesNewIds(Run(EMPTY, ids, es), ids);
      var u :| FreshId(Run(EMPTY, ids, es), ids, u) && u in Run(EMPTY, ids, es).given;
      var es' := ReuseRevives(ids, es, u);
    }
  }

  // ---------------------------------------------------------------- the two databases

  const ADMIN := map[1 := User(0, true)]
  const BOTH := map[1 := User(0, true), 2 := User(0, true)]

  lemma CreateSteps()
    ensures Step(EMPTY, RowId, CreateUser(1)) == World(ADMIN, {1}, map[], map[], map[])
    ensures Step(World(ADMIN, {1}, map[], map[], map[]), RowId, CreateUser(2))
            == World(BOTH, {1, 2}, map[], map[], map[])
  {
    assert ADMIN.Keys == {1};
    assert ADMIN[2 := User(0, true)] == BOTH;
  }

  lemma MintSteps(sid: string, live: Claim)
    requires live == Claim(2, 0, 0, 0, false)
    ensures Step(World(BOTH, {1, 2}, map[], map[], map[]), RowId, ReadOwner(0, 2))
            == World(BOTH, {1, 2}, map[0 := live], map[], map[])
    ensures Step(World(BOTH, {1, 2}, map[0 := live], map[], map[]), RowId, StoreSession(0, sid))
            == World(BOTH, {1, 2}, map[0 := live], map[sid := Session(live, SESSION_SCHEMA_VER)], map[])
  {
  }

  lemma DeleteStep(sid: string, live: Claim)
    requires live == Claim(2, 0, 0, 0, false)
    ensures Step(World(BOTH, {1, 2}, map[0 := live], map[sid := Session(live, SESSION_SCHEMA_VER)], map[]),
                 RowId, Delete(2, true))
            == World(ADMIN, {1, 2}, map[0 := live.(stale := true)],
                     map[sid := Session(live.(stale := true), SESSION_SCHEMA_VER)], map[])
  {
    assert BOTH - {2} == ADMIN;
  }

  function MintThenDelete(sid: string): seq<Event> {
    [] + [CreateUser(1)] + [CreateUser(2)] + [ReadOwner(0, 2)] + [StoreSession(0, sid)] + [Delete(2, true)]
  }

  lemma RunMintThenDelete(sid: string)
    ensures Run(EMPTY, RowId, MintThenDelete(sid))
            == World(ADMIN, {1, 2}, map[0 := Claim(2, 0, 0, 0, true)],
                     map[sid := Session(Claim(2, 0, 0, 0, true), SESSION_SCHEMA_VER)], map[])
  {
    CreateSteps();
    MintSteps(sid, Claim(2, 0, 0, 0, false));
    DeleteStep(sid, Claim(2, 0, 0, 0, false));
    RunSnoc(RowId, [], CreateUser(1));
    var es1 := [] + [CreateUser(1)];
    RunSnoc(RowId, es1, CreateUser(2));
    var es2 := es1 + [CreateUser(2)];
    RunSnoc(RowId, es2, ReadOwner(0, 2));
    var es3 := es2 + [ReadOwner(0, 2)];
    RunSnoc(RowId, es3, StoreSession(0, sid));
    RunSnoc(RowId, es3 + [StoreSession(0, sid)], Delete(2, true));
  }

  /** With SQLite's ids, and an admin there all along: a user is created, a session minted, the row
      deleted with a failed purge, and the next user given the same id. The old session is accepted as
      the new user. */
  lemma ReusedIdRevives(sid: string)
    ensures !RejectsStale(Run(EMPTY, RowId, MintThenDelete(sid) + [CreateUser(2)]))
    ensures !NeverReuses(RowId)
  {
    RunMintThenDelete(sid);
    var w := Run(EMPTY, RowId, MintThenDelete(sid));
    assert w.users.Keys == {1} && FreshId(w, RowId, 2);
    SecondTimeRevives(w, RowId, 2, sid);
    RunSnoc(RowId, MintThenDelete(sid), CreateUser(2));
  }

  /** So revocation is durable with AUTO_INCREMENT ids and not with SQLite's. */
  lemma DurableByDatabase()
    ensures AlwaysRejectsStale(AutoIncrement) && !AlwaysRejectsStale(RowId)
  {
    RevocationIsDurableExactlyWithoutIdReuse(AutoIncrement);
    ReusedIdRevives("");
  }

  /** An epoch that cannot be read, the owner's or the impersonating admin's behind a current owner,
      denies the request and keeps the session; so does a Redis read that fails or times out. */
  lemma UnreadableDeniesAndKeeps(w: World, sid: string, io: LoadIo)
    requires sid in w.sessions && w.sessions[sid].ver >= SESSION_SCHEMA_VER
    requires var c := w.sessions[sid].claim;
             || !io.redis.Answers?
             || !io.ownerReadable
             || (c.impersonator > 0 && !io.impReadable && c.owner in w.users && w.users[c.owner].epoch == c.epoch)
    ensures !Load(w, sid, io).1.Accepted? && Load(w, sid, io).0 == w
  {
  }

  /** The user is there and has the stamped epoch. */
  predicate UpToDate(users: map<UserId, User>, u: UserId, stamped: int) {
    u in users && users[u].epoch == stamped
  }

  /** A session is accepted exactly when Redis gives it, its schema is version 2, and the owner's epoch
      and that of an impersonating admin can be read and are the stamped ones. */
  lemma AcceptsExactly(w: World, sid: string, io: LoadIo)
    ensures Load(w, sid, io).1.Accepted? <==>
            && io.redis.Answers? && sid in w.sessions && w.sessions[sid].ver >= 2
            && var c := w.sessions[sid].claim;
               && io.ownerReadable && UpToDate(w.users, c.owner, c.epoch)
               && (c.impersonator > 0 ==> io.impReadable && UpToDate(w.users, c.impersonator, c.impersonatorEpoch))
    ensures Load(w, sid, io).1.Accepted? ==> Load(w, sid, io).1.session == w.sessions[sid]
  {
  }

  /** A session is destroyed exactly when Redis gives it and executes the delete, and either its schema is
      older than version 2 or an epoch that could be read denies it for good; nothing else changes. */
  lemma DestroysExactlyTheDenied(w: World, sid: string, io: LoadIo)
    requires sid in w.sessions
    ensures var c := w.sessions[sid].claim;
            sid !in Load(w, sid, io).0.sessions <==>
            && io.redis.Answers? && io.deletes
            && (|| w.sessions[sid].ver < 2
                || (io.ownerReadable && !UpToDate(w.users, c.owner, c.epoch))
                || (&& io.ownerReadable && c.impersonator > 0 && io.impReadable
                    && !UpToDate(w.users, c.impersonator, c.impersonatorEpoch)))
    ensures Load(w, sid, io).0.(sessions := w.sessions) == w
    ensures forall other :: other in w.sessions && other != sid ==>
              other in Load(w, sid, io).0.sessions && Load(w, sid, io).0.sessions[other] == w.sessions[other]
  {
  }

  /** A session minted for u, with the admin a behind it, is accepted with the epochs both have. */
  lemma NewSessionIsAccepted(w: World, ids: Ids, h: nat, sid: string, u: UserId, a: UserId, io: LoadIo)
    requires u in w.users && a in w.users && a > 0 && sid !in w.sessions
    requires io.redis.Answers? && io.ownerReadable && io.impReadable
    ensures var read := Step(Step(w, ids, ReadOwner(h, u)), ids, ReadImpersonator(h, a));
            Load(Step(read, ids, StoreSession(h, sid)), sid, io).1
            == Accepted(Session(Claim(u, w.users[u].epoch, a, w.users[a].epoch, false), 2))
  {
  }

  // ---------------------------------------------------------------- API keys

  /** Nothing that retires the key of u happens. */
  predicate KeepsKey(e: Event, kid: string, u: UserId) {
    && !(e.Bump? && e.u == u) && !(e.Delete? && e.u == u)
    && !(e.RevokeKey? && e.kid == kid) && !(e.ExpireKey? && e.kid == kid)
  }

  /** A key that u can use. */
  predicate Usable(w: World, kid: string, u: UserId) {
    && kid in w.keys && u in w.users && w.users[u].active
    && w.keys[kid].claim.owner == u && w.keys[kid].claim.epoch == w.users[u].epoch
    && !w.keys[kid].revoked && !w.keys[kid].expired
  }

  lemma StepKeepsUsable(w: World, ids: Ids, e: Event, kid: string, u: UserId)
    requires Usable(w, kid, u) && KeepsKey(e, kid, u)
    ensures Usable(Step(w, ids, e), kid, u)
  {
  }

  lemma {:induction false} RunKeepsUsable(w: World, ids: Ids, es: seq<Event>, kid: string, u: UserId)
    requires Usable(w, kid, u) && forall k :: 0 <= k < |es| ==> KeepsKey(es[k], kid, u)
    ensures Usable(Run(w, ids, es), kid, u)
    decreases |es|
  {
    if es != [] {
      RunKeepsUsable(w, ids, es[..|es| - 1], kid, u);
      StepKeepsUsable(Run(w, ids, es[..|es| - 1]), ids, es[|es| - 1], kid, u);
    }
  }

  /** A key created for an active user is accepted with its secret, whatever else happens, until the
      user is bumped or deleted or the key revoked or expired. */
  lemma NewKeyIsAccepted(w: World, ids: Ids, kid: string, u: UserId, es: seq<Event>, io: KeyIo)
    requires kid !in w.keys && u in w.users && w.users[u].active
    requires forall k :: 0 <= k < |es| ==> KeepsKey(es[k], kid, u)
    requires io.readable && (if io.hasHmac then io.hmacMatches else io.hashAdmitted && io.hashMatches)
    ensures VerifyKey(Run(Step(w, ids, CreateKey(kid, u)), ids, es), kid, io)
  {
    RunKeepsUsable(Step(w, ids, CreateKey(kid, u)), ids, es, kid, u);
  }

  /** The key is not there, or is revoked or expired. */
  predicate Retired(w: World, kid: string) {
    kid in w.keys ==> w.keys[kid].revoked || w.keys[kid].expired
  }

  lemma StepKeepsRetired(w: World, ids: Ids, e: Event, kid: string)
    requires Retired(w, kid) && !(e.CreateKey? && e.kid == kid)
    ensures Retired(Step(w, ids, e), kid)
  {
  }

  /** Once revoked or expired a key is refused, whatever happens, until its id is given to another. */
  lemma {:induction false} RetiredKeyIsRefused(w: World, ids: Ids, kid: string, es: seq<Event>, io: KeyIo)
    requires Retired(w, kid) && forall k :: 0 <= k < |es| ==> !(es[k].CreateKey? && es[k].kid == kid)
    ensures Retired(Run(w, ids, es), kid) && !VerifyKey(Run(w, ids, es), kid, io)
    decreases |es|
  {
    if es != [] {
      RetiredKeyIsRefused(w, ids, kid, es[..|es| - 1], io);
      StepKeepsRetired(Run(w, ids, es[..|es| - 1]), ids, es[|es| - 1], kid);
    }
  }

  /** So a key that is revoked or expires is refused from then on. */
  lemma RevokedKeyIsRefused(w: World, ids: Ids, kid: string, e: Event, es: seq<Event>, io: KeyIo)
    requires e == RevokeKey(kid) || e == ExpireKey(kid)
    requires forall k :: 0 <= k < |es| ==> !(es[k].CreateKey? && es[k].kid == kid)
    ensures !VerifyKey(Run(Step(w, ids, e), ids, es), kid, io)
  {
    RetiredKeyIsRefused(Step(w, ids, e), ids, kid, es, io);
  }

  // ---------------------------------------------------------------- the purge

  /** The identity fields any session kind serialises. */
  datatype Owner = Owner(userId: int, portalUserId: int, impersonatorId: int) {
    predicate Owns(u: int) {
      u != 0 && (userId == u || portalUserId == u || impersonatorId == u)
    }
  }

  /** What Redis answers during a purge: which pages scan, which keys read, decode and delete. */
  datatype PurgeIo = PurgeIo(scans: nat -> bool, gets: string -> bool, decodes: string -> bool, deletes: string -> bool)

  /** From before to after only keys disappeared in which u is one of the identities. */
  ghost predicate OnlyOwnedGone(before: map<string, Owner>, after: map<string, Owner>, u: int) {
    && (forall k :: k in after ==> k in before && after[k] == before[k])
    && (forall k :: k in before && k !in after ==>
                      u != 0 && u in {before[k].userId, before[k].portalUserId, before[k].impersonatorId})
  }

  /** In none of the first n listed keys that are left is u one of the identities; 0 is nobody. */
  ghost predicate ClearOf(keys: map<string, Owner>, listed: seq<string>, n: nat, u: int) {
    forall i :: 0 <= i < n <= |listed| && listed[i] in keys && u != 0 ==>
                  var o := keys[listed[i]]; u !in {o.userId, o.portalUserId, o.impersonatorId}
  }

  class SessionNamespace {
    var keys: map<string, Owner>

    constructor (keys: map<string, Owner>)
      ensures this.keys == keys
    {
      this.keys := keys;
    }

    /** One key of a page: killed only on a confirmed deletion of a key the user owns. */
    method DestroyKey(k: string, u: int, io: PurgeIo) returns (killed: nat, failed: bool)
      modifies this
      ensures keys == if killed == 1 then old(keys) - {k} else old(keys)
      ensures killed <= 1 && (killed == 1 ==> k in old(keys) && old(keys)[k].Owns(u))
      ensures !failed ==> k !in keys || !keys[k].Owns(u)
    {
      killed, failed := 0, false;
      if !io.gets(k) {
        return 0, true;
      }
      if k !in keys {
        return;
      }
      if !io.decodes(k) {
        return 0, true;
      }
      if !keys[k].Owns(u) {
        return;
      }
      if !io.deletes(k) {
        return 0, true;
      }
      keys := keys - {k};
      killed := 1;
    }

    /** One page of destroyForUserIn. */
    method DestroyPage(page: seq<string>, u: int, io: PurgeIo) returns (killed: nat, errs: nat)
      modifies this
      ensures OnlyOwnedGone(old(keys), keys, u) && killed + |keys| == |old(keys)|
      ensures errs == 0 ==> ClearOf(keys, page, |page|, u)
    {
      killed, errs := 0, 0;
      for j := 0 to |page|
        invariant OnlyOwnedGone(old(keys), keys, u) && killed + |keys| == |old(keys)|
        invariant errs == 0 ==> ClearOf(keys, page, j, u)
      {
        var n, failed := DestroyKey(page[j], u, io);
        killed := killed + n;
        if failed {
          errs := errs + 1;
        }
      }
    }

    /** destroyForUserIn over the pages SCAN returned, which may repeat keys. Only the user's own
        keys go, each counted once; with no error reported, none of those listed is left. */
    method DestroyForUserIn(pages: seq<seq<string>>, u: int, io: PurgeIo) returns (killed: nat, errs: nat)
      modifies this
      ensures OnlyOwnedGone(old(keys), keys, u) && killed + |keys| == |old(keys)|
      ensures errs == 0 ==> forall p :: 0 <= p < |pages| ==> ClearOf(keys, pages[p], |pages[p]|, u)
    {
      killed, errs := 0, 0;
      for p := 0 to |pages|
        invariant OnlyOwnedGone(old(keys), keys, u) && killed + |keys| == |old(keys)|
        invariant errs == 0 ==> forall q :: 0 <= q < p ==> ClearOf(keys, pages[q], |pages[q]|, u)
      {
        if !io.scans(p) {
          errs := errs + 1;
          return;
        }
        var n, m := DestroyPage(pages[p], u, io);
        killed, errs := killed + n, errs + m;
      }
    }
  }

  // ---------------------------------------------------------------- the manager

  /** The session manager over its two stores, updated in place. */
  class Manager {
    var users: map<UserId, User>
    var given: set<UserId>
    var pending: map<nat, Claim>
    var sessions: map<string, Session>
    var keys: map<string, ApiKey>

    constructor (w: World)
      ensures View() == w
    {
      users, given, pending, sessions, keys := w.users, w.given, w.pending, w.sessions, w.keys;
    }

    ghost function View(): World
      reads this
    {
      World(users, given, pending, sessions, keys)
    }

    method CheckEpoch(u: UserId, stamped: int, readable: bool) returns (v: Verdict)
      ensures v == EpochOk(users, u, stamped, readable)
    {
      if !readable {
        return Unknown;
      }
      if u !in users {
        return Stale;
      }
      return if users[u].epoch == stamped then Valid else Stale;
    }

    /** epochValid */
    method CheckClaim(c: Claim, ownerReadable: bool, impReadable: bool) returns (v: Verdict)
      ensures v == EpochValid(users, c, ownerReadable, impReadable)
    {
      v := CheckEpoch(c.owner, c.epoch, ownerReadable);
      if v.Valid? && c.impersonator > 0 {
        v := CheckEpoch(c.impersonator, c.impersonatorEpoch, impReadable);
      }
    }

    /** Load */
    method LoadSession(sid: string, io: LoadIo) returns (r: Loaded)
      modifies this`sessions
      ensures (View(), r) == Load(old(View()), sid, io)
    {
      if io.redis.TimesOut? {
        return NoSession;
      }
      if io.redis.Fails? {
        return LoadError;
      }
      if sid !in sessions {
        return NoSession;
      }
      if io.redis.Garbled? {
        return LoadError;
      }
      var s := sessions[sid];
      if s.ver < SESSION_SCHEMA_VER {
        if io.deletes {
          sessions := sessions - {sid};
        }
        return NoSession;
      }
      var v := CheckClaim(s.claim, io.ownerReadable, io.impReadable);
      if v.Unknown? {
        return LoadError;
      }
      if v.Stale? {
        if io.deletes {
          sessions := sessions - {sid};
        }
        return NoSession;
      }
      return Accepted(s);
    }

    /** VerifyAPIKey: the joined read, the key's own state, the owner's, then the secret. */
    method VerifyApiKey(kid: string, io: KeyIo) returns (ok: bool)
      ensures ok <==> VerifyKey(View(), kid, io)
      ensures ok <==>
              && io.readable && kid in keys && !keys[kid].revoked && !keys[kid].expired
              && keys[kid].claim.owner in users && users[keys[kid].claim.owner].active
              && keys[kid].claim.epoch == users[keys[kid].claim.owner].epoch
              && (if io.hasHmac then io.hmacMatches else io.hashAdmitted && io.hashMatches)
    {
      if !io.readable || kid !in keys || keys[kid].claim.owner !in users {
        return false;
      }
      var key := keys[kid];
      if key.revoked || key.expired {
        return false;
      }
      var owner := users[key.claim.owner];
      if !owner.active || key.claim.epoch != owner.epoch {
        return false;
      }
      if io.hasHmac {
        return io.hmacMatches;
      }
      return io.hashAdmitted && io.hashMatches;
    }

    /** RevokeUser: the bump, then a purge of which only the sessions in purged succeed. A user
        that is already gone is still purged; any other error of the bump is returned at once. */
    method RevokeUser(u: UserId, bump: BumpIo, purged: set<string>) returns (ok: bool)
      modifies this
      ensures ok <==> bump.Heard?
      ensures View() == Revoked(old(View()), u, bump, purged)
    {
      if u in users && !bump.Lost? {
        var marked := MarkAll(World(users, given, pending, sessions, keys), u);
        users := users[u := User(users[u].epoch + 1, users[u].active)];
        pending, sessions, keys := marked.pending, marked.sessions, marked.keys;
      }
      if !bump.Heard? {
        return false;
      }
      sessions := sessions - purged;
      return true;
    }
  }

  /** How the epoch bump ends: the update may land although reading the new epoch back fails. */
  datatype BumpIo = Heard | Unheard | Lost

  function Revoked(w: World, u: UserId, bump: BumpIo, purged: set<string>): World {
    var bumped := if u in w.users && !bump.Lost? then Step(w, AutoIncrement, Bump(u, w.users[u].active)) else w;
    if bump.Heard? then Step(bumped, AutoIncrement, Purge(purged)) else bumped
  }

  lemma PurgeKeepsSound(w: World, gone: set<string>)
    requires AllSound(w)
    ensures AllSound(Step(w, AutoIncrement, Purge(gone)))
  {
  }

  /** Right after a RevokeUser whose bump landed, heard or not, no session or API key carrying the user
      is accepted, even when the purge deleted nothing. A lost bump is reported and changes nothing. */
  lemma RevokeUserEndsAccess(
    w: World, u: UserId, bump: BumpIo, purged: set<string>, sid: string, kid: string, io: LoadIo, kio: KeyIo)
    requires AllSound(w) && u > 0
    ensures var w' := Revoked(w, u, bump, purged);
            && AllSound(w')
            && (bump.Lost? ==> w' == w)
            && (bump.Heard? && sid in purged ==> sid !in w'.sessions)
            && (!bump.Lost? && Load(w', sid, io).1.Accepted? ==>
                  var c := Load(w', sid, io).1.session.claim; c.owner != u && c.impersonator != u)
            && (!bump.Lost? && VerifyKey(w', kid, kio) ==> w'.keys[kid].claim.owner != u)
  {
    if u in w.users && !bump.Lost? {
      StepBump(w, AutoIncrement, u, w.users[u].active);
    }
    var bumped := if u in w.users && !bump.Lost? then Step(w, AutoIncrement, Bump(u, w.users[u].active)) else w;
    if bump.Heard? {
      PurgeKeepsSound(bumped, purged);
    }
    SoundRejectsStale(Revoked(w, u, bump, purged));
  }
}
