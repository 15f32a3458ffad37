/**
  Rotation of APP_SECRET over three durable stores (cmd/rotate-secret/main.go): a journal
  file, a database with one atomic transaction, and a state file replaced by rename.

  Ciphertext is symbolic: a stored text is a sequence of symbols, each a character or a
  sealed box that opens only under the key that sealed it. Envelope and storage prefixes are
  real text, so parsing them is modelled character by character. A key derivation or hash is
  an injective constructor.
 */
module SecretRotation {
  import opened Wrappers

  // ---------------------------------------------------------------- sealed text

  datatype Key = StateKey(secret: string) | PurposeKey(base: Key, purpose: Text)

  datatype Sym = Ch(c: char) | Box(key: Key, nonce: nat, plain: string)

  type Text = seq<Sym>

  const V2_PREFIX: Text := [Ch('v'), Ch('2'), Ch(':')]

  const COLON: Sym := Ch(':')

  function Decrypt(t: Text, key: Key): Option<string> {
    if |t| == 1 && t[0].Box? && t[0].key == key then Some(t[0].plain) else None
  }

  function Encrypt(plain: string, key: Key, nonce: nat): Text {
    [Box(key, nonce, plain)]
  }

  /** The text before and after the first colon, if there is one. */
  function Cut(t: Text): (r: Option<(Text, Text)>)
    ensures r.None? <==> COLON !in t
    ensures r.Some? ==> COLON !in r.value.0 && t == r.value.0 + [COLON] + r.value.1
  {
    if t == [] then None
    else if t[0] == COLON then Some(([], t[1..]))
    else
      match Cut(t[1..])
      case None => None
      case Some((before, after)) => Some(([t[0]] + before, after))
  }

  datatype Opened = Opened(purpose: Text, plain: string)

  /** Decrypts a stored value, detecting the per-purpose envelope. */
  function DecEnvelope(stored: Text, key: Key): Option<Opened> {
    if V2_PREFIX <= stored then
      match Cut(stored[3..])
      case None => None
      case Some((purpose, payload)) =>
        if purpose == [] then None
        else
          match Decrypt(payload, PurposeKey(key, purpose))
          case None => None
          case Some(plain) => Some(Opened(purpose, plain))
    else
      match Decrypt(stored, key)
      case None => None
      case Some(plain) => Some(Opened([], plain))
  }

  /** Seals under key in the envelope form that purpose names. */
  function EncEnvelope(o: Opened, key: Key, nonce: nat): Text {
    if o.purpose == [] then Encrypt(o.plain, key, nonce)
    else V2_PREFIX + o.purpose + [COLON] + Encrypt(o.plain, PurposeKey(key, o.purpose), nonce)
  }

  lemma {:induction false} CutAtFirstColon(before: Text, after: Text)
    requires COLON !in before
    ensures Cut(before + [COLON] + after) == Some((before, after))
  {
    var t := before + [COLON] + after;
    if before == [] {
      assert t == [COLON] + after;
    } else {
      assert t[0] == before[0] && t[1..] == before[1..] + [COLON] + after;
      CutAtFirstColon(before[1..], after);
      assert [before[0]] + before[1..] == before;
    }
  }

  /** Whatever decEnvelope opened, encEnvelope re-emits so that it opens to the same purpose
      and plaintext under the sealing key, and under no other. */
  lemma EnvelopeRoundTrip(o: Opened, key: Key, nonce: nat, other: Key)
    requires COLON !in o.purpose
    ensures DecEnvelope(EncEnvelope(o, key, nonce), other) == if other == key then Some(o) else None
  {
    var sealed := EncEnvelope(o, key, nonce);
    if o.purpose != [] {
      var payload := Encrypt(o.plain, PurposeKey(key, o.purpose), nonce);
      assert sealed[3..] == o.purpose + [COLON] + payload;
      assert V2_PREFIX <= sealed;
      CutAtFirstColon(o.purpose, payload);
    }
  }

  /** A stored value opens under at most one state key, and its purpose has no colon. */
  lemma OpensUnderOneKey(stored: Text, k1: Key, k2: Key)
    requires DecEnvelope(stored, k1).Some?
    ensures COLON !in DecEnvelope(stored, k1).value.purpose
    ensures k1 != k2 ==> DecEnvelope(stored, k2).None?
  {
  }

  /** And only what sealing writes opens. */
  lemma OnlySealedOpens(stored: Text, key: Key)
    requires DecEnvelope(stored, key).Some?
    ensures exists nonce :: stored == EncEnvelope(DecEnvelope(stored, key).value, key, nonce)
  {
    var o := DecEnvelope(stored, key).value;
    var last := stored[|stored| - 1];
    if V2_PREFIX <= stored {
      var (purpose, payload) := Cut(stored[3..]).value;
      assert stored == V2_PREFIX + (purpose + [COLON] + payload);
      assert payload == [last];
    }
    assert stored == EncEnvelope(o, key, last.nonce);
  }

  // ---------------------------------------------------------------- the database

  /** One encrypted column, with the marker its values start with. A tolerant column may hold values
      that do not open. */
  datatype Column = Column(table: string, name: string, prefix: Text, tolerant: bool)

  /** One row's value in a column; filtered is the column's own WHERE clause. A NULL or empty
      value is the empty text. Columns the schema lacks have no cells. */
  datatype Cell = Cell(column: Column, id: string, filtered: bool, value: Text)

  /** Cells the rotation has to look at: selected by the query and carrying the prefix. */
  predicate Considered(c: Cell) {
    c.filtered && c.value != [] && c.column.prefix <= c.value
  }

  function Body(c: Cell): Text
    requires Considered(c)
  {
    c.value[|c.column.prefix|..]
  }

  predicate OpensUnder(c: Cell, key: Key) {
    Considered(c) && DecEnvelope(Body(c), key).Some?
  }

  /** The row aborts a pass that decrypts under key. */
  predicate Aborts(c: Cell, key: Key) {
    Considered(c) && !c.column.tolerant && !OpensUnder(c, key)
  }

  predicate AllReadable(cells: seq<Cell>, key: Key) {
    forall i :: 0 <= i < |cells| ==> !Aborts(cells[i], key)
  }

  function RotateCell(c: Cell, oldKey: Key, newKey: Key, nonce: nat): Cell {
    if OpensUnder(c, oldKey) then
      c.(value := c.column.prefix + EncEnvelope(DecEnvelope(Body(c), oldKey).value, newKey, nonce))
    else c
  }

  function RotateCells(cells: seq<Cell>, oldKey: Key, newKey: Key, rand: nat -> nat): seq<Cell> {
    seq(|cells|, i requires 0 <= i < |cells| => RotateCell(cells[i], oldKey, newKey, rand(i)))
  }

  datatype Db = Db(cells: seq<Cell>, pendingTotp: set<string>, keyHmacs: set<string>)

  /** The committed transaction: cells re-sealed, pending enrolments and key HMACs cleared. */
  function RotateDb(db: Db, oldKey: Key, newKey: Key, rand: nat -> nat): Db {
    Db(RotateCells(db.cells, oldKey, newKey, rand), {}, {})
  }

  // ---------------------------------------------------------------- the state file

  /** The two ciphertext fields of install_state.json; empty when absent. */
  datatype StateFile = StateFile(dbPassword: Text, smtpPassword: Text)

  predicate FieldReadable(t: Text, key: Key) {
    t == [] || Decrypt(t, key).Some?
  }

  predicate FileReadable(f: StateFile, key: Key) {
    FieldReadable(f.dbPassword, key) && FieldReadable(f.smtpPassword, key)
  }

  function RotateField(t: Text, oldKey: Key, newKey: Key, nonce: nat): Text {
    match Decrypt(t, oldKey)
    case None => t
    case Some(plain) => Encrypt(plain, newKey, nonce)
  }

  function RotateFile(f: StateFile, oldKey: Key, newKey: Key, rand: nat -> nat): StateFile {
    StateFile(RotateField(f.dbPassword, oldKey, newKey, rand(0)),
              RotateField(f.smtpPassword, oldKey, newKey, rand(1)))
  }

  // ---------------------------------------------------------------- one invocation

  /** The journal names its secrets by hash; hashing is injective, so the secrets stand in. */
  datatype Journal = NoJournal | Corrupt | Journal(oldHash: string, newHash: string, stage: string)

  const INTENT := "intent"
  const DB_DONE := "db_done"

  datatype State = State(journal: Journal, db: Db, file: StateFile)

  /** How a durable write ends. A crash and a reported error leave the same stores behind, so
      the last two cover both: the write did or did not reach the store before the run ended. */
  datatype Write = Lands | LandsThenStops | Stops

  /** Everything an invocation meets from outside: failed reads and the fate of each write. */
  datatype Faults = Faults(
    journalRead: bool, probeOld: bool, probeNew: bool, fileOld: bool, fileNew: bool,
    intent: Write, applyRead: bool, commit: Write, dbDone: Write,
    fileApply: bool, fileWrite: Write, journalKept: bool)

  datatype Invocation = Invocation(
    oldSecret: string, newSecret: string, connected: bool, apply: bool,
    rand: nat -> nat, faults: Faults)

  datatype Ending = Failed | DryRun | Stopped | Done

  const CALM := Faults(false, false, false, false, false, Lands, false, Lands, Lands, false, Lands, false)

  predicate ValidPair(oldSecret: string, newSecret: string) {
    oldSecret != "" && newSecret != "" && oldSecret != newSecret && |newSecret| >= 32
  }

  /** The stage a run resumes at, "" when there is no journal, or a refusal. */
  function DecideResume(j: Journal, oldSecret: string, newSecret: string): Option<string> {
    match j
    case NoJournal => Some("")
    case Corrupt => None
    case Journal(o, n, stage) =>
      if o != oldSecret || n != newSecret then None
      else if stage != INTENT && stage != DB_DONE then None
      else Some(stage)
  }

  datatype Plan = Plan(stage: string, fileDone: bool)

  /** The zero-write preflight; None when some store cannot be read under the key it should hold. */
  function Preflight(s: State, inv: Invocation): Option<Plan> {
    var oldKey, newKey := StateKey(inv.oldSecret), StateKey(inv.newSecret);
    var f := inv.faults;
    if f.journalRead then None
    else
      match DecideResume(s.journal, inv.oldSecret, inv.newSecret)
      case None => None
      case Some(stage) =>
        var checkKey := if stage == DB_DONE then newKey else oldKey;
        var readable := !f.probeOld && AllReadable(s.db.cells, checkKey);
        var landed := !readable && stage == INTENT && !f.probeNew && AllReadable(s.db.cells, newKey);
        if inv.connected && !readable && !landed then None
        else
          var stage' := if inv.connected && landed then DB_DONE else stage;
          if !f.fileOld && FileReadable(s.file, oldKey) then Some(Plan(stage', false))
          else if stage' == DB_DONE && !f.fileNew && FileReadable(s.file, newKey) then Some(Plan(stage', true))
          else None
  }

  /** Intent journal, database commit, db_done journal. The flag says the run is still going. */
  function SwitchDb(s: State, inv: Invocation): (State, bool) {
    var oldKey, newKey := StateKey(inv.oldSecret), StateKey(inv.newSecret);
    var f := inv.faults;
    var s1 := s.(journal := Journal(inv.oldSecret, inv.newSecret, INTENT));
    var s2 := s1.(db := RotateDb(s.db, oldKey, newKey, inv.rand));
    var s3 := s2.(journal := Journal(inv.oldSecret, inv.newSecret, DB_DONE));
    if f.intent.Stops? then (s, false)
    else if f.intent.LandsThenStops? || f.applyRead || !AllReadable(s.db.cells, oldKey) || f.commit.Stops? then
      (s1, false)
    else if f.commit.LandsThenStops? || f.dbDone.Stops? then (s2, false)
    else (s3, f.dbDone.Lands?)
  }

  function SwitchFile(s: State, inv: Invocation): (State, bool) {
    var oldKey, newKey := StateKey(inv.oldSecret), StateKey(inv.newSecret);
    if inv.faults.fileApply || !FileReadable(s.file, oldKey) || inv.faults.fileWrite.Stops? then (s, false)
    else (s.(file := RotateFile(s.file, oldKey, newKey, inv.rand)), inv.faults.fileWrite.Lands?)
  }

  /** The state file step and the best-effort removal of the journal. */
  function FinishRun(s: State, plan: Plan, inv: Invocation): (State, Ending) {
    var (s', going) := if plan.fileDone then (s, true) else SwitchFile(s, inv);
    if !going then (s', Stopped)
    else (if inv.faults.journalKept then s' else s'.(journal := NoJournal), Done)
  }

  /** One run of hpg-rotate-secret: the stores it leaves behind and how it ended. */
  function Run(s: State, inv: Invocation): (State, Ending) {
    if !ValidPair(inv.oldSecret, inv.newSecret) then (s, Failed)
    else
      match Preflight(s, inv)
      case None => (s, Failed)
      case Some(plan) =>
        if !inv.apply then (s, DryRun)
        else if !inv.connected then (s, Failed)
        else
          var (s1, going1) := if plan.stage == DB_DONE then (s, true) else SwitchDb(s, inv);
          if !going1 then (s1, Stopped) else FinishRun(s1, plan, inv)
  }

  /** Any number of runs, one after the other, with the panel stopped in between. */
  function Runs(s: State, invs: seq<Invocation>): State
    decreases |invs|
  {
    if invs == [] then s else Run(Runs(s, invs[..|invs| - 1]), invs[|invs| - 1]).0
  }

  // ---------------------------------------------------------------- what rotation keeps

  /** What the stores held before the first run, and the pair every run is given. */
  datatype Origin = Origin(cells: seq<Cell>, file: StateFile, oldSecret: string, newSecret: string) {
    function OldKey(): Key { StateKey(oldSecret) }
    function NewKey(): Key { StateKey(newSecret) }
  }

  /** What no pass touches: values the column's query leaves out, and values without its marker. */
  predicate Unselected(c: Cell) {
    !c.filtered || c.value == [] || !(c.column.prefix <= c.value)
  }

  /** What the panel reads in a cell: what its text after the marker opens to under key. */
  function Reading(c: Cell, key: Key): Option<Opened> {
    if Unselected(c) then None else DecEnvelope(c.value[|c.column.prefix|..], key)
  }

  /** A pass under key gets past the row. */
  predicate Legible(c: Cell, key: Key) {
    Unselected(c) || c.column.tolerant || Reading(c, key).Some?
  }

  predicate DbLegible(cells: seq<Cell>, key: Key) {
    forall i :: 0 <= i < |cells| ==> Legible(cells[i], key)
  }

  predicate FileLegible(f: StateFile, key: Key) {
    && (f.dbPassword == [] || Decrypt(f.dbPassword, key).Some?)
    && (f.smtpPassword == [] || Decrypt(f.smtpPassword, key).Some?)
  }

  /** A pass under key gets through a store exactly when the panel can read it. */
  lemma PassesExactlyTheLegible(cells: seq<Cell>, f: StateFile, key: Key)
    ensures AllReadable(cells, key) <==> DbLegible(cells, key)
    ensures FileReadable(f, key) <==> FileLegible(f, key)
  {
    forall i | 0 <= i < |cells| ensures Aborts(cells[i], key) <==> !Legible(cells[i], key) {
    }
  }

  /** c is c0 re-sealed: the same row, purpose and plaintext now open under newKey. A row that
      oldKey did not open (legacy plaintext, another prefix, not selected) is left as it was. */
  ghost predicate Resealed(c0: Cell, c: Cell, oldKey: Key, newKey: Key) {
    if Reading(c0, oldKey).Some? then
      c == c0.(value := c.value) && Reading(c, newKey) == Reading(c0, oldKey)
    else c == c0
  }

  ghost predicate DbOld(o: Origin, s: State) {
    s.db.cells == o.cells
  }

  ghost predicate DbNew(o: Origin, s: State) {
    && |s.db.cells| == |o.cells|
    && forall i :: 0 <= i < |o.cells| ==> Resealed(o.cells[i], s.db.cells[i], o.OldKey(), o.NewKey())
  }

  ghost predicate FieldResealed(t0: Text, t: Text, oldKey: Key, newKey: Key) {
    if Decrypt(t0, oldKey).Some? then Decrypt(t, newKey) == Decrypt(t0, oldKey) else t == t0
  }

  ghost predicate FileOld(o: Origin, s: State) {
    s.file == o.file
  }

  ghost predicate FileNew(o: Origin, s: State) {
    && FieldResealed(o.file.dbPassword, s.file.dbPassword, o.OldKey(), o.NewKey())
    && FieldResealed(o.file.smtpPassword, s.file.smtpPassword, o.OldKey(), o.NewKey())
  }

  /** Every store can be read in full under the old secret, as an intact installation can. */
  ghost predicate Intact(o: Origin) {
    DbLegible(o.cells, o.OldKey()) && FileLegible(o.file, o.OldKey())
  }

  /** The invariant of the protocol. Each store is wholly old or wholly new; a rotated file
      implies a rotated database; the journal exists whenever the two differ; db_done is only
      ever recorded over a rotated database; nothing was written unless both were intact. */
  ghost predicate Consistent(o: Origin, s: State) {
    && (DbOld(o, s) || DbNew(o, s))
    && (FileOld(o, s) || FileNew(o, s))
    && (FileOld(o, s) || DbNew(o, s))
    && (s.journal.NoJournal? || s.journal == Journal(o.oldSecret, o.newSecret, INTENT)
        || s.journal == Journal(o.oldSecret, o.newSecret, DB_DONE))
    && (s.journal.NoJournal? ==> (DbOld(o, s) && FileOld(o, s)) || (DbNew(o, s) && FileNew(o, s)))
    && (s.journal == Journal(o.oldSecret, o.newSecret, DB_DONE) ==> DbNew(o, s))
    && (s.journal == Journal(o.oldSecret, o.newSecret, INTENT) ==> FileOld(o, s) || HasMandatoryRow(o))
    && ((s.journal.NoJournal? && DbOld(o, s) && FileOld(o, s)) || Intact(o))
  }

  /** Some row outside the tolerant columns has to open. */
  predicate HasMandatoryRow(o: Origin) {
    exists i :: 0 <= i < |o.cells| && !Unselected(o.cells[i]) && !o.cells[i].column.tolerant
  }

  predicate NothingToRotate(o: Origin) {
    && (forall i :: 0 <= i < |o.cells| ==> Reading(o.cells[i], o.OldKey()).None?)
    && o.file == StateFile([], [])
  }

  /** The resume probe can tell the two sides of the commit apart, or they are the same. */
  predicate ProbeDecides(o: Origin) {
    HasMandatoryRow(o) || NothingToRotate(o)
  }

  lemma RotateCellReseals(c: Cell, oldKey: Key, newKey: Key, nonce: nat)
    ensures Resealed(c, RotateCell(c, oldKey, newKey, nonce), oldKey, newKey)
  {
    if OpensUnder(c, oldKey) {
      var o := DecEnvelope(Body(c), oldKey).value;
      OpensUnderOneKey(Body(c), oldKey, newKey);
      EnvelopeRoundTrip(o, newKey, nonce, newKey);
      var c' := RotateCell(c, oldKey, newKey, nonce);
      assert c'.value[|c.column.prefix|..] == EncEnvelope(o, newKey, nonce);
    }
  }

  /** A row already re-sealed is not touched again, and no longer opens under the old key. */
  lemma ResealedIsClosedToOld(c0: Cell, c: Cell, oldKey: Key, newKey: Key)
    requires oldKey != newKey && Resealed(c0, c, oldKey, newKey)
    ensures !OpensUnder(c, oldKey)
    ensures forall nonce :: RotateCell(c, oldKey, newKey, nonce) == c
  {
    if OpensUnder(c0, oldKey) {
      OpensUnderOneKey(Body(c), newKey, oldKey);
    }
  }

  lemma OldDbBecomesNew(o: Origin, s: State, rand: nat -> nat)
    requires DbOld(o, s)
    ensures DbNew(o, s.(db := RotateDb(s.db, o.OldKey(), o.NewKey(), rand)))
  {
    forall i | 0 <= i < |o.cells| {
      RotateCellReseals(o.cells[i], o.OldKey(), o.NewKey(), rand(i));
    }
  }

  lemma NewDbIsFixed(o: Origin, s: State, rand: nat -> nat)
    requires DbNew(o, s) && o.oldSecret != o.newSecret
    ensures RotateCells(s.db.cells, o.OldKey(), o.NewKey(), rand) == s.db.cells
  {
    forall i | 0 <= i < |o.cells|
      ensures RotateCells(s.db.cells, o.OldKey(), o.NewKey(), rand)[i] == s.db.cells[i]
    {
      ResealedIsClosedToOld(o.cells[i], s.db.cells[i], o.OldKey(), o.NewKey());
    }
  }

  /** A rotated database passes the probe under the new key. */
  lemma NewDbReadsUnderNew(o: Origin, s: State)
    requires DbNew(o, s) && Intact(o)
    ensures AllReadable(s.db.cells, o.NewKey())
  {
    forall i | 0 <= i < |o.cells| ensures !Aborts(s.db.cells[i], o.NewKey()) {
      assert Resealed(o.cells[i], s.db.cells[i], o.OldKey(), o.NewKey());
    }
  }

  lemma MandatoryRowStays(o: Origin, s: State, i: nat)
    requires (DbOld(o, s) || DbNew(o, s)) && i < |s.db.cells|
    requires Considered(s.db.cells[i]) && !s.db.cells[i].column.tolerant
    ensures HasMandatoryRow(o)
  {
    assert DbNew(o, s) ==> Resealed(o.cells[i], s.db.cells[i], o.OldKey(), o.NewKey());
    assert Considered(o.cells[i]);
  }

  /** When the probe decides, an old database never passes for a rotated one. */
  lemma ProbeTellsOldFromNew(o: Origin, s: State)
    requires DbOld(o, s) && Intact(o) && ProbeDecides(o) && o.oldSecret != o.newSecret
    requires AllReadable(s.db.cells, o.NewKey())
    ensures DbNew(o, s)
  {
    if i :| 0 <= i < |o.cells| && Considered(o.cells[i]) && !o.cells[i].column.tolerant {
      assert !Aborts(o.cells[i], o.OldKey()) && !Aborts(o.cells[i], o.NewKey());
      OpensUnderOneKey(Body(o.cells[i]), o.OldKey(), o.NewKey());
      assert false;
    } else {
      forall j | 0 <= j < |o.cells|
        ensures Resealed(o.cells[j], s.db.cells[j], o.OldKey(), o.NewKey())
      {
      }
    }
  }

  /** Reading the file under a key settles which side of the rename it is on. */
  lemma FileSide(o: Origin, s: State)
    requires o.oldSecret != o.newSecret && FileReadable(o.file, o.OldKey())
    requires FileOld(o, s) || FileNew(o, s)
    ensures FileReadable(s.file, o.OldKey()) ==> FileOld(o, s)
    ensures FileReadable(s.file, o.NewKey()) <==> FileNew(o, s)
  {
  }

  lemma OldFileBecomesNew(o: Origin, s: State, rand: nat -> nat)
    requires FileOld(o, s) && FileReadable(o.file, o.OldKey())
    ensures FileNew(o, s.(file := RotateFile(s.file, o.OldKey(), o.NewKey(), rand)))
  {
  }

  lemma NewFileIsFixed(o: Origin, s: State, rand: nat -> nat)
    requires FileNew(o, s) && o.oldSecret != o.newSecret
    ensures RotateFile(s.file, o.OldKey(), o.NewKey(), rand) == s.file
  {
  }

  predicate SamePair(o: Origin, inv: Invocation) {
    inv.oldSecret == o.oldSecret && inv.newSecret == o.newSecret
  }

  /** A passed preflight places the stores: both intact, and db_done only over a new database. */
  lemma PreflightPlacesStores(o: Origin, s: State, inv: Invocation)
    requires ValidPair(o.oldSecret, o.newSecret) && SamePair(o, inv) && inv.connected
    requires Consistent(o, s) && Preflight(s, inv).Some?
    requires ProbeDecides(o) || !inv.faults.probeOld
    ensures Intact(o)
    ensures Preflight(s, inv).value.stage == DB_DONE ==> DbNew(o, s)
    ensures Preflight(s, inv).value.fileDone ==> DbNew(o, s) && FileNew(o, s)
    ensures !Preflight(s, inv).value.fileDone ==> FileOld(o, s)
    ensures s.journal == Journal(o.oldSecret, o.newSecret, INTENT) && Preflight(s, inv).value.stage == DB_DONE
            ==> ProbeDecides(o)
  {
    var plan := Preflight(s, inv).value;
    if s.journal == Journal(o.oldSecret, o.newSecret, INTENT) && plan.stage == DB_DONE && !inv.faults.probeOld {
      var i :| 0 <= i < |s.db.cells| && Aborts(s.db.cells[i], o.OldKey());
      MandatoryRowStays(o, s, i);
    }
    if s.journal == Journal(o.oldSecret, o.newSecret, INTENT) && plan.stage == DB_DONE && !DbNew(o, s) {
      assert DbOld(o, s);
      ProbeTellsOldFromNew(o, s);
    }
    FileSide(o, s);
  }

  lemma CommitMakesNew(o: Origin, s: State, rand: nat -> nat)
    requires (DbOld(o, s) || DbNew(o, s)) && o.oldSecret != o.newSecret
    ensures DbNew(o, s.(db := RotateDb(s.db, o.OldKey(), o.NewKey(), rand)))
  {
    if DbOld(o, s) {
      OldDbBecomesNew(o, s, rand);
    } else {
      NewDbIsFixed(o, s, rand);
    }
  }

  lemma SwitchDbKeeps(o: Origin, s: State, inv: Invocation)
    requires ValidPair(o.oldSecret, o.newSecret) && SamePair(o, inv)
    requires Consistent(o, s) && Intact(o) && FileOld(o, s)
    requires s.journal != Journal(o.oldSecret, o.newSecret, DB_DONE)
    ensures Consistent(o, SwitchDb(s, inv).0) && SwitchDb(s, inv).0.file == s.file
    ensures SwitchDb(s, inv).1 ==>
              DbNew(o, SwitchDb(s, inv).0) && SwitchDb(s, inv).0.journal == Journal(o.oldSecret, o.newSecret, DB_DONE)
  {
    var s1 := s.(journal := Journal(inv.oldSecret, inv.newSecret, INTENT));
    var s2 := s1.(db := RotateDb(s.db, o.OldKey(), o.NewKey(), inv.rand));
    CommitMakesNew(o, s1, inv.rand);
    assert Consistent(o, s1);
    assert Consistent(o, s2);
  }

  lemma SwitchFileKeeps(o: Origin, s: State, inv: Invocation)
    requires SamePair(o, inv) && Intact(o) && Consistent(o, s) && DbNew(o, s) && FileOld(o, s)
    requires !s.journal.NoJournal?
    requires s.journal == Journal(o.oldSecret, o.newSecret, INTENT) ==> ProbeDecides(o)
    ensures Consistent(o, SwitchFile(s, inv).0) && DbNew(o, SwitchFile(s, inv).0)
    ensures SwitchFile(s, inv).1 ==> FileNew(o, SwitchFile(s, inv).0)
  {
    OldFileBecomesNew(o, s, inv.rand);
    var s' := SwitchFile(s, inv).0;
    assert s'.db == s.db && s'.journal == s.journal;
    assert DbNew(o, s');
  }

  /** The last step, over a rotated database. */
  lemma FinishRunKeeps(o: Origin, s: State, plan: Plan, inv: Invocation)
    requires SamePair(o, inv) && Intact(o) && Consistent(o, s) && DbNew(o, s) && !s.journal.NoJournal?
    requires if plan.fileDone then FileNew(o, s) else FileOld(o, s)
    requires s.journal == Journal(o.oldSecret, o.newSecret, INTENT) ==> ProbeDecides(o)
    ensures Consistent(o, FinishRun(s, plan, inv).0)
    ensures FinishRun(s, plan, inv).1.Done? ==>
              DbNew(o, FinishRun(s, plan, inv).0) && FileNew(o, FinishRun(s, plan, inv).0)
  {
    var s' := if plan.fileDone then s else SwitchFile(s, inv).0;
    if !plan.fileDone {
      SwitchFileKeeps(o, s, inv);
    }
    if FileNew(o, s') {
      NewIsAboutContents(o, s', s'.(journal := NoJournal));
    }
  }

  /** One run, with any fault or crash, preserves the invariant; a run that reports success
      leaves both stores rotated. */
  lemma RunKeeps(o: Origin, s: State, inv: Invocation)
    requires SamePair(o, inv) && Consistent(o, s)
    requires ProbeDecides(o) || !inv.faults.probeOld
    ensures Consistent(o, Run(s, inv).0)
    ensures Run(s, inv).1.Done? ==> DbNew(o, Run(s, inv).0) && FileNew(o, Run(s, inv).0)
  {
    if ValidPair(o.oldSecret, o.newSecret) && inv.apply && inv.connected && Preflight(s, inv).Some? {
      PreflightPlacesStores(o, s, inv);
      var plan := Preflight(s, inv).value;
      var s1 := s;
      var going1 := true;
      if plan.stage != DB_DONE {
        SwitchDbKeeps(o, s, inv);
        s1, going1 := SwitchDb(s, inv).0, SwitchDb(s, inv).1;
      }
      if going1 {
        FinishRunKeeps(o, s1, plan, inv);
      }
    }
  }

  /** Safety over whole runs: from an untouched installation, after any number of runs with
      the same pair, each crashing or failing anywhere. */
  lemma {:induction false} EveryRunSequenceIsSafe(o: Origin, s0: State, invs: seq<Invocation>)
    requires s0.journal.NoJournal? && DbOld(o, s0) && FileOld(o, s0)
    requires forall k :: 0 <= k < |invs| ==> SamePair(o, invs[k])
    requires ProbeDecides(o) || forall k :: 0 <= k < |invs| ==> !invs[k].faults.probeOld
    ensures Consistent(o, Runs(s0, invs))
    decreases |invs|
  {
    if invs != [] {
      var before := invs[..|invs| - 1];
      EveryRunSequenceIsSafe(o, s0, before);
      RunKeeps(o, Runs(s0, before), invs[|invs| - 1]);
    }
  }

  // ---------------------------------------------------------------- resuming

  ghost predicate Unfinished(o: Origin, s: State) {
    !s.journal.NoJournal? || (DbOld(o, s) && FileOld(o, s))
  }

  lemma NewDbAbortsUnderOld(o: Origin, s: State)
    requires o.oldSecret != o.newSecret && Intact(o) && DbNew(o, s) && HasMandatoryRow(o)
    ensures !AllReadable(s.db.cells, o.OldKey())
  {
    var i :| 0 <= i < |o.cells| && Considered(o.cells[i]) && !o.cells[i].column.tolerant;
    assert !Aborts(o.cells[i], o.OldKey());
    assert Resealed(o.cells[i], s.db.cells[i], o.OldKey(), o.NewKey());
    ResealedIsClosedToOld(o.cells[i], s.db.cells[i], o.OldKey(), o.NewKey());
    assert Aborts(s.db.cells[i], o.OldKey());
  }

  lemma CalmPreflightPasses(o: Origin, s: State, inv: Invocation)
    requires ValidPair(o.oldSecret, o.newSecret) && Intact(o)
    requires Consistent(o, s) && Unfinished(o, s)
    requires SamePair(o, inv) && inv.connected && inv.faults == CALM
    ensures Preflight(s, inv).Some?
    ensures Preflight(s, inv).value.stage != DB_DONE ==> AllReadable(s.db.cells, o.OldKey())
  {
    FileSide(o, s);
    if DbNew(o, s) {
      NewDbReadsUnderNew(o, s);
    }
    if HasMandatoryRow(o) && DbNew(o, s) {
      NewDbAbortsUnderOld(o, s);
    }
  }

  /** From every unfinished state one undisturbed --apply run finishes the rotation, whatever
      crashes led there, and leaves every row already under the new key exactly as it is. */
  lemma OneMoreRunFinishes(o: Origin, s: State, inv: Invocation)
    requires ValidPair(o.oldSecret, o.newSecret) && Intact(o)
    requires Consistent(o, s) && Unfinished(o, s)
    requires SamePair(o, inv) && inv.connected && inv.apply && inv.faults == CALM
    ensures Run(s, inv).1 == Done
    ensures DbNew(o, Run(s, inv).0) && FileNew(o, Run(s, inv).0) && Run(s, inv).0.journal.NoJournal?
    ensures DbNew(o, s) ==> Run(s, inv).0.db.cells == s.db.cells
  {
    CalmPreflightPasses(o, s, inv);
    PreflightPlacesStores(o, s, inv);
    if Preflight(s, inv).value.stage != DB_DONE {
      SwitchDbKeeps(o, s, inv);
    }
    if DbNew(o, s) {
      NewDbIsFixed(o, s, inv.rand);
    }
    var (s1, going1) := if Preflight(s, inv).value.stage == DB_DONE then (s, true) else SwitchDb(s, inv);
    assert going1 && s1.file == s.file && DbNew(o, s1);
    if !Preflight(s, inv).value.fileDone {
      SwitchFileKeeps(o, s1, inv);
    }
    assert FinishRun(s1, Preflight(s, inv).value, inv) == Run(s, inv);
  }

  lemma NewIsAboutContents(o: Origin, s: State, s': State)
    requires DbNew(o, s) && FileNew(o, s) && s'.db.cells == s.db.cells && s'.file == s.file
    ensures DbNew(o, s') && FileNew(o, s')
  {
    forall i | 0 <= i < |o.cells| ensures Resealed(o.cells[i], s'.db.cells[i], o.OldKey(), o.NewKey()) {
      assert Resealed(o.cells[i], s.db.cells[i], o.OldKey(), o.NewKey());
    }
  }

  /** Stores that rotation leaves as they are stay so. */
  lemma FixedStoresStay(s: State, inv: Invocation)
    requires var oldKey, newKey := StateKey(inv.oldSecret), StateKey(inv.newSecret);
             && RotateDb(s.db, oldKey, newKey, inv.rand).cells == s.db.cells
             && RotateFile(s.file, oldKey, newKey, inv.rand) == s.file
    ensures Run(s, inv).0.db.cells == s.db.cells && Run(s, inv).0.file == s.file
  {
  }

  /** From the finished state no run with the same pair loses anything. */
  lemma FinishedStaysFinished(o: Origin, s: State, inv: Invocation)
    requires ValidPair(o.oldSecret, o.newSecret) && SamePair(o, inv)
    requires DbNew(o, s) && FileNew(o, s)
    ensures DbNew(o, Run(s, inv).0) && FileNew(o, Run(s, inv).0)
    ensures Run(s, inv).0.db.cells == s.db.cells && Run(s, inv).0.file == s.file
  {
    NewDbIsFixed(o, s, inv.rand);
    NewFileIsFixed(o, s, inv.rand);
    FixedStoresStay(s, inv);
    NewIsAboutContents(o, s, Run(s, inv).0);
  }

  /** A dry run, a run without a database, and a run with another pair against a live journal
      all leave every store untouched. */
  lemma OthersWriteNothing(s: State, inv: Invocation)
    requires || !inv.apply
             || !inv.connected
             || s.journal.Corrupt? || inv.faults.journalRead
             || (s.journal.Journal? && s.journal.stage !in ["intent", "db_done"])
             || (s.journal.Journal? && (inv.oldSecret != s.journal.oldHash || inv.newSecret != s.journal.newHash))
    ensures Run(s, inv).0 == s && !Run(s, inv).1.Done?
  {
  }

  /** What Consistent gives a reader of the secrets: at every moment each row that was sealed
      under the old secret opens, under the key its store is on, to its own purpose and text. */
  lemma NoSecretIsLost(o: Origin, s: State, i: nat)
    requires Consistent(o, s) && i < |o.cells| && Reading(o.cells[i], o.OldKey()).Some?
    ensures |s.db.cells| == |o.cells|
    ensures var key := if DbNew(o, s) then o.NewKey() else o.OldKey();
            Reading(s.db.cells[i], key) == Reading(o.cells[i], o.OldKey())
  {
    assert DbNew(o, s) ==> Resealed(o.cells[i], s.db.cells[i], o.OldKey(), o.NewKey());
  }

  /** In every consistent state of an intact installation all mandatory rows are under one
      key, both file fields are under one key, and the file is never ahead of the database. */
  lemma EachStoreIsUnderOneKey(o: Origin, s: State)
    requires Consistent(o, s) && Intact(o) && o.oldSecret != o.newSecret
    ensures var dbKey := if DbNew(o, s) then o.NewKey() else o.OldKey();
            var fileKey := if FileNew(o, s) then o.NewKey() else o.OldKey();
            && DbLegible(s.db.cells, dbKey)
            && FileLegible(s.file, fileKey)
            && (s.journal.NoJournal? ==>
                  || (DbLegible(s.db.cells, o.OldKey()) && FileLegible(s.file, o.OldKey()))
                  || (DbLegible(s.db.cells, o.NewKey()) && FileLegible(s.file, o.NewKey())))
            && (FileOld(o, s) || dbKey == o.NewKey())
            && (Decrypt(o.file.dbPassword, o.OldKey()).Some? ==>
                  Decrypt(s.file.dbPassword, fileKey) == Decrypt(o.file.dbPassword, o.OldKey()))
            && (Decrypt(o.file.smtpPassword, o.OldKey()).Some? ==>
                  Decrypt(s.file.smtpPassword, fileKey) == Decrypt(o.file.smtpPassword, o.OldKey()))
  {
    FileSide(o, s);
    if DbNew(o, s) {
      NewDbReadsUnderNew(o, s);
    }
  }

  // ---------------------------------------------------------------- when the probe misleads

  function CalmRun(o: Origin, rand: nat -> nat): Invocation {
    Invocation(o.oldSecret, o.newSecret, true, true, rand, CALM)
  }

  /** The stores are consistent, a run that reported success rotated both of them, and a
      rotation that is not finished can be finished. */
  ghost predicate SafeAfter(o: Origin, s: State, last: Invocation, rand: nat -> nat) {
    var (s', ending) := Run(s, last);
    && Consistent(o, s')
    && (ending.Done? ==> DbNew(o, s') && FileNew(o, s'))
    && (Unfinished(o, s') ==> Run(s', CalmRun(o, rand)).1.Done?)
  }

  ghost predicate AlwaysSafe(o: Origin, s0: State, rand: nat -> nat) {
    forall invs: seq<Invocation>, last: Invocation ::
      (forall k :: 0 <= k < |invs| ==> SamePair(o, invs[k])) && SamePair(o, last) ==>
        SafeAfter(o, Runs(s0, invs), last, rand)
  }

  /** The failing cases, both on a database with no mandatory row. A run dies right after
      recording its intent; the next one cannot read the database on the first probe but can
      on the second, and takes the commit for landed. If a tolerant row was sealed under the old
      secret, that run finishes the file, reports success and orphans the row. If only the file
      holds ciphertext and the run dies before removing the journal, the next undisturbed run
      fails: only another misread probe gets past it. */
  lemma MisreadProbe(o: Origin, s0: State, rand: nat -> nat) returns (first: Invocation, second: Invocation)
    requires ValidPair(o.oldSecret, o.newSecret) && Intact(o) && !ProbeDecides(o)
    requires s0.journal.NoJournal? && DbOld(o, s0) && FileOld(o, s0)
    ensures SamePair(o, first) && SamePair(o, second)
    ensures !SafeAfter(o, Run(s0, first).0, second, rand)
    ensures (exists i :: 0 <= i < |o.cells| && Reading(o.cells[i], o.OldKey()).Some?)
            ==> Run(Run(s0, first).0, second).1.Done? && !DbNew(o, Run(Run(s0, first).0, second).0)
  {
    first := CalmRun(o, rand).(faults := CALM.(intent := LandsThenStops));
    var s1 := Run(s0, first).0;
    assert AllReadable(o.cells, o.NewKey());
    assert s1 == s0.(journal := Journal(o.oldSecret, o.newSecret, INTENT));
    if i :| 0 <= i < |o.cells| && Reading(o.cells[i], o.OldKey()).Some? {
      second := CalmRun(o, rand).(faults := CALM.(probeOld := true));
      assert Preflight(s1, second) == Some(Plan(DB_DONE, false));
      var s2 := Run(s1, second).0;
      OpensUnderOneKey(Body(o.cells[i]), o.OldKey(), o.NewKey());
      assert !Resealed(o.cells[i], s2.db.cells[i], o.OldKey(), o.NewKey());
    } else {
      second := CalmRun(o, rand).(faults := CALM.(probeOld := true, fileWrite := LandsThenStops));
      assert Preflight(s1, second) == Some(Plan(DB_DONE, false));
      var s2 := Run(s1, second).0;
      assert s2.journal == s1.journal && !FileReadable(s2.file, o.OldKey());
      assert Preflight(s2, CalmRun(o, rand)).None?;
    }
  }

  /** Exactly when rotation is safe and resumable under arbitrary failures: when the database
      holds a row that must open, or no store holds anything to rotate. */
  lemma SafeExactlyWhenProbeDecides(o: Origin, s0: State, rand: nat -> nat)
    requires ValidPair(o.oldSecret, o.newSecret) && Intact(o)
    requires s0.journal.NoJournal? && DbOld(o, s0) && FileOld(o, s0)
    ensures AlwaysSafe(o, s0, rand) <==> ProbeDecides(o)
  {
    if ProbeDecides(o) {
      forall invs: seq<Invocation>, last: Invocation |
        (forall k :: 0 <= k < |invs| ==> SamePair(o, invs[k])) && SamePair(o, last)
        ensures SafeAfter(o, Runs(s0, invs), last, rand)
      {
        EveryRunSequenceIsSafe(o, s0, invs);
        RunKeeps(o, Runs(s0, invs), last);
        var s' := Run(Runs(s0, invs), last).0;
        if Unfinished(o, s') {
          OneMoreRunFinishes(o, s', CalmRun(o, rand));
        }
      }
    } else {
      var first, second := MisreadProbe(o, s0, rand);
      var invs := [first];
      assert Runs(s0, invs) == Run(s0, first).0 by { assert invs[..0] == []; }
      assert !SafeAfter(o, Runs(s0, invs), second, rand);
    }
  }

  /** An undisturbed first run over an intact installation succeeds exactly when both secrets are given,
      differ, and the new one has at least 32 characters; otherwise it writes nothing. */
  lemma FirstRunSucceedsExactly(o: Origin, s0: State, rand: nat -> nat)
    requires Intact(o) && s0.journal.NoJournal? && DbOld(o, s0) && FileOld(o, s0)
    ensures Run(s0, CalmRun(o, rand)).1.Done?
            <==> o.oldSecret != "" && o.newSecret != "" && o.oldSecret != o.newSecret && 32 <= |o.newSecret|
    ensures !Run(s0, CalmRun(o, rand)).1.Done? ==> Run(s0, CalmRun(o, rand)) == (s0, Failed)
  {
    if ValidPair(o.oldSecret, o.newSecret) {
      OneMoreRunFinishes(o, s0, CalmRun(o, rand));
    }
  }

  // ---------------------------------------------------------------- what the commit clears

  /** No pending enrolment and no key HMAC is left; both depend on the secret that was replaced. */
  predicate Cleared(db: Db) {
    db.pendingTotp == {} && db.keyHmacs == {}
  }

  /** Whatever a run does to the database it does at once: re-seal cells and clear both sets, or
      nothing at all. */
  lemma CommitClears(s: State, inv: Invocation)
    ensures Run(s, inv).0.db == s.db || Cleared(Run(s, inv).0.db)
  {
  }

  /** db_done is only recorded over a cleared database, and so is every change to a row; and no
      journal is started unless the rows could all be read. */
  ghost predicate ClearedWithRows(o: Origin, s: State) {
    && (s.journal.Journal? && s.journal.stage == DB_DONE ==> Cleared(s.db))
    && (s.db.cells == o.cells || Cleared(s.db))
    && ((s.journal.NoJournal? && s.db.cells == o.cells) || AllReadable(o.cells, o.OldKey()))
  }

  /** A commit taken for landed did land. */
  lemma LandedIsCleared(o: Origin, s: State, inv: Invocation)
    requires o.oldSecret != o.newSecret && SamePair(o, inv) && inv.connected && ClearedWithRows(o, s)
    requires HasMandatoryRow(o) || !inv.faults.probeOld
    requires Preflight(s, inv).Some? && Preflight(s, inv).value.stage == DB_DONE
    ensures Cleared(s.db)
  {
    if s.db.cells == o.cells && !Cleared(s.db) {
      assert AllReadable(o.cells, o.OldKey());
      var i :| 0 <= i < |o.cells| && Considered(o.cells[i]) && !o.cells[i].column.tolerant;
      assert !Aborts(o.cells[i], o.OldKey()) && !Aborts(o.cells[i], o.NewKey());
      OpensUnderOneKey(Body(o.cells[i]), o.OldKey(), o.NewKey());
      assert false;
    }
  }

  lemma RunKeepsCleared(o: Origin, s: State, inv: Invocation)
    requires SamePair(o, inv) && ClearedWithRows(o, s) && (HasMandatoryRow(o) || !inv.faults.probeOld)
    ensures ClearedWithRows(o, Run(s, inv).0)
    ensures Run(s, inv).1.Done? ==> Cleared(Run(s, inv).0.db)
  {
    if ValidPair(inv.oldSecret, inv.newSecret) && inv.apply && inv.connected && Preflight(s, inv).Some? {
      if Preflight(s, inv).value.stage == DB_DONE {
        LandedIsCleared(o, s, inv);
      }
    }
  }

  /** From an untouched installation, after any number of runs with the same pair, failing anywhere:
      db_done stands for a cleared database, and a run that reports success leaves one, when a row has
      to open or no first probe was misread. */
  lemma {:induction false} EveryRunSequenceClears(o: Origin, s0: State, invs: seq<Invocation>, last: Invocation)
    requires s0.journal.NoJournal? && DbOld(o, s0) && SamePair(o, last)
    requires forall k :: 0 <= k < |invs| ==> SamePair(o, invs[k])
    requires HasMandatoryRow(o)
             || (!last.faults.probeOld && forall k :: 0 <= k < |invs| ==> !invs[k].faults.probeOld)
    ensures ClearedWithRows(o, Runs(s0, invs))
    ensures Run(Runs(s0, invs), last).1.Done? ==> Cleared(Run(Runs(s0, invs), last).0.db)
    decreases |invs|
  {
    if invs != [] {
      EveryRunSequenceClears(o, s0, invs[..|invs| - 1], invs[|invs| - 1]);
      RunKeepsCleared(o, Runs(s0, invs[..|invs| - 1]), invs[|invs| - 1]);
    }
    RunKeepsCleared(o, Runs(s0, invs), last);
  }

  ghost predicate SuccessClears(o: Origin, s0: State) {
    forall invs: seq<Invocation>, last: Invocation ::
      (forall k :: 0 <= k < |invs| ==> SamePair(o, invs[k])) && SamePair(o, last) ==>
        (Run(Runs(s0, invs), last).1.Done? ==> Cleared(Run(Runs(s0, invs), last).0.db))
  }

  /** Without a row that has to open: a run dies after recording its intent, the next misreads its
      first probe, reports success and has cleared nothing. */
  lemma MisreadProbeClearsNothing(o: Origin, s0: State, rand: nat -> nat)
    returns (first: Invocation, second: Invocation)
    requires ValidPair(o.oldSecret, o.newSecret) && Intact(o) && !HasMandatoryRow(o)
    requires s0.journal.NoJournal? && DbOld(o, s0) && FileOld(o, s0)
    ensures SamePair(o, first) && SamePair(o, second)
    ensures Run(Run(s0, first).0, second).1.Done? && Run(Run(s0, first).0, second).0.db == s0.db
  {
    first := CalmRun(o, rand).(faults := CALM.(intent := LandsThenStops));
    second := CalmRun(o, rand).(faults := CALM.(probeOld := true));
    var s1 := Run(s0, first).0;
    assert AllReadable(o.cells, o.NewKey());
    assert s1 == s0.(journal := Journal(o.oldSecret, o.newSecret, INTENT));
    assert Preflight(s1, second) == Some(Plan(DB_DONE, false));
  }

  /** Exactly when success means that pending enrolments and key HMACs are gone, under arbitrary
      failures: when some row has to open, or there was nothing to clear. */
  lemma SuccessClearsExactly(o: Origin, s0: State, rand: nat -> nat)
    requires ValidPair(o.oldSecret, o.newSecret) && Intact(o)
    requires s0.journal.NoJournal? && DbOld(o, s0) && FileOld(o, s0)
    ensures SuccessClears(o, s0) <==> HasMandatoryRow(o) || Cleared(s0.db)
  {
    if HasMandatoryRow(o) {
      forall invs: seq<Invocation>, last: Invocation |
        (forall k :: 0 <= k < |invs| ==> SamePair(o, invs[k])) && SamePair(o, last)
        ensures Run(Runs(s0, invs), last).1.Done? ==> Cleared(Run(Runs(s0, invs), last).0.db)
      {
        EveryRunSequenceClears(o, s0, invs, last);
      }
    } else if Cleared(s0.db) {
      forall invs: seq<Invocation>, last: Invocation ensures Cleared(Run(Runs(s0, invs), last).0.db) {
        ClearedStays(s0, invs);
        CommitClears(Runs(s0, invs), last);
      }
    } else {
      var first, second := MisreadProbeClearsNothing(o, s0, rand);
      var invs := [first];
      assert Runs(s0, invs) == Run(s0, first).0 by { assert invs[..0] == []; }
      assert Run(Runs(s0, invs), second).1.Done?;
    }
  }

  lemma {:induction false} ClearedStays(s: State, invs: seq<Invocation>)
    requires Cleared(s.db)
    ensures Cleared(Runs(s, invs).db)
    decreases |invs|
  {
    if invs != [] {
      ClearedStays(s, invs[..|invs| - 1]);
      CommitClears(Runs(s, invs[..|invs| - 1]), invs[|invs| - 1]);
    }
  }

  lemma RunKeepsOrRotates(s: State, inv: Invocation)
    ensures var db := Run(s, inv).0.db;
            db == s.db || db == RotateDb(s.db, StateKey(inv.oldSecret), StateKey(inv.newSecret), inv.rand)
  {
  }

  lemma UnselectedStaysOnce(s: State, inv: Invocation, i: nat)
    requires i < |s.db.cells| && Unselected(s.db.cells[i])
    ensures var cells := Run(s, inv).0.db.cells; |cells| == |s.db.cells| && cells[i] == s.db.cells[i]
  {
    RunKeepsOrRotates(s, inv);
    var oldKey, newKey := StateKey(inv.oldSecret), StateKey(inv.newSecret);
    assert !Considered(s.db.cells[i]);
    assert RotateCells(s.db.cells, oldKey, newKey, inv.rand)[i]
        == RotateCell(s.db.cells[i], oldKey, newKey, inv.rand(i));
  }

  /** Over every sequence of runs, with any pairs and failures, they stay byte for byte. */
  lemma {:induction false} UnselectedStays(s: State, invs: seq<Invocation>, i: nat)
    requires i < |s.db.cells| && Unselected(s.db.cells[i])
    ensures var cells := Runs(s, invs).db.cells; |cells| == |s.db.cells| && cells[i] == s.db.cells[i]
    decreases |invs|
  {
    if invs != [] {
      UnselectedStays(s, invs[..|invs| - 1], i);
      UnselectedStaysOnce(Runs(s, invs[..|invs| - 1]), invs[|invs| - 1], i);
    }
  }

  // ---------------------------------------------------------------- the program

  /** The three stores as the program updates them, one durable write at a time. */
  class Installation {
    var journal: Journal
    var db: Db
    var file: StateFile

    constructor (journal: Journal, db: Db, file: StateFile)
      ensures Stores() == State(journal, db, file)
    {
      this.journal, this.db, this.file := journal, db, file;
    }

    ghost function Stores(): State
      reads this
    {
      State(journal, db, file)
    }

    /** rotateDB: one pass over every encrypted cell inside one transaction. Any row that must
        open and does not rolls the whole pass back. */
    method RotateDatabase(oldKey: Key, newKey: Key, rand: nat -> nat, apply: bool, readFault: bool, commit: Write)
      returns (ok: bool)
      modifies this`db
      ensures ok <==> !readFault && AllReadable(old(db.cells), oldKey) && (apply ==> commit.Lands?)
      ensures db == if apply && !readFault && AllReadable(old(db.cells), oldKey) && !commit.Stops?
                    then RotateDb(old(db), oldKey, newKey, rand) else old(db)
      ensures db == old(db) || (db.pendingTotp == {} && db.keyHmacs == {})
    {
      if readFault {
        return false;
      }
      var tx: seq<Cell> := [];
      var i := 0;
      while i < |db.cells|
        invariant 0 <= i <= |db.cells| && |tx| == i && db == old(db)
        invariant forall k :: 0 <= k < i ==> !Aborts(db.cells[k], oldKey)
        invariant forall k :: 0 <= k < i ==> tx[k] == RotateCell(db.cells[k], oldKey, newKey, rand(k))
      {
        var c := db.cells[i];
        var plain := if Considered(c) then DecEnvelope(Body(c), oldKey) else None;
        if Considered(c) && plain.None? && !c.column.tolerant {
          return false;
        }
        if plain.Some? {
          tx := tx + [c.(value := c.column.prefix + EncEnvelope(plain.value, newKey, rand(i)))];
        } else {
          tx := tx + [c];
        }
        i := i + 1;
      }
      assert tx == RotateCells(db.cells, oldKey, newKey, rand);
      if !apply {
        return true;
      }
      if !commit.Stops? {
        db := Db(tx, {}, {});
      }
      ok := commit.Lands?;
    }

    /** rotateStateFile: re-seal the fields that are present, then replace the file. */
    method RotateStateFile(oldKey: Key, newKey: Key, rand: nat -> nat, apply: bool, readFault: bool, write: Write)
      returns (ok: bool)
      modifies this`file
      ensures ok <==> !readFault && FileReadable(old(file), oldKey) && (apply ==> write.Lands?)
      ensures file == if apply && !readFault && FileReadable(old(file), oldKey) && !write.Stops?
                      then RotateFile(old(file), oldKey, newKey, rand) else old(file)
    {
      if readFault {
        return false;
      }
      var next := file;
      if next.dbPassword != [] {
        var pt := Decrypt(next.dbPassword, oldKey);
        if pt.None? { return false; }
        next := next.(dbPassword := Encrypt(pt.value, newKey, rand(0)));
      }
      if next.smtpPassword != [] {
        var pt := Decrypt(next.smtpPassword, oldKey);
        if pt.None? { return false; }
        next := next.(smtpPassword := Encrypt(pt.value, newKey, rand(1)));
      }
      if apply && !write.Stops? {
        file := next;
      }
      ok := apply ==> write.Lands?;
    }

    /** writeJournal: an atomic durable replace. */
    method WriteJournal(j: Journal, write: Write) returns (ok: bool)
      modifies this`journal
      ensures ok <==> write.Lands?
      ensures journal == if write.Stops? then old(journal) else j
    {
      if !write.Stops? {
        journal := j;
      }
      ok := write.Lands?;
    }

    /** runRotation, step by step; its effect on the stores is the function Run, about which
        the theorems above are proved. */
    method RunRotation(inv: Invocation) returns (ending: Ending)
      modifies this
      ensures (Stores(), ending) == Run(old(Stores()), inv)
    {
      var oldKey, newKey := StateKey(inv.oldSecret), StateKey(inv.newSecret);
      var f := inv.faults;
      if !ValidPair(inv.oldSecret, inv.newSecret) || f.journalRead {
        return Failed;
      }
      var resume := DecideResume(journal, inv.oldSecret, inv.newSecret);
      if resume.None? {
        return Failed;
      }
      var stage := resume.value;
      if inv.connected {
        var checkKey := if stage == DB_DONE then newKey else oldKey;
        var ok := RotateDatabase(checkKey, newKey, inv.rand, false, f.probeOld, Stops);
        if !ok && stage == INTENT {
          var landed := RotateDatabase(newKey, newKey, inv.rand, false, f.probeNew, Stops);
          if landed {
            stage, ok := DB_DONE, true;
          }
        }
        if !ok {
          return Failed;
        }
      }
      var fileDone := false;
      var fileOk := RotateStateFile(oldKey, newKey, inv.rand, false, f.fileOld, Stops);
      if !fileOk {
        var already := false;
        if stage == DB_DONE {
          already := RotateStateFile(newKey, newKey, inv.rand, false, f.fileNew, Stops);
        }
        if !already {
          return Failed;
        }
        fileDone := true;
      }
      assert Preflight(Stores(), inv) == Some(Plan(stage, fileDone));
      if !inv.apply {
        return DryRun;
      }
      if !inv.connected {
        return Failed;
      }
      if stage != DB_DONE {
        var wrote := WriteJournal(Journal(inv.oldSecret, inv.newSecret, INTENT), f.intent);
        if !wrote { return Stopped; }
        var committed := RotateDatabase(oldKey, newKey, inv.rand, true, f.applyRead, f.commit);
        if !committed { return Stopped; }
        wrote := WriteJournal(Journal(inv.oldSecret, inv.newSecret, DB_DONE), f.dbDone);
        if !wrote { return Stopped; }
      }
      if !fileDone {
        var replaced := RotateStateFile(oldKey, newKey, inv.rand, true, f.fileApply, f.fileWrite);
        if !replaced { return Stopped; }
      }
      if !f.journalKept {
        journal := NoJournal;
      }
      return Done;
    }
  }
}
