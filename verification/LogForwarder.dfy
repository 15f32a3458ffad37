/**
  The access-log forwarder of the node agent (cmd/node-agent/main.go): it tails an append-only
  log, posts runs of whole lines to the panel, and persists its offset in a sidecar file so that
  a restart resumes where it left off. Tail-only start is not modelled.
 */
module LogForwarder {
  import opened Wrappers

  const MAX_BATCH: nat := 0x80_0000
  const SOFT_BATCH: nat := 0x10_0000

  /** Index of the last newline, or -1. */
  function LastNewline(s: string): (n: int)
    ensures -1 <= n < |s|
    ensures n >= 0 ==> s[n] == '\n'
    ensures forall k :: n < k < |s| ==> s[k] != '\n'
  {
    if s == "" then -1
    else if s[|s| - 1] == '\n' then |s| - 1
    else LastNewline(s[..|s| - 1])
  }

  function Min(a: nat, b: nat): nat {
    if a < b then a else b
  }

  /** Where the batch that starts at offset ends, if a complete line is in reach: through the
      last newline of 8 MiB, cut back to about 1 MiB when a newline allows it. */
  function BatchEnd(log: string, offset: nat): Option<nat>
    requires offset <= |log|
  {
    var buf := log[offset..Min(|log|, offset + MAX_BATCH)];
    var nl := LastNewline(buf);
    if nl < 0 then None
    else if nl + 1 > SOFT_BATCH && LastNewline(buf[..SOFT_BATCH]) >= 0 then
      Some(offset + LastNewline(buf[..SOFT_BATCH]) + 1)
    else Some(offset + nl + 1)
  }

  /** One batch posted: the bytes [from, to) of the log, and whether the panel answered 2xx. */
  datatype Post = Post(from: nat, to: nat, acked: bool)

  /** The agent: its position once initialised, the offset in the sidecar, and every post. */
  datatype Agent = Agent(inited: bool, offset: nat, sidecar: Option<int>, posts: seq<Post>)

  /** What a tick meets: whether the file opens and reads, the post is acknowledged, and the
      sidecar is replaced. */
  datatype TickIo = TickIo(opens: bool, readable: bool, acked: bool, saved: bool)

  /** initForwardOffset, reading an absent, unparsable or negative position as a first run. */
  function InitOffset(sidecar: Option<int>, size: nat): (o: nat)
    ensures o <= size
  {
    if sidecar.Some? && 0 <= sidecar.value <= size then sidecar.value else 0
  }

  function StartOffset(a: Agent, log: string): (o: nat)
    ensures o <= |log|
  {
    var o := if a.inited then a.offset else InitOffset(a.sidecar, |log|);
    if |log| < o then 0 else o
  }

  function Deliver(a: Agent, from: nat, to: nat, io: TickIo): Agent {
    var posted := a.(posts := a.posts + [Post(from, to, io.acked)]);
    if !io.acked then posted.(inited := true, offset := from)
    else posted.(inited := true, offset := to, sidecar := if io.saved then Some(to) else a.sidecar)
  }

  /** One turn of the polling loop. */
  function Tick(a: Agent, log: string, io: TickIo): Agent {
    if !io.opens then a
    else
      var from := StartOffset(a, log);
      if from == |log| || !io.readable || BatchEnd(log, from).None? then a.(inited := true, offset := from)
      else Deliver(a, from, BatchEnd(log, from).value, io)
  }

  /** The batch cut from the bytes read at offset. */
  method CutBatch(log: string, offset: nat) returns (to: Option<nat>)
    requires offset <= |log|
    ensures to == BatchEnd(log, offset)
  {
    var buf := log[offset..Min(|log|, offset + MAX_BATCH)];
    var nl := LastNewline(buf);
    if nl < 0 {
      return None;
    }
    var batch := buf[..nl + 1];
    if |batch| > SOFT_BATCH {
      assert batch[..SOFT_BATCH] == buf[..SOFT_BATCH];
      var i := LastNewline(batch[..SOFT_BATCH]);
      if i >= 0 {
        batch := batch[..i + 1];
      }
    }
    return Some(offset + |batch|);
  }

  class Forwarder {
    var inited: bool
    var offset: nat
    var sidecar: Option<int>
    ghost var posts: seq<Post>

    constructor (sidecar: Option<int>)
      ensures View() == Agent(false, 0, sidecar, [])
    {
      inited, offset, this.sidecar, posts := false, 0, sidecar, [];
    }

    ghost function View(): Agent
      reads this
    {
      Agent(inited, offset, sidecar, posts)
    }

    /** One turn of forwardAccessLogs over the file as it is now. */
    method Poll(log: string, io: TickIo)
      modifies this
      ensures View() == Tick(old(View()), log, io)
    {
      if !io.opens {
        return;
      }
      if !inited {
        inited := true;
        offset := InitOffset(sidecar, |log|);
      }
      if |log| < offset {
        offset := 0;
      }
      if |log| == offset || !io.readable {
        return;
      }
      var to := CutBatch(log, offset);
      if to.None? {
        return;
      }
      posts := posts + [Post(offset, to.value, io.acked)];
      if io.acked {
        offset := to.value;
        if io.saved {
          sidecar := Some(offset);
        }
      }
    }
  }

  // ---------------------------------------------------------------- runs

  /** The log grows, the loop turns, the process restarts, or the sidecar is lost. */
  datatype Event = Append(text: string) | Turn(io: TickIo) | Restart | LoseSidecar

  datatype World = World(log: string, agent: Agent)

  function Step(w: World, e: Event): World {
    match e
    case Append(text) => w.(log := w.log + text)
    case Turn(io) => w.(agent := Tick(w.agent, w.log, io))
    case Restart => w.(agent := w.agent.(inited := false, offset := 0))
    case LoseSidecar => w.(agent := w.agent.(sidecar := None))
  }

  function Run(w: World, es: seq<Event>): World {
    if es == [] then w else Step(Run(w, es[..|es| - 1]), es[|es| - 1])
  }

  /** A position where a line starts. */
  predicate LineStart(log: string, p: nat) {
    p <= |log| && (p == 0 || log[p - 1] == '\n')
  }

  /** A post is a non-empty run of whole lines of the log. */
  predicate WholeLines(log: string, p: Post) {
    p.from < p.to && LineStart(log, p.from) && LineStart(log, p.to)
  }

  /** Byte i was in a batch the panel acknowledged. */
  predicate Acked(posts: seq<Post>, i: nat) {
    exists k :: 0 <= k < |posts| && posts[k].acked && posts[k].from <= i < posts[k].to
  }

  ghost predicate Covered(posts: seq<Post>, upTo: nat) {
    forall i: nat :: i < upTo ==> Acked(posts, i)
  }

  /** Everything below the offset, and below the persisted offset, was acknowledged; both are
      line starts; every batch ever posted was whole lines. */
  ghost predicate NeverSkips(w: World) {
    var a := w.agent;
    && (forall k :: 0 <= k < |a.posts| ==> WholeLines(w.log, a.posts[k]))
    && (a.inited ==> LineStart(w.log, a.offset) && Covered(a.posts, a.offset))
    && (a.sidecar.Some? ==>
          a.sidecar.value >= 0 && LineStart(w.log, a.sidecar.value) && Covered(a.posts, a.sidecar.value))
  }

  lemma BatchIsWholeLines(log: string, from: nat)
    requires LineStart(log, from) && BatchEnd(log, from).Some?
    ensures WholeLines(log, Post(from, BatchEnd(log, from).value, true))
  {
    var buf := log[from..Min(|log|, from + MAX_BATCH)];
    var to := BatchEnd(log, from).value;
    assert log[to - 1] == buf[to - 1 - from];
  }

  /** p is the last line start after from and at most limit bytes on. */
  ghost predicate LastStart(log: string, from: nat, limit: nat, p: nat) {
    && from < p <= from + limit && LineStart(log, p)
    && forall q: nat :: p < q <= from + limit ==> !LineStart(log, q)
  }

  /** No line starts after from and at most limit bytes on. */
  ghost predicate NoStart(log: string, from: nat, limit: nat) {
    forall q: nat :: from < q <= from + limit ==> !LineStart(log, q)
  }

  /** The last newline of a read of n bytes gives the last line start in reach. */
  lemma LastNewlineIsLastStart(log: string, from: nat, limit: nat, n: nat)
    requires from <= |log| && n == Min(|log|, from + limit)
    ensures var nl := LastNewline(log[from..n]);
            if nl < 0 then NoStart(log, from, limit) else LastStart(log, from, limit, from + nl + 1)
  {
    var buf := log[from..n];
    var nl := LastNewline(buf);
    forall q: nat | from + nl + 1 < q <= from + limit ensures !LineStart(log, q) {
      if q <= |log| {
        assert log[q - 1] == buf[q - 1 - from];
      }
    }
    if nl >= 0 {
      assert log[from + nl] == buf[nl];
    }
  }

  /** A batch ends at the last line start within 1 MiB, or within 8 MiB when no line ends in the first,
      and there is none exactly when no line ends within 8 MiB. */
  lemma BatchIsLargest(log: string, from: nat)
    requires from <= |log|
    ensures BatchEnd(log, from).None? <==> NoStart(log, from, 8 * 1024 * 1024)
    ensures BatchEnd(log, from).Some? ==>
              LastStart(log, from, if NoStart(log, from, 1024 * 1024) then 8 * 1024 * 1024 else 1024 * 1024,
                        BatchEnd(log, from).value)
  {
    var n := Min(|log|, from + MAX_BATCH);
    var m := Min(|log|, from + SOFT_BATCH);
    LastNewlineIsLastStart(log, from, MAX_BATCH, n);
    LastNewlineIsLastStart(log, from, SOFT_BATCH, m);
    if from + SOFT_BATCH <= n {
      assert log[from..n][..SOFT_BATCH] == log[from..m];
    }
  }

  lemma CoverageGrows(posts: seq<Post>, p: Post, upTo: nat)
    requires Covered(posts, upTo)
    ensures Covered(posts + [p], upTo)
    ensures p.acked && p.from <= upTo ==> Covered(posts + [p], p.to)
  {
    var more := posts + [p];
    forall i: nat | i < upTo ensures Acked(more, i) {
      assert Acked(posts, i);
      var k :| 0 <= k < |posts| && posts[k].acked && posts[k].from <= i < posts[k].to;
      assert more[k] == posts[k];
    }
    if p.acked && p.from <= upTo {
      forall i: nat | i < p.to ensures Acked(more, i) {
        if i >= upTo {
          assert more[|posts|] == p;
        }
      }
    }
  }

  lemma StartIsCovered(w: World)
    requires NeverSkips(w)
    ensures LineStart(w.log, StartOffset(w.agent, w.log)) && Covered(w.agent.posts, StartOffset(w.agent, w.log))
  {
  }

  lemma TurnKeeps(w: World, io: TickIo)
    requires NeverSkips(w)
    ensures NeverSkips(Step(w, Turn(io)))
  {
    StartIsCovered(w);
    var a := w.agent;
    var from := StartOffset(a, w.log);
    if io.opens && from != |w.log| && io.readable && BatchEnd(w.log, from).Some? {
      var to := BatchEnd(w.log, from).value;
      BatchIsWholeLines(w.log, from);
      CoverageGrows(a.posts, Post(from, to, io.acked), from);
      if a.sidecar.Some? {
        CoverageGrows(a.posts, Post(from, to, io.acked), a.sidecar.value);
      }
    }
  }

  lemma StepKeeps(w: World, e: Event)
    requires NeverSkips(w)
    ensures NeverSkips(Step(w, e))
  {
    match e
    case Append(text) =>
      assert forall p: nat :: LineStart(w.log, p) ==> LineStart(w.log + text, p);
    case Turn(io) => TurnKeeps(w, io);
    case Restart =>
    case LoseSidecar =>
  }

  /** Over every interleaving of writes, ticks with failed posts and lost sidecars, and
      restarts: no line is ever skipped. */
  lemma {:induction false} EveryRunNeverSkips(log: string, es: seq<Event>)
    ensures NeverSkips(Run(World(log, Agent(false, 0, None, [])), es))
    decreases |es|
  {
    if es != [] {
      EveryRunNeverSkips(log, es[..|es| - 1]);
      StepKeeps(Run(World(log, Agent(false, 0, None, [])), es[..|es| - 1]), es[|es| - 1]);
    }
  }

  // ---------------------------------------------------------------- progress

  /** A tick posts nothing new exactly when no newline lies within 8 MiB of the offset. */
  lemma StallsExactlyWithoutNewline(log: string, offset: nat)
    requires offset <= |log|
    ensures BatchEnd(log, offset).None?
            <==> forall k :: offset <= k < Min(|log|, offset + MAX_BATCH) ==> log[k] != '\n'
  {
    var buf := log[offset..Min(|log|, offset + MAX_BATCH)];
    if BatchEnd(log, offset).None? {
      forall k | offset <= k < Min(|log|, offset + MAX_BATCH) ensures log[k] != '\n' {
        assert log[k] == buf[k - offset];
      }
    } else {
      assert log[offset + LastNewline(buf)] == buf[LastNewline(buf)];
    }
  }

  /** A line of 8 MiB or more stalls the forwarder for good: nothing appended later helps. */
  lemma LongLineStallsForever(log: string, offset: nat, more: string)
    requires offset + MAX_BATCH <= |log| && BatchEnd(log, offset).None?
    ensures BatchEnd(log + more, offset).None?
  {
    assert log[offset..offset + MAX_BATCH] == (log + more)[offset..offset + MAX_BATCH];
  }

  predicate NewlineInReach(log: string, p: nat) {
    exists k :: p <= k < Min(|log|, p + MAX_BATCH) && log[k] == '\n'
  }

  /** Every complete line from offset on, its newline included, fits in one read. */
  ghost predicate LinesFit(log: string, offset: nat) {
    forall p: nat :: offset <= p <= LastNewline(log) && LineStart(log, p) ==> NewlineInReach(log, p)
  }

  /** The offset after posting until nothing is left, every post acknowledged. */
  function Drain(log: string, offset: nat): nat
    requires LineStart(log, offset)
    decreases |log| - offset
  {
    if BatchEnd(log, offset).None? then offset
    else
      BatchIsWholeLines(log, offset);
      Drain(log, BatchEnd(log, offset).value)
  }

  lemma {:induction false} DrainsWhenLinesFit(log: string, offset: nat)
    requires LineStart(log, offset) && LinesFit(log, offset) && offset <= LastNewline(log) + 1
    ensures Drain(log, offset) == LastNewline(log) + 1
    decreases |log| - offset
  {
    StallsExactlyWithoutNewline(log, offset);
    if BatchEnd(log, offset).Some? {
      BatchIsWholeLines(log, offset);
      var to := BatchEnd(log, offset).value;
      assert log[to - 1] == '\n';
      DrainsWhenLinesFit(log, to);
    } else {
      assert !NewlineInReach(log, offset);
    }
  }

  lemma {:induction false} LongLineStopsDrain(log: string, offset: nat, p: nat)
    requires LineStart(log, offset) && offset <= p && !NewlineInReach(log, p)
    ensures Drain(log, offset) <= p
    decreases |log| - offset
  {
    if BatchEnd(log, offset).Some? {
      BatchIsWholeLines(log, offset);
      var to := BatchEnd(log, offset).value;
      assert to <= p by {
        assert log[to - 1] == '\n' && to <= Min(|log|, offset + MAX_BATCH);
      }
      LongLineStopsDrain(log, to, p);
    }
  }

  /** The forwarder delivers every complete line exactly when every one of them, its newline
      included, fits in one 8 MiB read. */
  lemma DrainsExactlyWhenLinesFit(log: string, offset: nat)
    requires LineStart(log, offset) && offset <= LastNewline(log) + 1
    ensures Drain(log, offset) == LastNewline(log) + 1 <==> LinesFit(log, offset)
  {
    if LinesFit(log, offset) {
      DrainsWhenLinesFit(log, offset);
    } else {
      var p: nat :| offset <= p <= LastNewline(log) && LineStart(log, p) && !NewlineInReach(log, p);
      LongLineStopsDrain(log, offset, p);
    }
  }

  // ---------------------------------------------------------------- turns that drain

  /** A turn where everything works. */
  const CALM := TickIo(true, true, true, true)

  function CalmTurns(a: Agent, log: string, n: nat): Agent
    decreases n
  {
    if n == 0 then a else CalmTurns(Tick(a, log, CALM), log, n - 1)
  }

  /** How many batches Drain posts. */
  function Batches(log: string, offset: nat): nat
    requires LineStart(log, offset)
    decreases |log| - offset
  {
    if BatchEnd(log, offset).None? then 0
    else
      BatchIsWholeLines(log, offset);
      1 + Batches(log, BatchEnd(log, offset).value)
  }

  /** One calm turn posts one batch, or nothing when none can be cut. */
  lemma CalmTurn(a: Agent, log: string)
    requires LineStart(log, StartOffset(a, log))
    ensures var from := StartOffset(a, log);
            StartOffset(Tick(a, log, CALM), log)
            == if BatchEnd(log, from).Some? then BatchEnd(log, from).value else from
  {
    var from := StartOffset(a, log);
    if BatchEnd(log, from).Some? {
      BatchIsWholeLines(log, from);
    }
  }

  /** Enough calm turns over a log reach Drain, and further ones stay there. */
  lemma {:induction false} CalmTurnsDrain(a: Agent, log: string, n: nat)
    requires LineStart(log, StartOffset(a, log)) && n >= Batches(log, StartOffset(a, log))
    ensures StartOffset(CalmTurns(a, log, n), log) == Drain(log, StartOffset(a, log))
    decreases n
  {
    var from := StartOffset(a, log);
    if n > 0 {
      CalmTurn(a, log);
      if BatchEnd(log, from).Some? {
        BatchIsWholeLines(log, from);
      }
      CalmTurnsDrain(Tick(a, log, CALM), log, n - 1);
    }
  }

  /** n turns where everything works, as a run. */
  function Calm(n: nat): seq<Event> {
    seq(n, _ => Turn(CALM))
  }

  lemma {:induction false} CalmTurnsSnoc(a: Agent, log: string, n: nat)
    ensures CalmTurns(a, log, n + 1) == Tick(CalmTurns(a, log, n), log, CALM)
    decreases n
  {
    if n > 0 {
      CalmTurnsSnoc(Tick(a, log, CALM), log, n - 1);
    }
  }

  lemma {:induction false} CalmTurnsAreARun(w: World, n: nat)
    ensures Run(w, Calm(n)) == World(w.log, CalmTurns(w.agent, w.log, n))
    decreases n
  {
    if n > 0 {
      CalmTurnsAreARun(w, n - 1);
      assert Calm(n)[..n - 1] == Calm(n - 1);
      CalmTurnsSnoc(w.agent, w.log, n - 1);
    }
  }

  /** How many batches are left to post. */
  ghost function BatchesLeft(w: World): nat
    requires NeverSkips(w)
  {
    StartIsCovered(w);
    Batches(w.log, StartOffset(w.agent, w.log))
  }

  /** After any run, once the log stays as it is and turns work: every complete line is delivered
      exactly when every one not yet delivered fits in one read. */
  lemma DeliversExactlyWhenLinesFit(w: World, n: nat)
    requires NeverSkips(w) && n >= BatchesLeft(w)
    ensures var a := Run(w, Calm(n)).agent;
            && (StartOffset(a, w.log) == LastNewline(w.log) + 1 <==> LinesFit(w.log, StartOffset(w.agent, w.log)))
            && Covered(a.posts, StartOffset(a, w.log))
  {
    var from := StartOffset(w.agent, w.log);
    StartIsCovered(w);
    StartIsAtMostLastLine(w.log, from);
    CalmTurnsDrain(w.agent, w.log, n);
    DrainsExactlyWhenLinesFit(w.log, from);
    CalmTurnsAreARun(w, n);
    CalmTurnsNeverSkip(w, n);
    StartIsCovered(World(w.log, CalmTurns(w.agent, w.log, n)));
  }

  lemma StartIsAtMostLastLine(log: string, p: nat)
    requires LineStart(log, p)
    ensures p <= LastNewline(log) + 1
  {
  }

  lemma {:induction false} CalmTurnsNeverSkip(w: World, n: nat)
    requires NeverSkips(w)
    ensures NeverSkips(World(w.log, CalmTurns(w.agent, w.log, n)))
    decreases n
  {
    if n > 0 {
      TurnKeeps(w, CALM);
      CalmTurnsNeverSkip(Step(w, Turn(CALM)), n - 1);
    }
  }

  // ---------------------------------------------------------------- resuming

  /** What a turn that opens the log from position `from` does: it posts nothing and keeps the saved
      position, or it posts one batch that starts there, moves past it when it is acknowledged, and
      saves the new position when the sidecar can be replaced. */
  predicate TurnsFrom(a: Agent, next: Agent, io: TickIo, from: nat) {
    var n := |a.posts|;
    && next.inited
    && (|| (next.posts == a.posts && next.offset == from && next.sidecar == a.sidecar)
        || (&& |next.posts| == n + 1 && next.posts[..n] == a.posts
            && next.posts[n].from == from && next.posts[n].acked == io.acked
            && next.offset == (if io.acked then next.posts[n].to else from)
            && next.sidecar == if io.acked && io.saved then Some(next.posts[n].to) else a.sidecar))
  }

  /** After a restart the first turn that opens the log starts at the saved position, if that is inside
      the file, and at the beginning otherwise. */
  lemma RestartResumes(w: World, io: TickIo)
    requires io.opens
    ensures var saved := w.agent.sidecar;
            TurnsFrom(w.agent, Step(Step(w, Restart), Turn(io)).agent, io,
                      if saved.Some? && 0 <= saved.value && saved.value <= |w.log| then saved.value else 0)
  {
  }

  /** While the process runs, a turn goes on where the last one stopped, whatever the sidecar holds, and
      starts again only when the file has become shorter. */
  lemma RunningGoesOn(w: World, io: TickIo)
    requires io.opens && w.agent.inited
    ensures TurnsFrom(w.agent, Step(w, Turn(io)).agent, io, if w.agent.offset <= |w.log| then w.agent.offset else 0)
  {
  }

  /** Where the acknowledged batches end. */
  function AckedTo(posts: seq<Post>): nat {
    if posts == [] then 0
    else if posts[|posts| - 1].acked then posts[|posts| - 1].to
    else AckedTo(posts[..|posts| - 1])
  }

  /** Acknowledged batches follow each other without overlapping. */
  ghost predicate Apart(posts: seq<Post>) {
    forall i, j :: 0 <= i < j < |posts| && posts[i].acked && posts[j].acked ==> posts[i].to <= posts[j].from
  }

  ghost predicate AllAckedBelow(posts: seq<Post>, n: nat) {
    forall k :: 0 <= k < |posts| && posts[k].acked ==> posts[k].to <= n
  }

  /** The offset and the saved position are both where the acknowledged batches end. */
  ghost predicate InStep(w: World) {
    var a := w.agent;
    && Apart(a.posts) && AllAckedBelow(a.posts, AckedTo(a.posts))
    && AckedTo(a.posts) <= |w.log|
    && (a.inited ==> a.offset == AckedTo(a.posts))
    && (if a.sidecar.Some? then a.sidecar.value == AckedTo(a.posts) else AckedTo(a.posts) == 0)
  }

  /** Every acknowledged batch is saved, and the sidecar is not lost. */
  predicate Saves(e: Event) {
    !e.LoseSidecar? && (e.Turn? && e.io.acked ==> e.io.saved)
  }

  lemma PostStaysApart(posts: seq<Post>, p: Post)
    requires Apart(posts) && AllAckedBelow(posts, AckedTo(posts)) && p.from == AckedTo(posts) <= p.to
    ensures var more := posts + [p];
            && Apart(more) && AckedTo(more) == (if p.acked then p.to else AckedTo(posts))
            && AllAckedBelow(more, AckedTo(more))
  {
    assert (posts + [p])[..|posts|] == posts;
  }

  lemma BatchEndsInLog(log: string, from: nat)
    requires from <= |log| && BatchEnd(log, from).Some?
    ensures from < BatchEnd(log, from).value <= |log|
  {
  }

  lemma TurnKeepsInStep(w: World, io: TickIo)
    requires InStep(w) && io.opens && (io.acked ==> io.saved)
    ensures InStep(Step(w, Turn(io)))
  {
    var from := StartOffset(w.agent, w.log);
    assert from == AckedTo(w.agent.posts);
    if from != |w.log| && io.readable && BatchEnd(w.log, from).Some? {
      var p := Post(from, BatchEnd(w.log, from).value, io.acked);
      BatchEndsInLog(w.log, from);
      PostStaysApart(w.agent.posts, p);
      assert Step(w, Turn(io)).agent == Deliver(w.agent, from, p.to, io);
    }
  }

  lemma StepKeepsInStep(w: World, e: Event)
    requires InStep(w) && Saves(e)
    ensures InStep(Step(w, e))
  {
    if e.Turn? && e.io.opens {
      TurnKeepsInStep(w, e.io);
    }
  }

  /** Over every run from a first start, with failing posts, unreadable files and restarts, in which
      acknowledged batches are saved: no byte is acknowledged twice. */
  lemma {:induction false} EveryByteIsAckedOnce(log: string, es: seq<Event>)
    requires forall k :: 0 <= k < |es| ==> Saves(es[k])
    ensures InStep(Run(World(log, Agent(false, 0, None, [])), es))
    decreases |es|
  {
    if es != [] {
      EveryByteIsAckedOnce(log, es[..|es| - 1]);
      StepKeepsInStep(Run(World(log, Agent(false, 0, None, [])), es[..|es| - 1]), es[|es| - 1]);
    }
  }
}
