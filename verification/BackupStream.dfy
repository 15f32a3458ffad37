/**
  The chunked authenticated backup stream, format v2 (internal/backup/crypto.go): a writer
  that seals 1 MiB chunks with their position and a final flag as associated data, and a
  reader that accepts nothing but that exact sequence.

  The AEAD (section 2 of RFC 5116) is a pair of arbitrary functions. The theorems assume the
  ideal one for one writer: opening succeeds exactly on what that writer sealed.
 */
module BackupStream {
  import opened Wrappers

  type Byte = b: int | 0 <= b < 256
  type Bytes = seq<Byte>

  const HEADER_V1: Bytes := [72, 80, 71, 66, 75, 49, 0, 0]
  const HEADER_V2: Bytes := [72, 80, 71, 66, 75, 50, 0, 0]
  const CHUNK_SIZE := 0x10_0000
  const MAX_CHUNK_CT := 0x40_0000
  const NONCE_SIZE := 12
  const TAG_SIZE := 16
  const UINT64 := 0x1_0000_0000_0000_0000

  // ---------------------------------------------------------------- big-endian integers

  /** How many values n bytes hold. */
  function Span(n: nat): (p: nat)
    ensures p > 0
  {
    if n == 0 then 1 else 0x100 * Span(n - 1)
  }

  lemma SpanOfWords()
    ensures Span(4) == 0x1_0000_0000 && Span(8) == UINT64
  {
    assert Span(2) == 0x1_0000;
    assert Span(4) == 0x100 * (0x100 * Span(2));
    assert Span(6) == 0x100 * (0x100 * Span(4));
    assert Span(8) == 0x100 * (0x100 * Span(6));
  }

  /** The last n bytes of v, the highest first. */
  function PutBytes(v: nat, n: nat): (b: Bytes)
    ensures |b| == n
    decreases n
  {
    if n == 0 then [] else PutBytes(v / 0x100, n - 1) + [v % 0x100]
  }

  function GetBytes(b: Bytes): (v: nat)
    ensures v < Span(|b|)
  {
    if b == [] then 0 else GetBytes(b[..|b| - 1]) * 0x100 + b[|b| - 1]
  }

  lemma {:induction false} BytesReadBack(v: nat, n: nat)
    requires v < Span(n)
    ensures GetBytes(PutBytes(v, n)) == v
    decreases n
  {
    if n > 0 {
      BytesReadBack(v / 0x100, n - 1);
      assert PutBytes(v, n)[..n - 1] == PutBytes(v / 0x100, n - 1);
    }
  }

  lemma LastByte(q: nat, last: Byte)
    ensures (q * 0x100 + last) / 0x100 == q && (q * 0x100 + last) % 0x100 == last
  {
  }

  lemma {:induction false} BytesWriteBack(b: Bytes)
    ensures PutBytes(GetBytes(b), |b|) == b
    decreases |b|
  {
    if b != [] {
      var front, last := b[..|b| - 1], b[|b| - 1];
      BytesWriteBack(front);
      LastByte(GetBytes(front), last);
      assert b == front + [last];
    }
  }

  function PutUint32(v: nat): (b: Bytes)
    requires v < 0x1_0000_0000
    ensures |b| == 4
  {
    PutBytes(v, 4)
  }

  function GetUint32(b: Bytes): (v: nat)
    requires |b| == 4
    ensures v < 0x1_0000_0000
  {
    SpanOfWords();
    GetBytes(b)
  }

  // ---------------------------------------------------------------- sealing

  /** Associated data: the chunk's position and whether it is the last. */
  datatype Aad = Aad(index: nat, final: bool)

  /** Its nine bytes: the index as a big-endian uint64, then the flag. */
  function ChunkAad(a: Aad): (aad: Bytes)
    requires a.index < UINT64
    ensures |aad| == 9
  {
    PutBytes(a.index, 8) + [if a.final then 1 else 0]
  }

  /** The encoding loses nothing, so the AEAD below may take the two components themselves. */
  lemma ChunkAadIsInjective(a: Aad, b: Aad)
    requires a.index < UINT64 && b.index < UINT64 && ChunkAad(a) == ChunkAad(b)
    ensures a == b
  {
    var x, y := ChunkAad(a), ChunkAad(b);
    assert x[..8] == PutBytes(a.index, 8) && y[..8] == PutBytes(b.index, 8);
    SpanOfWords();
    BytesReadBack(a.index, 8);
    BytesReadBack(b.index, 8);
    assert x[8] == y[8];
  }

  /** How lengths are put on the wire. */
  datatype Wire = Wire(put: nat -> Bytes, get: Bytes -> nat)

  const BIG_ENDIAN := Wire(
    v => if v < 0x1_0000_0000 then PutUint32(v) else [],
    b => if |b| == 4 then GetUint32(b) else 0)

  /** Four bytes that decode to what was encoded, and nothing else does. */
  ghost predicate LengthCodec(w: Wire) {
    && (forall v: nat :: v < 0x1_0000_0000 ==> |w.put(v)| == 4 && w.get(w.put(v)) == v)
    && (forall b: Bytes :: |b| == 4 ==> w.get(b) < 0x1_0000_0000 && w.put(w.get(b)) == b)
  }

  lemma BigEndianIsLengthCodec()
    ensures LengthCodec(BIG_ENDIAN)
  {
    SpanOfWords();
    forall v: nat | v < 0x1_0000_0000
      ensures |BIG_ENDIAN.put(v)| == 4 && BIG_ENDIAN.get(BIG_ENDIAN.put(v)) == v
    {
      BytesReadBack(v, 4);
    }
    forall b: Bytes | |b| == 4
      ensures BIG_ENDIAN.get(b) < 0x1_0000_0000 && BIG_ENDIAN.put(BIG_ENDIAN.get(b)) == b
    {
      BytesWriteBack(b);
    }
  }

  datatype Aead = Aead(seal: (Bytes, Bytes, Aad) -> Bytes, open: (Bytes, Bytes, Aad) -> Option<Bytes>, wire: Wire)

  /** A writer's key and the nonces its random source yields, one per chunk. */
  datatype Sealer = Sealer(aead: Aead, nonce: nat -> Bytes)

  /** A count as the uint64 counter holds it, and that counter's increment. */
  function Wrap(n: nat): (w: nat)
    ensures w < UINT64
  {
    if n < UINT64 then n else Wrap(n - UINT64)
  }

  function Next(idx: nat): (w: nat)
    requires idx < UINT64
    ensures w < UINT64
  {
    if idx == UINT64 - 1 then 0 else idx + 1
  }

  lemma {:induction false} WrapNext(n: nat)
    ensures Wrap(n + 1) == Next(Wrap(n))
  {
    if n >= UINT64 {
      WrapNext(n - UINT64);
    } else if n == UINT64 - 1 {
      assert Wrap(n + 1) == Wrap(0);
    }
  }

  /** The ciphertext of the i-th chunk; the counter bound into it is a uint64. */
  function SealChunk(s: Sealer, i: nat, final: bool, chunk: Bytes): Bytes {
    s.aead.seal(s.nonce(i), chunk, Aad(Wrap(i), final))
  }

  /** One chunk on the wire: 32-bit length, nonce, ciphertext. */
  function Frame(s: Sealer, i: nat, final: bool, chunk: Bytes): Bytes {
    var ct := SealChunk(s, i, final, chunk);
    s.aead.wire.put(|ct| % 0x1_0000_0000) + s.nonce(i) + ct
  }

  // ---------------------------------------------------------------- the format

  /** The plaintext cut into full chunks and a last one that is short, possibly empty. */
  function Chunks(pt: Bytes): (cs: seq<Bytes>)
    ensures |cs| >= 1
    ensures forall i :: 0 <= i < |cs| ==> |cs[i]| <= CHUNK_SIZE
    decreases |pt|
  {
    if |pt| < CHUNK_SIZE then [pt] else [pt[..CHUNK_SIZE]] + Chunks(pt[CHUNK_SIZE..])
  }

  /** There are floor(n / 1 MiB) + 1 of them, all full but the last. */
  lemma {:induction false} ChunkCount(pt: Bytes)
    ensures |Chunks(pt)| == |pt| / (1024 * 1024) + 1
    ensures forall i :: 0 <= i < |Chunks(pt)| - 1 ==> |Chunks(pt)[i]| == 1024 * 1024
    ensures |Chunks(pt)[|Chunks(pt)| - 1]| == |pt| % (1024 * 1024)
    decreases |pt|
  {
    if |pt| >= CHUNK_SIZE {
      ChunkCount(pt[CHUNK_SIZE..]);
    }
  }

  /** The plaintext of the chunks from i on. */
  function PlainFrom(cs: seq<Bytes>, i: nat): Bytes
    requires i <= |cs|
    decreases |cs| - i
  {
    if i == |cs| then [] else cs[i] + PlainFrom(cs, i + 1)
  }

  /** The frames of the chunks from i on; only the last chunk is marked final. */
  function FramesFrom(s: Sealer, cs: seq<Bytes>, i: nat): Bytes
    requires i <= |cs|
    decreases |cs| - i
  {
    if i == |cs| then [] else Frame(s, i, i == |cs| - 1, cs[i]) + FramesFrom(s, cs, i + 1)
  }

  function Encode(s: Sealer, pt: Bytes): Bytes {
    HEADER_V2 + FramesFrom(s, Chunks(pt), 0)
  }

  lemma {:induction false} ChunksRebuild(pt: Bytes)
    ensures PlainFrom(Chunks(pt), 0) == pt
    decreases |pt|
  {
    var cs := Chunks(pt);
    if |pt| < CHUNK_SIZE {
      assert PlainFrom(cs, 1) == [];
    } else {
      ChunksRebuild(pt[CHUNK_SIZE..]);
      PlainFromShift([pt[..CHUNK_SIZE]], Chunks(pt[CHUNK_SIZE..]), 0);
      assert pt == pt[..CHUNK_SIZE] + pt[CHUNK_SIZE..];
    }
  }

  lemma {:induction false} PlainFromShift(a: seq<Bytes>, b: seq<Bytes>, i: nat)
    requires i <= |b|
    ensures PlainFrom(a + b, |a| + i) == PlainFrom(b, i)
    decreases |b| - i
  {
    if i < |b| {
      PlainFromShift(a, b, i + 1);
    }
  }

  // ---------------------------------------------------------------- the reader

  datatype Decoded = Decoded(out: Bytes, ok: bool)

  function Prepend(pt: Bytes, d: Decoded): Decoded {
    Decoded(pt + d.out, d.ok)
  }

  /** What streamDecryptV2 writes and returns on the bytes after the header. */
  function Decode(a: Aead, r: Bytes, idx: nat, sawFinal: bool): Decoded
    requires idx < UINT64
    decreases |r|
  {
    if r == [] then Decoded([], sawFinal)
    else if |r| < 4 then Decoded([], false)
    else
      var n := a.wire.get(r[..4]);
      if n > MAX_CHUNK_CT || |r| < 4 + NONCE_SIZE + n || sawFinal then Decoded([], false)
      else
        var nonce, ct, rest := r[4..4 + NONCE_SIZE], r[4 + NONCE_SIZE..4 + NONCE_SIZE + n], r[4 + NONCE_SIZE + n..];
        var next := Next(idx);
        match a.open(nonce, ct, Aad(idx, true))
        case Some(pt) => Prepend(pt, Decode(a, rest, next, true))
        case None =>
          match a.open(nonce, ct, Aad(idx, false))
          case Some(pt) => Prepend(pt, Decode(a, rest, next, false))
          case None => Decoded([], false)
  }

  /** streamDecryptV2: reads frame by frame, writing each authenticated chunk out. */
  method StreamDecryptV2(a: Aead, r: Bytes) returns (out: Bytes, ok: bool)
    ensures Decoded(out, ok) == Decode(a, r, 0, false)
  {
    out := [];
    var pos, idx, sawFinal := 0, 0, false;
    while true
      invariant 0 <= pos <= |r| && 0 <= idx < UINT64
      invariant Prepend(out, Decode(a, r[pos..], idx, sawFinal)) == Decode(a, r, 0, false)
      decreases |r| - pos
    {
      ghost var left := r[pos..];
      if pos == |r| {
        return out, sawFinal;
      }
      if |r| - pos < 4 {
        return out, false;
      }
      assert left[..4] == r[pos..pos + 4];
      var n := a.wire.get(r[pos..pos + 4]);
      if n > MAX_CHUNK_CT {
        return out, false;
      }
      if |r| - pos < 4 + NONCE_SIZE {
        return out, false;
      }
      var nonce := r[pos + 4..pos + 4 + NONCE_SIZE];
      assert left[4..4 + NONCE_SIZE] == nonce;
      if |r| - pos < 4 + NONCE_SIZE + n {
        return out, false;
      }
      var ct := r[pos + 4 + NONCE_SIZE..pos + 4 + NONCE_SIZE + n];
      assert left[4 + NONCE_SIZE..4 + NONCE_SIZE + n] == ct;
      if sawFinal {
        return out, false;
      }
      var pt := a.open(nonce, ct, Aad(idx, true));
      if pt.Some? {
        sawFinal := true;
      } else {
        pt := a.open(nonce, ct, Aad(idx, false));
        if pt.None? {
          return out, false;
        }
      }
      assert left[4 + NONCE_SIZE + n..] == r[pos + 4 + NONCE_SIZE + n..];
      assert forall tail: Bytes :: out + (pt.value + tail) == (out + pt.value) + tail;
      out := out + pt.value;
      idx := Next(idx);
      pos := pos + 4 + NONCE_SIZE + n;
    }
  }

  /** r starts with the letters of name and two zero bytes. */
  predicate Magic(r: Bytes, name: string)
    requires |r| >= 8 && |name| == 6
  {
    (forall i :: 0 <= i < 6 ==> r[i] == name[i] as int) && r[6] == 0 && r[7] == 0
  }

  lemma HeadersAreMagic(r: Bytes)
    requires |r| >= 8
    ensures r[..8] == HEADER_V1 <==> Magic(r, "HPGBK1")
    ensures r[..8] == HEADER_V2 <==> Magic(r, "HPGBK2")
  {
    var h1, h2 := HEADER_V1, HEADER_V2;
    assert forall i :: 0 <= i < 6 ==> h1[i] == "HPGBK1"[i] as int;
    assert forall i :: 0 <= i < 6 ==> h2[i] == "HPGBK2"[i] as int;
    if Magic(r, "HPGBK1") {
      assert forall i :: 0 <= i < 8 ==> r[i] == h1[i];
    }
    if Magic(r, "HPGBK2") {
      assert forall i :: 0 <= i < 8 ==> r[i] == h2[i];
    }
    if r[..8] == h1 {
      assert forall i :: 0 <= i < 8 ==> r[i] == r[..8][i];
    }
    if r[..8] == h2 {
      assert forall i :: 0 <= i < 8 ==> r[i] == r[..8][i];
    }
  }

  datatype Outcome = BadKey | BadHeader | LegacyV1 | V2(decoded: Decoded)

  /** StreamDecrypt up to its dispatch on the header magic; the legacy v1 reader is not
      modelled. */
  method StreamDecrypt(a: Aead, keyLength: nat, r: Bytes) returns (o: Outcome)
    ensures o.V2? <==> keyLength == 32 && |r| >= 8 && Magic(r, "HPGBK2")
    ensures o.V2? ==> o.decoded == Decode(a, r[8..], 0, false)
    ensures o.LegacyV1? <==> keyLength == 32 && |r| >= 8 && Magic(r, "HPGBK1")
    ensures o.BadKey? <==> keyLength != 32
  {
    if keyLength != 32 {
      return BadKey;
    }
    if |r| < 8 {
      return BadHeader;
    }
    var header := r[..8];
    HeadersAreMagic(r);
    if header == HEADER_V2 {
      var out, ok := StreamDecryptV2(a, r[8..]);
      return V2(Decoded(out, ok));
    } else if header == HEADER_V1 {
      return LegacyV1;
    }
    return BadHeader;
  }

  // ---------------------------------------------------------------- ideal AEAD

  /** The ciphertext the writer sealed at the position, and with the flag, that aad names. */
  ghost predicate Genuine(s: Sealer, cs: seq<Bytes>, nonce: Bytes, ct: Bytes, aad: Aad) {
    && aad.index < |cs|
    && aad.final == (aad.index == |cs| - 1)
    && nonce == s.nonce(aad.index)
    && ct == s.aead.seal(nonce, cs[aad.index], aad)
  }

  /** Nothing was sealed under this key but the chunks cs, and opening succeeds on exactly
      those ciphertexts under exactly their nonce and associated data. */
  ghost predicate Ideal(s: Sealer, cs: seq<Bytes>) {
    && LengthCodec(s.aead.wire)
    && (forall i: nat :: |s.nonce(i)| == NONCE_SIZE)
    && (forall nonce: Bytes, pt: Bytes, aad: Aad :: |s.aead.seal(nonce, pt, aad)| == |pt| + TAG_SIZE)
    && (forall nonce: Bytes, ct: Bytes, aad: Aad {:trigger Genuine(s, cs, nonce, ct, aad)} ::
          s.aead.open(nonce, ct, aad) == if Genuine(s, cs, nonce, ct, aad) then Some(cs[aad.index]) else None)
  }

  /** Chunks a v2 writer produces: at most 1 MiB each, and few enough for the uint64 counter. */
  ghost predicate WriterChunks(cs: seq<Bytes>) {
    0 < |cs| <= UINT64 && forall i :: 0 <= i < |cs| ==> |cs[i]| <= CHUNK_SIZE
  }

  /** The reader's view of the i-th frame, whatever follows it. */
  lemma FrameReads(s: Sealer, cs: seq<Bytes>, i: nat, rest: Bytes)
    requires Ideal(s, cs) && WriterChunks(cs) && i < |cs|
    ensures var last := i == |cs| - 1;
            Decode(s.aead, Frame(s, i, last, cs[i]) + rest, i, false)
            == Prepend(cs[i], Decode(s.aead, rest, Next(i), last))
  {
    var last := i == |cs| - 1;
    var ct := SealChunk(s, i, last, cs[i]);
    var r := Frame(s, i, last, cs[i]) + rest;
    assert r[..4] == s.aead.wire.put(|ct|);
    assert r[4..16] == s.nonce(i);
    assert r[16..16 + |ct|] == ct;
    assert r[16 + |ct|..] == rest;
    assert Genuine(s, cs, s.nonce(i), ct, Aad(i, last));
    assert Genuine(s, cs, s.nonce(i), ct, Aad(i, true)) == last;
  }

  /** One frame read, the rest still to come: at the end of the last chunk, nothing is. */
  lemma ReadsOneFrame(s: Sealer, cs: seq<Bytes>, i: nat) returns (d: Decoded)
    requires Ideal(s, cs) && WriterChunks(cs) && i < |cs|
    ensures Decode(s.aead, FramesFrom(s, cs, i), i, false) == Prepend(cs[i], d)
    ensures i == |cs| - 1 ==> d == Decoded([], true)
    ensures i < |cs| - 1 ==> d == Decode(s.aead, FramesFrom(s, cs, i + 1), i + 1, false)
  {
    var rest := FramesFrom(s, cs, i + 1);
    d := Decode(s.aead, rest, Next(i), i == |cs| - 1);
    FrameReads(s, cs, i, rest);
  }

  ghost function ReadsFrom(s: Sealer, cs: seq<Bytes>): (ds: seq<Decoded>)
    requires WriterChunks(cs)
    ensures |ds| == |cs| + 1 && ds[|cs|] == Decoded([], true)
    ensures forall i :: 0 <= i < |cs| ==> ds[i] == Decode(s.aead, FramesFrom(s, cs, i), i, false)
  {
    seq(|cs|, i requires 0 <= i < |cs| => Decode(s.aead, FramesFrom(s, cs, i), i, false)) + [Decoded([], true)]
  }

  lemma {:induction false} ChunkByChunk(cs: seq<Bytes>, ds: seq<Decoded>, i: nat)
    requires |ds| == |cs| + 1 && ds[|cs|] == Decoded([], true) && i <= |cs|
    requires forall k :: 0 <= k < |cs| ==> ds[k] == Prepend(cs[k], ds[k + 1])
    ensures ds[i] == Decoded(PlainFrom(cs, i), true)
    decreases |cs| - i
  {
    if i < |cs| {
      ChunkByChunk(cs, ds, i + 1);
    }
  }

  /** Decrypting what was written gives the plaintext back. */
  lemma RoundTrip(s: Sealer, pt: Bytes)
    requires |Chunks(pt)| <= UINT64 && Ideal(s, Chunks(pt))
    ensures HEADER_V2 <= Encode(s, pt)
    ensures Decode(s.aead, Encode(s, pt)[8..], 0, false) == Decoded(pt, true)
  {
    assert Encode(s, pt)[8..] == FramesFrom(s, Chunks(pt), 0);
    var cs := Chunks(pt);
    var ds := ReadsFrom(s, cs);
    forall k | 0 <= k < |cs| ensures ds[k] == Prepend(cs[k], ds[k + 1]) {
      var d := ReadsOneFrame(s, cs, k);
    }
    ChunkByChunk(cs, ds, 0);
    ChunksRebuild(pt);
  }

  /** Every emitted frame fits the reader: its length is not truncated to 32 bits and is under
      the reader's cap. */
  lemma FramesFitReader(s: Sealer, cs: seq<Bytes>, i: nat, final: bool)
    requires Ideal(s, cs) && WriterChunks(cs) && i < |cs|
    ensures |SealChunk(s, i, final, cs[i])| <= 1024 * 1024 + 16 <= MAX_CHUNK_CT == 4 * 1024 * 1024 < 0x1_0000_0000
    ensures s.aead.wire.get(Frame(s, i, final, cs[i])[..4]) == |SealChunk(s, i, final, cs[i])|
  {
    var ct := SealChunk(s, i, final, cs[i]);
    assert |ct| % 0x1_0000_0000 == |ct|;
    assert Frame(s, i, final, cs[i])[..4] == s.aead.wire.put(|ct|);
  }

  // ---------------------------------------------------------------- tamper evidence

  /** A frame the reader opens at position i is byte for byte the writer's i-th frame. */
  lemma AcceptedFrameIsGenuine(s: Sealer, cs: seq<Bytes>, i: nat, r: Bytes, n: nat, final: bool)
    requires Ideal(s, cs) && WriterChunks(cs) && i < |cs|
    requires |r| >= 16 + n && n == s.aead.wire.get(r[..4])
    requires s.aead.open(r[4..16], r[16..16 + n], Aad(i, final)).Some?
    ensures final == (i == |cs| - 1)
    ensures s.aead.open(r[4..16], r[16..16 + n], Aad(i, final)) == Some(cs[i])
    ensures r == Frame(s, i, final, cs[i]) + r[16 + n..]
  {
    assert Genuine(s, cs, r[4..16], r[16..16 + n], Aad(i, final));
    assert r == r[..4] + r[4..16] + r[16..16 + n] + r[16 + n..];
  }

  /** Whatever comes next at position i, the reader either stops without output or has read
      the writer's i-th frame. */
  lemma StopsOrReadsFrame(s: Sealer, cs: seq<Bytes>, i: nat, r: Bytes) returns (rest: Bytes)
    requires Ideal(s, cs) && WriterChunks(cs) && i < |cs|
    ensures || Decode(s.aead, r, i, false) == Decoded([], false)
            || (r == Frame(s, i, i == |cs| - 1, cs[i]) + rest && |rest| < |r|)
  {
    rest := [];
    if |r| >= 4 {
      var n := s.aead.wire.get(r[..4]);
      if n <= MAX_CHUNK_CT && |r| >= 16 + n {
        rest := r[16 + n..];
        if s.aead.open(r[4..16], r[16..16 + n], Aad(i, true)).Some? {
          AcceptedFrameIsGenuine(s, cs, i, r, n, true);
        } else if s.aead.open(r[4..16], r[16..16 + n], Aad(i, false)).Some? {
          AcceptedFrameIsGenuine(s, cs, i, r, n, false);
        }
      }
    }
  }

  ghost predicate OnlyWriterFrom(s: Sealer, cs: seq<Bytes>, i: nat, r: Bytes, d: Decoded) {
    && i <= |cs|
    && d.out <= PlainFrom(cs, i)
    && (d.ok ==> r == FramesFrom(s, cs, i))
  }

  lemma OnlyWriterStep(s: Sealer, cs: seq<Bytes>, i: nat, frame: Bytes, rest: Bytes, d: Decoded)
    requires i < |cs| && OnlyWriterFrom(s, cs, i + 1, rest, d) && frame == Frame(s, i, i == |cs| - 1, cs[i])
    ensures OnlyWriterFrom(s, cs, i, frame + rest, Prepend(cs[i], d))
  {
    assert FramesFrom(s, cs, i) == frame + FramesFrom(s, cs, i + 1);
    assert PlainFrom(cs, i) == cs[i] + PlainFrom(cs, i + 1);
  }

  lemma AfterFinal(s: Sealer, cs: seq<Bytes>, r: Bytes, idx: nat)
    requires idx < UINT64
    ensures OnlyWriterFrom(s, cs, |cs|, r, Decode(s.aead, r, idx, true))
  {
    assert Decode(s.aead, r, idx, true) == Decoded([], r == []);
  }

  lemma {:induction false} AcceptsOnlyTheWriterFrom(s: Sealer, cs: seq<Bytes>, i: nat, r: Bytes, d: Decoded)
    requires Ideal(s, cs) && WriterChunks(cs) && i < |cs|
    requires d == Decode(s.aead, r, i, false)
    ensures OnlyWriterFrom(s, cs, i, r, d)
    decreases |r|
  {
    var rest := StopsOrReadsFrame(s, cs, i, r);
    if d != Decoded([], false) {
      var d' := Decode(s.aead, rest, Next(i), i == |cs| - 1);
      assert d == Prepend(cs[i], d') by {
        FrameReads(s, cs, i, rest);
      }
      if i < |cs| - 1 {
        AcceptsOnlyTheWriterFrom(s, cs, i + 1, rest, d');
      } else {
        AfterFinal(s, cs, rest, Next(i));
      }
      OnlyWriterStep(s, cs, i, Frame(s, i, i == |cs| - 1, cs[i]), rest, d');
    }
  }

  /** For every byte string whatsoever after a v2 header: the reader accepts it exactly when it
      is the writer's whole stream, and whatever it wrote out before rejecting is a prefix of
      the plaintext. So truncation at any byte, a reordered, duplicated, dropped or appended
      chunk, and any edit are all rejected. */
  lemma AcceptsExactlyTheWriter(s: Sealer, pt: Bytes, r: Bytes)
    requires |Chunks(pt)| <= UINT64 && Ideal(s, Chunks(pt))
    requires HEADER_V2 <= r
    ensures Decode(s.aead, r[8..], 0, false).ok <==> r == Encode(s, pt)
    ensures Decode(s.aead, r[8..], 0, false).out <= pt
  {
    AcceptsOnlyTheWriterFrom(s, Chunks(pt), 0, r[8..], Decode(s.aead, r[8..], 0, false));
    ChunksRebuild(pt);
    RoundTrip(s, pt);
    assert r == HEADER_V2 + r[8..];
  }

  // ---------------------------------------------------------------- the writer

  /** The frames of full chunks, none of them final: what is on the wire before Close. */
  function OpenFrames(s: Sealer, full: seq<Bytes>): Bytes {
    if full == [] then []
    else OpenFrames(s, full[..|full| - 1]) + Frame(s, |full| - 1, false, full[|full| - 1])
  }

  lemma OpenFramesAppend(s: Sealer, full: seq<Bytes>, chunk: Bytes)
    ensures OpenFrames(s, full + [chunk]) == OpenFrames(s, full) + Frame(s, |full|, false, chunk)
  {
    assert (full + [chunk])[..|full|] == full;
  }

  lemma {:induction false} OpenFramesThenFinal(s: Sealer, full: seq<Bytes>, last: Bytes, k: nat)
    requires k <= |full|
    ensures FramesFrom(s, full + [last], 0) == OpenFrames(s, full[..k]) + FramesFrom(s, full + [last], k)
    decreases k
  {
    if k > 0 {
      OpenFramesThenFinal(s, full, last, k - 1);
      assert full[..k][..k - 1] == full[..k - 1];
      assert (full + [last])[k - 1] == full[k - 1];
    }
  }

  lemma {:induction false} ChunksOfFull(full: seq<Bytes>, last: Bytes)
    requires forall i :: 0 <= i < |full| ==> |full[i]| == CHUNK_SIZE
    requires |last| < CHUNK_SIZE
    ensures Chunks(PlainFrom(full, 0) + last) == full + [last]
    decreases |full|
  {
    if full == [] {
      assert PlainFrom(full, 0) + last == last;
    } else {
      ChunksOfFull(full[1..], last);
      assert full == [full[0]] + full[1..];
      PlainFromShift([full[0]], full[1..], 0);
      var pt := PlainFrom(full, 0) + last;
      assert pt == full[0] + (PlainFrom(full[1..], 0) + last);
      assert pt[..CHUNK_SIZE] == full[0] && pt[CHUNK_SIZE..] == PlainFrom(full[1..], 0) + last;
    }
  }

  lemma {:induction false} PlainFromAppend(full: seq<Bytes>, chunk: Bytes, i: nat)
    requires i <= |full|
    ensures PlainFrom(full + [chunk], i) == PlainFrom(full, i) + chunk
    decreases |full| - i
  {
    if i == |full| {
      assert PlainFrom(full + [chunk], i + 1) == [];
    } else {
      PlainFromAppend(full, chunk, i + 1);
    }
  }

  lemma ClosedStream(s: Sealer, full: seq<Bytes>, last: Bytes)
    requires forall i :: 0 <= i < |full| ==> |full[i]| == CHUNK_SIZE
    requires |last| < CHUNK_SIZE
    ensures Encode(s, PlainFrom(full, 0) + last) == HEADER_V2 + OpenFrames(s, full) + Frame(s, |full|, true, last)
  {
    ChunksOfFull(full, last);
    OpenFramesThenFinal(s, full, last, |full|);
    assert full[..|full|] == full;
    assert FramesFrom(s, full + [last], |full| + 1) == [];
  }

  lemma PrefixGrows(a: Bytes, p: Bytes, i: nat, j: nat)
    requires i <= j <= |p|
    ensures a + p[..j] == a + p[..i] + p[i..j]
  {
    assert p[..j] == p[..i] + p[i..j];
  }

  class StreamEncryptWriter {
    const s: Sealer
    var sink: Bytes
    var buf: Bytes
    var idx: nat
    var written: bool
    var closed: bool
    /** How many nonces were drawn from the random source. */
    var draws: nat
    /** The chunks flushed so far, and everything ever written. */
    ghost var full: seq<Bytes>
    ghost var plain: Bytes

    ghost predicate Open()
      reads this
    {
      && !closed && draws == |full| && idx == Wrap(draws) && |buf| < CHUNK_SIZE
      && (forall i :: 0 <= i < |full| ==> |full[i]| == CHUNK_SIZE)
      && plain == PlainFrom(full, 0) + buf
      && (!written ==> full == [] && buf == [])
      && sink == (if written then HEADER_V2 else []) + OpenFrames(s, full)
    }

    constructor (s: Sealer)
      ensures Open() && plain == [] && this.s == s
    {
      this.s := s;
      sink, buf, idx, written, closed, draws, full, plain := [], [], 0, false, false, 0, [], [];
    }

    method FlushChunk(final: bool)
      requires idx == Wrap(draws)
      modifies this`sink, this`idx, this`draws, this`buf
      ensures buf == []
      ensures old(buf) == [] && !final ==> sink == old(sink) && idx == old(idx) && draws == old(draws)
      ensures old(buf) != [] || final ==>
                && sink == old(sink) + Frame(s, old(draws), final, old(buf))
                && draws == old(draws) + 1 && idx == Wrap(draws)
    {
      if buf == [] && !final {
        return;
      }
      var nonce := s.nonce(draws);
      WrapNext(draws);
      draws := draws + 1;
      var ct := s.aead.seal(nonce, buf, Aad(idx, final));
      idx := Next(idx);
      sink := sink + s.aead.wire.put(|ct| % 0x1_0000_0000);
      sink := sink + nonce;
      sink := sink + ct;
      buf := [];
    }

    /** Write: however the plaintext is split over calls, the same stream is left behind. */
    method Write(p: Bytes) returns (r: Result<nat, string>)
      requires closed || Open()
      modifies this
      ensures old(closed) ==> r.Err? && unchanged(this)
      ensures !old(closed) ==> Open() && r == Ok(|p|) && plain == old(plain) + p
    {
      if closed {
        return Err("write on closed stream");
      }
      if !written {
        WriteHeader();
      }
      var total := 0;
      while total < |p|
        invariant 0 <= total <= |p| && Open() && written
        invariant plain == old(plain) + p[..total]
      {
        var room := CHUNK_SIZE - |buf|;
        var take := if |p| - total > room then room else |p| - total;
        var piece := p[total..total + take];
        Take(piece);
        PrefixGrows(old(plain), p, total, total + take);
        total := total + take;
      }
      assert p[..total] == p;
      return Ok(total);
    }

    method WriteHeader()
      requires Open() && !written
      modifies this`sink, this`written
      ensures Open() && written
    {
      sink := sink + HEADER_V2;
      written := true;
      assert sink == HEADER_V2 + OpenFrames(s, full);
    }

    /** One turn of Write's loop: buffer a piece that fits, and flush a full buffer. */
    method Take(piece: Bytes)
      requires Open() && written && |buf| + |piece| <= CHUNK_SIZE
      modifies this
      ensures Open() && written && plain == old(plain) + piece
    {
      assert plain + piece == PlainFrom(full, 0) + (buf + piece);
      buf := buf + piece;
      plain := plain + piece;
      if |buf| == CHUNK_SIZE {
        FlushFull();
      }
    }

    /** A full buffer goes out as a chunk that is not final: Close emits the true final one. */
    method FlushFull()
      requires !closed && written && draws == |full| && idx == Wrap(draws) && |buf| == CHUNK_SIZE
      requires forall i :: 0 <= i < |full| ==> |full[i]| == CHUNK_SIZE
      requires plain == PlainFrom(full, 0) + buf && sink == HEADER_V2 + OpenFrames(s, full)
      modifies this`sink, this`idx, this`draws, this`buf, this`full
      ensures Open()
    {
      PlainFromAppend(full, buf, 0);
      OpenFramesAppend(s, full, buf);
      full := full + [buf];
      FlushChunk(false);
      assert plain == PlainFrom(full, 0) + buf;
      assert sink == HEADER_V2 + OpenFrames(s, full);
    }

    /** Close: emits the final chunk, so that the sink holds the whole encoded stream. */
    method Close()
      requires closed || Open()
      modifies this
      ensures closed && plain == old(plain)
      ensures !old(closed) ==> sink == Encode(s, plain)
      ensures old(closed) ==> unchanged(this)
    {
      if closed {
        return;
      }
      closed := true;
      if !written {
        sink := sink + HEADER_V2;
      }
      ClosedStream(s, full, buf);
      // The stream must end in a final chunk, so one goes out even with nothing left to say.
      FlushChunk(true);
    }
  }

  /** Write calls one after the other. */
  method WriteParts(w: StreamEncryptWriter, parts: seq<Bytes>)
    requires w.Open() && w.plain == []
    modifies w
    ensures w.Open() && w.plain == PlainFrom(parts, 0)
  {
    var k := 0;
    while k < |parts|
      invariant 0 <= k <= |parts| && w.Open()
      invariant w.plain == PlainFrom(parts[..k], 0)
    {
      var r := w.Write(parts[k]);
      PlainFromAppend(parts[..k], parts[k], 0);
      assert parts[..k + 1] == parts[..k] + [parts[k]];
      k := k + 1;
    }
    assert parts[..k] == parts;
  }

  /** The whole pipeline: however a plaintext is split over Write calls, closing the writer and
      decrypting its sink gives the plaintext back. */
  method WriteCloseDecrypt(s: Sealer, parts: seq<Bytes>) returns (out: Bytes, ok: bool)
    requires |Chunks(PlainFrom(parts, 0))| <= UINT64 && Ideal(s, Chunks(PlainFrom(parts, 0)))
    ensures ok && out == PlainFrom(parts, 0)
  {
    var w := new StreamEncryptWriter(s);
    WriteParts(w, parts);
    w.Close();
    RoundTrip(s, w.plain);
    var o := StreamDecrypt(s.aead, 32, w.sink);
    out, ok := o.decoded.out, o.decoded.ok;
  }
}
