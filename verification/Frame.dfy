/** One frame of the handoff journal: magic, version, length, epoch, state, JSON body, checksum. */
module Frame {
  import opened Bytes
  import opened StoredPayload

  const MAGIC: seq<byte> := [0x48, 0x52, 0x48, 0x4A]  // "HRHJ"
  const VERSION: byte := 1
  const HEADER_BYTES: nat := 18
  const CHECKSUM_BYTES: nat := 32
  const MAX_PAYLOAD_BYTES: nat := 64 * 1024
  const MAX_JOURNAL_BYTES: nat := 4 * 1024 * 1024
  const MAX_RECORDS: nat := 1024

  datatype HandoffState = Prepare | Commit | OwnedAbandon | Claim | Abort

  function Code(s: HandoffState): (b: byte)
    ensures StateOf(b) == Some(s)
  {
    match s
    case Prepare => 1
    case Commit => 2
    case OwnedAbandon => 3
    case Claim => 4
    case Abort => 5
  }

  function StateOf(b: byte): Option<HandoffState> {
    match b
    case 1 => Some(Prepare)
    case 2 => Some(Commit)
    case 3 => Some(OwnedAbandon)
    case 4 => Some(Claim)
    case 5 => Some(Abort)
    case _ => None
  }

  datatype Record = Record(epoch: u64, state: HandoffState, payload: seq<byte>, source: Lease)

  /** What the journal calls but does not define: SHA-256, the JSON parser of a frame body, and the
      payload parser (`HandoffPayload::parse`) of the lockless reader. */
  datatype World = World(
    sha: seq<byte> -> Hash,
    decode: seq<byte> -> Option<Stored>,
    parses: seq<byte> -> bool)

  /** All that is assumed of them: the parser reads back what the printer wrote. Nothing is assumed
      of the hash beyond its length. */
  ghost predicate Sound(w: World) {
    forall s: Stored :: w.decode(Encode(s)) == Some(s)
  }

  /** The assumption can be met by the printer actually in use. */
  lemma SoundIsSatisfiable(sha: seq<byte> -> Hash, parses: seq<byte> -> bool)
    ensures Sound(World(sha, StrictDecode, parses))
  {
    forall s: Stored
      ensures StrictDecode(Encode(s)) == Some(s)
    {
      EncodeRoundTrip(s);
    }
  }

  // ---- decoding: decisions on the bytes from some offset on ----

  function BodyLen(b: seq<byte>): nat
    requires |b| >= HEADER_BYTES
  {
    LeNat(b[5..9])
  }

  function FrameLen(b: seq<byte>): nat
    requires |b| >= HEADER_BYTES
  {
    HEADER_BYTES + BodyLen(b) + CHECKSUM_BYTES
  }

  /** Magic, version and a bounded length, with every byte of the frame present. */
  predicate Framed(b: seq<byte>) {
    |b| >= HEADER_BYTES && b[..4] == MAGIC && b[4] == VERSION
    && BodyLen(b) <= MAX_PAYLOAD_BYTES && |b| >= FrameLen(b)
  }

  function Body(b: seq<byte>): seq<byte>
    requires Framed(b)
  {
    b[HEADER_BYTES..HEADER_BYTES + BodyLen(b)]
  }

  predicate Checksummed(w: World, b: seq<byte>) {
    Framed(b) && StateOf(b[17]).Some?
    && w.sha(b[..HEADER_BYTES + BodyLen(b)]) == b[HEADER_BYTES + BodyLen(b)..FrameLen(b)]
  }

  predicate Binds(s: Stored, hash: Hash) { s.sessionHash == hash && s.source.pid != 0 }

  /** A complete frame of this session starts here. */
  predicate ValidFrameAt(w: World, hash: Hash, b: seq<byte>) {
    Checksummed(w, b) && w.decode(Body(b)).Some? && Binds(w.decode(Body(b)).value, hash)
  }

  function EpochOf(b: seq<byte>): u64
    requires |b| >= HEADER_BYTES
  {
    LeNat8Bound(b[9..17]);
    LeNat(b[9..17])
  }

  lemma {:induction false} LeNatBound(b: seq<byte>)
    ensures LeNat(b) < Pow256(|b|)
  {
    if |b| != 0 { LeNatBound(b[1..]); }
  }

  lemma LeNat8Bound(b: seq<byte>)
    requires |b| == 8
    ensures LeNat(b) < 0x1_0000_0000_0000_0000
  {
    LeNatBound(b);
    Pow256Words();
  }

  lemma Pow256Words()
    ensures Pow256(4) == 0x1_0000_0000 && Pow256(8) == 0x1_0000_0000_0000_0000
  {
    assert Pow256(1) == 256 && Pow256(2) == 256 * 256 && Pow256(3) == 256 * 256 * 256;
    assert Pow256(4) == 0x1_0000_0000;
    assert Pow256(5) == 256 * Pow256(4) && Pow256(6) == 256 * Pow256(5);
    assert Pow256(7) == 256 * Pow256(6) && Pow256(8) == 256 * Pow256(7);
  }

  function RecordAt(w: World, b: seq<byte>): Record
    requires Checksummed(w, b) && w.decode(Body(b)).Some?
  {
    var stored := w.decode(Body(b)).value;
    Record(EpochOf(b), StateOf(b[17]).value, stored.payload, stored.source)
  }

  // ---- encoding ----

  datatype FrameError = PidZero | PayloadTooLarge | EncodedTooLarge

  /** Which records can be written at all. */
  predicate Frameable(hash: Hash, r: Record) {
    r.source.pid != 0 && |r.payload| <= MAX_PAYLOAD_BYTES && |Encode(Stored(hash, r.source, r.payload))| <= MAX_PAYLOAD_BYTES
  }

  function Protected(hash: Hash, r: Record): seq<byte>
    requires Frameable(hash, r)
  {
    var body := Encode(Stored(hash, r.source, r.payload));
    MAGIC + [VERSION] + Le(|body|, 4) + Le(r.epoch, 8) + [Code(r.state)] + body
  }

  function FrameOf(w: World, hash: Hash, r: Record): seq<byte>
    requires Frameable(hash, r)
  {
    Protected(hash, r) + w.sha(Protected(hash, r))
  }

  /** `frame`: the encoder with its three refusals. */
  function MakeFrame(w: World, hash: Hash, r: Record): (f: Result<seq<byte>, FrameError>)
    ensures f.Ok? <==> Frameable(hash, r)
    ensures f.Ok? ==> f.value == FrameOf(w, hash, r)
  {
    if r.source.pid == 0 then Err(PidZero)
    else if |r.payload| > MAX_PAYLOAD_BYTES then Err(PayloadTooLarge)
    else if |Encode(Stored(hash, r.source, r.payload))| > MAX_PAYLOAD_BYTES then Err(EncodedTooLarge)
    else Ok(FrameOf(w, hash, r))
  }

  /** A small payload can always be written, and its frame is not much longer. */
  lemma SmallIsFrameable(w: World, hash: Hash, r: Record)
    requires r.source.pid != 0 && |r.payload| <= 16000
    ensures Frameable(hash, r)
    ensures |r.payload| + 50 <= |FrameOf(w, hash, r)| <= 4 * |r.payload| + 306
  {
    EncodeLen(Stored(hash, r.source, r.payload));
    hide Encode;
    FrameLayout(w, hash, r);
  }

  // ---- the frame's bytes, by position ----

  lemma FrameLayout(w: World, hash: Hash, r: Record)
    requires Frameable(hash, r)
    ensures var f := FrameOf(w, hash, r);
            var body := Encode(Stored(hash, r.source, r.payload));
            && |f| == HEADER_BYTES + |body| + CHECKSUM_BYTES
            && f[..4] == MAGIC && f[4] == VERSION && f[5..9] == Le(|body|, 4) && f[9..17] == Le(r.epoch, 8)
            && f[17] == Code(r.state) && f[HEADER_BYTES..HEADER_BYTES + |body|] == body
            && f[..HEADER_BYTES + |body|] == Protected(hash, r)
            && f[HEADER_BYTES + |body|..] == w.sha(Protected(hash, r))
  {
  }

  lemma FrameBodyLen(w: World, hash: Hash, r: Record)
    requires Frameable(hash, r)
    ensures |FrameOf(w, hash, r)| >= HEADER_BYTES
    ensures BodyLen(FrameOf(w, hash, r)) == |Encode(Stored(hash, r.source, r.payload))|
    ensures FrameLen(FrameOf(w, hash, r)) == |FrameOf(w, hash, r)|
  {
    FrameLayout(w, hash, r);
    Pow256Words();
    LeRoundTrip(|Encode(Stored(hash, r.source, r.payload))|, 4);
  }

  /** Trailing bytes do not change what a complete frame decodes to. */
  lemma ValidExtends(w: World, hash: Hash, b: seq<byte>, rest: seq<byte>)
    requires ValidFrameAt(w, hash, b)
    ensures ValidFrameAt(w, hash, b + rest)
    ensures FrameLen(b + rest) == FrameLen(b) && RecordAt(w, b + rest) == RecordAt(w, b)
  {
    var c := b + rest;
    assert c[5..9] == b[5..9] && c[9..17] == b[9..17] && c[..4] == b[..4];
    assert c[..HEADER_BYTES + BodyLen(b)] == b[..HEADER_BYTES + BodyLen(b)];
    assert c[HEADER_BYTES..HEADER_BYTES + BodyLen(b)] == Body(b);
    assert c[HEADER_BYTES + BodyLen(b)..FrameLen(b)] == b[HEADER_BYTES + BodyLen(b)..FrameLen(b)];
  }

  /** Encoding round trip: a written frame, whatever follows it, reads back as its own record. */
  lemma FrameRoundTrip(w: World, hash: Hash, r: Record, rest: seq<byte>)
    requires Sound(w) && Frameable(hash, r)
    ensures ValidFrameAt(w, hash, FrameOf(w, hash, r) + rest)
    ensures FrameLen(FrameOf(w, hash, r) + rest) == |FrameOf(w, hash, r)|
    ensures RecordAt(w, FrameOf(w, hash, r) + rest) == r
  {
    var f := FrameOf(w, hash, r);
    FrameLayout(w, hash, r);
    FrameBodyLen(w, hash, r);
    Pow256Words();
    LeRoundTrip(r.epoch, 8);
    assert Body(f) == Encode(Stored(hash, r.source, r.payload));
    assert ValidFrameAt(w, hash, f);
    assert RecordAt(w, f) == r;
    ValidExtends(w, hash, f, rest);
  }

  /** The first body bytes, as they sit in the frame, and the length bytes' range. */
  lemma HeadBytes(w: World, hash: Hash, r: Record)
    requires Frameable(hash, r)
    ensures var f := FrameOf(w, hash, r);
            && |f| >= HEADER_BYTES + 4 + CHECKSUM_BYTES
            && f[0] == 0x48 && f[1] == 0x52 && f[2] == 0x48 && f[3] == 0x4A && f[4] == 1
            && f[7] <= 1 && f[8] == 0
            && 1 <= f[17] <= 5
            && f[18] == 0x7B && f[19] == 0x22 && f[20] == 0x73 && f[21] == 0x65
  {
    var f := FrameOf(w, hash, r);
    var stored := Stored(hash, r.source, r.payload);
    FrameLayout(w, hash, r);
    FrameBodyLen(w, hash, r);
    BodyBytes(stored);
    assert f[..4][0] == MAGIC[0] && f[..4][1] == MAGIC[1] && f[..4][2] == MAGIC[2] && f[..4][3] == MAGIC[3];
    var body := f[HEADER_BYTES..HEADER_BYTES + |Encode(stored)|];
    assert f[18] == body[0] && f[19] == body[1] && f[20] == body[2] && f[21] == body[3];
    assert body[..4] == QUOTE_S;
    assert body[..4][0] == 0x7B && body[..4][1] == 0x22 && body[..4][2] == 0x73 && body[..4][3] == 0x65;
    LeNat4(f[5..9]);
    assert f[5..9][2] == f[7] && f[5..9][3] == f[8];
  }

  /** A frame that starts at offset `o` has its magic there and its length four bytes on. */
  lemma FramedShape(b: seq<byte>, o: nat)
    requires o <= |b| && Framed(b[o..]) && StateOf(b[o..][17]).Some?
    ensures |b| - o >= HEADER_BYTES + CHECKSUM_BYTES
    ensures b[o] == 0x48 && b[o + 1] == 0x52 && b[o + 2] == 0x48 && b[o + 3] == 0x4A && b[o + 4] == 1
    ensures 1 <= b[o + 17] <= 5
    ensures b[o + 7] <= 1 && b[o + 8] == 0
  {
    var c := b[o..];
    assert c[..4][0] == c[0] && c[..4][1] == c[1] && c[..4][2] == c[2] && c[..4][3] == c[3];
    LeNat4(c[5..9]);
    assert c[5..9][2] == c[7] && c[5..9][3] == c[8];
  }

  /** No frame of any session can start strictly inside a frame this encoder produced: inside the
      header the magic would contradict a length, state or body byte, inside the body there is no `H`,
      and inside the checksum too few bytes are left. */
  lemma NoInnerFrame(w: World, hash: Hash, r: Record, o: nat)
    requires Frameable(hash, r)
    requires 0 < o <= |FrameOf(w, hash, r)|
    ensures var inner := FrameOf(w, hash, r)[o..];
            !(Framed(inner) && StateOf(inner[17]).Some?)
  {
    var f := FrameOf(w, hash, r);
    var stored := Stored(hash, r.source, r.payload);
    var inner := f[o..];
    if Framed(inner) && StateOf(inner[17]).Some? {
      FramedShape(f, o);
      HeadBytes(w, hash, r);
      FrameLayout(w, hash, r);
      BodyBytes(stored);
      assert false;
    }
  }

  /** The same for any torn prefix of such a frame. */
  lemma NoFrameInTorn(w: World, hash: Hash, other: Hash, r: Record, k: nat, o: nat)
    requires Frameable(hash, r)
    requires 0 < o <= k <= |FrameOf(w, hash, r)|
    ensures !ValidFrameAt(w, other, FrameOf(w, hash, r)[..k][o..])
  {
    var f := FrameOf(w, hash, r);
    if ValidFrameAt(w, other, f[..k][o..]) {
      ValidExtends(w, other, f[..k][o..], f[k..]);
      assert f[..k][o..] + f[k..] == f[o..];
      NoInnerFrame(w, hash, r, o);
      assert false;
    }
  }
}
