/**
The chunked KV handoff (internal/kvhandoff/kv_handoff.go:22-143): a manifest, then the blob
in order. SHA-256 is any function to 32 bytes.
*/
module KvHandoff {
  import opened Seqs
  import opened Bytes
  import opened Framing
  import opened Transport

  const STAGE_MANIFEST: uint16 := 0xFFFE
  const STAGE_CHUNK: uint16 := 0xFFFD
  const DEFAULT_CHUNK: int := 0x40_0000
  const MANIFEST_LEN: int := 44

  type Digest = d: seq<byte> | |d| == 32 witness seq(32, i => 0)
  type Hash = seq<byte> -> Digest

  // ---------------------------------------------------------------- chunks

  function ChunkSize(chunkBytes: int64): (c: int)
    ensures 0 < c < TWO63
  {
    if chunkBytes <= 0 then DEFAULT_CHUNK else chunkBytes
  }

  function ChunkCount(total: nat, c: int): nat
    requires c > 0
  {
    if total > 0 then (total + c - 1) / c else 0
  }

  /** The rounding-up sum of the sender leaves 64 bits. */
  predicate Overflows(total: nat, c: int) {
    total > 0 && total + c > TWO63
  }

  /** The number of chunks as the sender computes it: a wrapping sum, a truncating division. */
  function SenderCount(total: nat, c: int): int
    requires c > 0
  {
    if total == 0 then 0
    else
      var sum := Wrap64(total + c - 1);
      if sum >= 0 then sum / c else -(-sum / c)
  }

  lemma SenderCountFacts(total: nat, c: int)
    requires total < TWO63 && 0 < c < TWO63
    ensures Overflows(total, c) ==> SenderCount(total, c) <= 0
    ensures !Overflows(total, c) ==> SenderCount(total, c) == ChunkCount(total, c)
  {
    if Overflows(total, c) {
      var sum := Wrap64(total + c - 1);
      assert (total + c - 1) % TWO64 == total + c - 1;
      assert sum == total + c - 1 - TWO64;
      DivBounds(-sum, c);
      assert -sum / c >= 0;
    }
  }

  /** How often the sending loop runs. */
  function Rounds(n: int): nat {
    if n < 0 then 0 else n
  }

  /** Where chunk i starts, and where chunk i - 1 ends. */
  function Offset(total: nat, c: int, i: nat): (o: nat)
    requires c > 0
    ensures o <= total
  {
    if i * c > total then total else i * c
  }

  lemma OffsetFacts(total: nat, c: int, i: nat)
    requires c > 0
    ensures Offset(total, c, 0) == 0
    ensures Offset(total, c, i) <= Offset(total, c, i + 1) <= Offset(total, c, i) + c
    ensures Offset(total, c, i + 1) - Offset(total, c, i) <= total
    ensures i < ChunkCount(total, c) ==> Offset(total, c, i) < total
    ensures i >= ChunkCount(total, c) ==> Offset(total, c, i) == total
  {
    assert (i + 1) * c == i * c + c;
    var n := ChunkCount(total, c);
    if total > 0 {
      assert n * c <= total + c - 1 < n * c + c by { DivBounds(total + c - 1, c); }
      if i < n {
        assert i * c <= (n - 1) * c == n * c - c by { MulOrder(i, n - 1, c); }
      } else {
        MulOrder(n, i, c);
      }
    }
  }

  lemma DivBounds(a: nat, c: int)
    requires c > 0
    ensures (a / c) * c <= a < (a / c) * c + c
  {
  }

  lemma MulOrder(a: int, b: int, c: int)
    requires a <= b && c > 0
    ensures a * c <= b * c
  {
    assert (b - a) * c >= 0;
  }

  function ChunkAt(blob: seq<byte>, c: int, i: nat): seq<byte>
    requires c > 0
  {
    OffsetFacts(|blob|, c, i);
    blob[Offset(|blob|, c, i)..Offset(|blob|, c, i + 1)]
  }

  /** The largest chunk: a full one, or the whole blob when it is shorter. */
  function Piece(blob: seq<byte>, c: int): int {
    if c < |blob| then c else |blob|
  }

  function ManifestHeader(seqID: uint32): Header {
    Header(STAGE_MANIFEST, seqID, UINT8, [MANIFEST_LEN])
  }

  function Manifest(blob: seq<byte>, n: int, sha: Hash): (m: seq<byte>)
    requires |blob| < TWO63
    ensures |m| == MANIFEST_LEN
  {
    Put64(|blob|) + Put32(ToUint32(n)) + sha(blob)
  }

  function ChunkHeader(i: nat, len: nat): Header {
    Header(STAGE_CHUNK, ToUint32(i), UINT8, [ToUint32(len)])
  }

  /** A chunk is a legal frame exactly when it is at most one maximal dimension long. */
  lemma ChunkLegal(i: nat, payload: seq<byte>)
    ensures WellFormed(ChunkHeader(i, |payload|), payload) <==> |payload| <= MAX_DIM
  {
    var h := ChunkHeader(i, |payload|);
    assert h.shape[1..] == [];
    assert Product(1, h.shape) == Wrap64(1 * h.shape[0]);
  }

  lemma ManifestLegal(seqID: uint32, payload: seq<byte>)
    requires |payload| == MANIFEST_LEN
    ensures WellFormed(ManifestHeader(seqID), payload)
  {
    var h := ManifestHeader(seqID);
    assert h.shape[1..] == [];
    assert Product(1, h.shape) == Wrap64(1 * h.shape[0]);
  }

  // ---------------------------------------------------------------- what SendKV writes

  function ChunkBytes(blob: seq<byte>, c: int, i: nat): Result<seq<byte>>
    requires c > 0
  {
    ActivationBytes(ChunkHeader(i, |ChunkAt(blob, c, i)|), ChunkAt(blob, c, i))
  }

  /** Chunks i up to n; an error as soon as one cannot be framed. */
  function SentChunks(blob: seq<byte>, c: int, i: nat, n: nat): Result<seq<byte>>
    requires c > 0 && i <= n
    decreases n - i
  {
    if i == n then Ok([])
    else
      var first, rest := ChunkBytes(blob, c, i), SentChunks(blob, c, i + 1, n);
      if first.Err? || rest.Err? then Err else Ok(first.value + rest.value)
  }

  function SentKV(seqID: uint32, blob: seq<byte>, chunkBytes: int64, cap: int, sha: Hash): Result<seq<byte>>
    requires |blob| < TWO63
  {
    var c := ChunkSize(chunkBytes);
    if cap > 0 && c > cap then Err
    else
      var n := SenderCount(|blob|, c);
      var head := ActivationBytes(ManifestHeader(seqID), Manifest(blob, n, sha));
      var body := SentChunks(blob, c, 0, Rounds(n));
      if head.Err? || body.Err? then Err else Ok(head.value + body.value)
  }

  /** The bytes on the wire when the loop stops: the chunks before the first that cannot be framed. */
  function Written(blob: seq<byte>, c: int, i: nat, n: nat): seq<byte>
    requires c > 0 && i <= n
    decreases n - i
  {
    if i == n || ChunkBytes(blob, c, i).Err? then []
    else ChunkBytes(blob, c, i).value + Written(blob, c, i + 1, n)
  }

  /** What is on the wire after SendKV, whether it succeeded or not. */
  function WrittenKV(seqID: uint32, blob: seq<byte>, chunkBytes: int64, cap: int, sha: Hash): seq<byte>
    requires |blob| < TWO63
  {
    var c := ChunkSize(chunkBytes);
    if cap > 0 && c > cap then []
    else
      var n := SenderCount(|blob|, c);
      WireBytes(Activation(ManifestHeader(seqID), Manifest(blob, n, sha))) + Written(blob, c, 0, Rounds(n))
  }

  lemma {:induction false} WrittenIsSent(blob: seq<byte>, c: int, i: nat, n: nat)
    requires c > 0 && i <= n && SentChunks(blob, c, i, n).Ok?
    ensures Written(blob, c, i, n) == SentChunks(blob, c, i, n).value
    decreases n - i
  {
    hide ChunkBytes;
    if i < n {
      WrittenIsSent(blob, c, i + 1, n);
    }
  }

  /** A send that succeeded wrote its whole stream. */
  lemma WrittenKVIsSent(seqID: uint32, blob: seq<byte>, chunkBytes: int64, cap: int, sha: Hash)
    requires |blob| < TWO63 && SentKV(seqID, blob, chunkBytes, cap, sha).Ok?
    ensures WrittenKV(seqID, blob, chunkBytes, cap, sha) == SentKV(seqID, blob, chunkBytes, cap, sha).value
  {
    hide ActivationBytes, SenderCount, Manifest;
    var c := ChunkSize(chunkBytes);
    WrittenIsSent(blob, c, 0, Rounds(SenderCount(|blob|, c)));
  }

  // ---------------------------------------------------------------- what RecvKV accepts

  function RecvChunks(wire: seq<byte>, caps: Caps, i: nat, n: nat, total: int,
                      blob: seq<byte>): Result<Received<seq<byte>>>
    requires i <= n
    decreases n - i
  {
    if i == n then Ok(Received(blob, wire))
    else
      var r := RecvActivation(wire, caps);
      if r.Err? then Err
      else
        var a := r.value.value;
        if a.header.stageID != STAGE_CHUNK || a.header.tokenIndex != ToUint32(i) || |blob + a.payload| > total then Err
        else RecvChunks(r.value.rest, caps, i + 1, n, total, blob + a.payload)
  }

  datatype Handoff = Handoff(seqID: uint32, blob: seq<byte>, rest: seq<byte>)

  /** After the manifest; a negative declared total cannot even be allocated. */
  function RecvBody(seqID: uint32, manifest: seq<byte>, wire: seq<byte>, caps: Caps, sha: Hash): Result<Handoff>
    requires |manifest| == MANIFEST_LEN
  {
    var total := Wrap64(Get64(manifest));
    var body := RecvChunks(wire, caps, 0, Get32(manifest[8..]), total, []);
    if total < 0 || body.Err? || |body.value.value| != total || sha(body.value.value) != manifest[12..] then Err
    else Ok(Handoff(seqID, body.value.value, body.value.rest))
  }

  function RecvKV(wire: seq<byte>, caps: Caps, sha: Hash): Result<Handoff> {
    var m := RecvActivation(wire, caps);
    if m.Err? then Err
    else
      var a := m.value.value;
      if a.header.stageID != STAGE_MANIFEST || |a.payload| != MANIFEST_LEN then Err
      else RecvBody(a.header.tokenIndex, a.payload, m.value.rest, caps, sha)
  }

  // ---------------------------------------------------------------- sending

  lemma {:induction false} SentChunksIff(blob: seq<byte>, c: int, i: nat, n: nat)
    requires c > 0 && i <= n
    ensures SentChunks(blob, c, i, n).Ok? <==> forall k :: i <= k < n ==> |ChunkAt(blob, c, k)| <= MAX_DIM
    decreases n - i
  {
    hide ChunkAt, WellFormed, Layout, FrameBytes;
    if i < n {
      SentChunksIff(blob, c, i + 1, n);
      ChunkLegal(i, ChunkAt(blob, c, i));
    }
  }

  lemma ChunkLengths(blob: seq<byte>, c: int, i: nat)
    requires c > 0
    ensures |ChunkAt(blob, c, i)| <= Piece(blob, c)
    ensures |ChunkAt(blob, c, 0)| == Piece(blob, c)
  {
    OffsetFacts(|blob|, c, i);
    OffsetFacts(|blob|, c, 0);
  }

  lemma ChunksLegalIff(blob: seq<byte>, c: int)
    requires c > 0
    ensures SentChunks(blob, c, 0, ChunkCount(|blob|, c)).Ok? <==> Piece(blob, c) <= MAX_DIM
  {
    hide ChunkAt, SentChunks, ChunkCount;
    var n := ChunkCount(|blob|, c);
    SentChunksIff(blob, c, 0, n);
    forall k ensures k >= 0 ==> |ChunkAt(blob, c, k)| <= Piece(blob, c) {
      if k >= 0 {
        ChunkLengths(blob, c, k);
      }
    }
    ChunkLengths(blob, c, 0);
    OffsetFacts(|blob|, c, 0);
  }

  /**
  SendKV succeeds exactly when the chunk size respects the transport's cap and no chunk is
  longer than the largest dimension a frame may declare (16 MiB); where the chunk count
  overflows it sends no chunk at all and reports success.
  */
  lemma SendSucceedsIff(seqID: uint32, blob: seq<byte>, chunkBytes: int64, cap: int, sha: Hash)
    requires |blob| < TWO63
    ensures var c := ChunkSize(chunkBytes);
            SentKV(seqID, blob, chunkBytes, cap, sha).Ok? <==>
            (cap <= 0 || c <= cap) && (Overflows(|blob|, c) || Piece(blob, c) <= MAX_DIM)
  {
    hide WellFormed, Layout, FrameBytes, Manifest, ChunkCount, SenderCount, Piece, Overflows;
    var c := ChunkSize(chunkBytes);
    var n := SenderCount(|blob|, c);
    ManifestLegal(seqID, Manifest(blob, n, sha));
    SenderCountFacts(|blob|, c);
    ChunksLegalIff(blob, c);
  }

  // ---------------------------------------------------------------- receiving what was sent

  /** The receiver's caps leave room for the frame of any payload up to `piece`. */
  predicate RoomFor(caps: Caps, piece: int) {
    caps.maxPayload >= piece && caps.maxPayload >= MANIFEST_LEN && caps.maxFrameBytes >= caps.maxPayload + HEADER_SLACK
  }

  lemma ChunkArrives(blob: seq<byte>, c: int, i: nat, rest: seq<byte>, caps: Caps)
    requires c > 0 && RoomFor(caps, Piece(blob, c)) && Piece(blob, c) <= MAX_DIM
    ensures ChunkBytes(blob, c, i).Ok?
    ensures RecvActivation(ChunkBytes(blob, c, i).value + rest, caps)
            == Ok(Received(Activation(ChunkHeader(i, |ChunkAt(blob, c, i)|), ChunkAt(blob, c, i)), rest))
  {
    var payload := ChunkAt(blob, c, i);
    ChunkLengths(blob, c, i);
    ChunkLegal(i, payload);
    hide ChunkAt, WellFormed;
    ActivationRoundTrip(ChunkHeader(i, |payload|), payload, rest, caps);
  }

  lemma BlobGrows(blob: seq<byte>, c: int, i: nat)
    requires c > 0
    ensures var from, to := Offset(|blob|, c, i), Offset(|blob|, c, i + 1);
            blob[..from] + ChunkAt(blob, c, i) == blob[..to]
  {
    OffsetFacts(|blob|, c, i);
  }

  /** The first k chunks of the stream rebuild the blob up to where chunk k starts. */
  lemma {:induction false} ChunksArrive(blob: seq<byte>, c: int, i: nat, k: nat, n: nat, rest: seq<byte>, caps: Caps)
    requires c > 0 && RoomFor(caps, Piece(blob, c)) && Piece(blob, c) <= MAX_DIM && i <= k <= n
    ensures SentChunks(blob, c, i, n).Ok? && SentChunks(blob, c, k, n).Ok?
    ensures RecvChunks(SentChunks(blob, c, i, n).value + rest, caps, i, k, |blob|, blob[..Offset(|blob|, c, i)])
            == Ok(Received(blob[..Offset(|blob|, c, k)], SentChunks(blob, c, k, n).value + rest))
    decreases n - i
  {
    hide ChunkAt, Offset, RecvActivation, ActivationBytes, RoomFor, Piece, ChunkBytes;
    if i < n {
      ChunksArrive(blob, c, i + 1, if i < k then k else i + 1, n, rest, caps);
      var more := SentChunks(blob, c, i + 1, n).value;
      ChunkArrives(blob, c, i, more + rest, caps);
      BlobGrows(blob, c, i);
      var first := ChunkBytes(blob, c, i).value;
      Assoc(first, more, rest);
    }
  }

  lemma ManifestReads(blob: seq<byte>, n: int, sha: Hash)
    requires |blob| < TWO63
    ensures var m := Manifest(blob, n, sha);
            Wrap64(Get64(m)) == |blob| && Get32(m[8..]) == ToUint32(n) && m[12..] == sha(blob)
  {
    var m := Manifest(blob, n, sha);
    assert m == Put64(|blob|) + (Put32(ToUint32(n)) + sha(blob));
    Get64Put(|blob|, Put32(ToUint32(n)) + sha(blob));
    assert m[8..] == Put32(ToUint32(n)) + sha(blob);
    Get32Put(ToUint32(n), sha(blob));
  }

  lemma ManifestArrives(seqID: uint32, m: seq<byte>, rest: seq<byte>, caps: Caps)
    requires |m| == MANIFEST_LEN && RoomFor(caps, 0)
    ensures ActivationBytes(ManifestHeader(seqID), m).Ok?
    ensures RecvActivation(ActivationBytes(ManifestHeader(seqID), m).value + rest, caps)
            == Ok(Received(Activation(ManifestHeader(seqID), m), rest))
  {
    ManifestLegal(seqID, m);
    hide WellFormed;
    ActivationRoundTrip(ManifestHeader(seqID), m, rest, caps);
  }

  /** The chunks rebuild the blob, unless the count was cut to fewer than there are. */
  lemma BodyArrives(seqID: uint32, blob: seq<byte>, c: int, sha: Hash, rest: seq<byte>, caps: Caps)
    requires |blob| < TWO63 && c > 0 && Piece(blob, c) <= MAX_DIM && RoomFor(caps, Piece(blob, c))
    ensures var n := ChunkCount(|blob|, c);
            var sent := SentChunks(blob, c, 0, n);
            && sent.Ok?
            && RecvBody(seqID, Manifest(blob, n, sha), sent.value + rest, caps, sha)
               == if n < TWO32 then Ok(Handoff(seqID, blob, rest)) else Err
  {
    var n := ChunkCount(|blob|, c);
    ManifestReads(blob, n, sha);
    hide Manifest, RecvChunks, Get64, Get32, Wrap64, ChunkCount, Offset, ChunkAt, ChunkBytes;
    var k := ToUint32(n);
    ChunksArrive(blob, c, 0, k, n, rest, caps);
    OffsetFacts(|blob|, c, 0);
    OffsetFacts(|blob|, c, k);
    assert blob[..0] == [] && blob[..|blob|] == blob;
    if n < TWO32 {
      assert SentChunks(blob, c, n, n).value + rest == rest;
    }
  }

  /** Every activation takes bytes off the stream. */
  lemma {:induction false} ChunksConsume(wire: seq<byte>, caps: Caps, i: nat, n: nat, total: int, blob: seq<byte>)
    requires i <= n && RecvChunks(wire, caps, i, n, total, blob).Ok?
    ensures |RecvChunks(wire, caps, i, n, total, blob).value.rest| <= |wire| - (n - i)
    decreases n - i
  {
    hide RecvActivation, WireBytes;
    if i < n {
      var r := RecvChunksStep(wire, caps, i, n, total, blob);
      ActivationConsumes(wire, caps);
      ChunksConsume(r.rest, caps, i + 1, n, total, blob + r.value.payload);
    }
  }

  lemma ActivationConsumes(wire: seq<byte>, caps: Caps)
    requires RecvActivation(wire, caps).Ok?
    ensures |RecvActivation(wire, caps).value.rest| < |wire|
  {
    hide Decode;
  }

  /** Where the count overflowed the receiver waits for chunks that were not sent, or misses the total. */
  lemma NoBodyFails(seqID: uint32, blob: seq<byte>, n: int, sha: Hash, rest: seq<byte>, caps: Caps)
    requires 0 < |blob| < TWO63
    ensures RecvBody(seqID, Manifest(blob, n, sha), rest, caps, sha) != Ok(Handoff(seqID, blob, rest))
    ensures rest == [] ==> RecvBody(seqID, Manifest(blob, n, sha), rest, caps, sha).Err?
  {
    ManifestReads(blob, n, sha);
    hide Manifest, Get64, Get32, Wrap64, RecvActivation;
    var k := ToUint32(n);
    var body := RecvChunks(rest, caps, 0, k, |blob|, []);
    if body.Ok? && k > 0 {
      ChunksConsume(rest, caps, 0, k, |blob|, []);
    }
  }

  /**
  End to end over one stream: what SendKV writes, RecvKV returns exactly, leaving the rest of
  the stream alone. Once the sender succeeded and the receiver's caps hold a chunk, that fails
  exactly when the chunk count leaves 64 bits while it is computed, or 32 bits on the wire.
  */
  lemma HandoffRoundTrip(seqID: uint32, blob: seq<byte>, chunkBytes: int64, cap: int, sha: Hash, rest: seq<byte>,
                         caps: Caps)
    requires |blob| < TWO63 && SentKV(seqID, blob, chunkBytes, cap, sha).Ok?
    requires RoomFor(caps, Piece(blob, ChunkSize(chunkBytes)))
    ensures var c := ChunkSize(chunkBytes);
            var r := RecvKV(SentKV(seqID, blob, chunkBytes, cap, sha).value + rest, caps, sha);
            && (r == Ok(Handoff(seqID, blob, rest)) <==> !Overflows(|blob|, c) && ChunkCount(|blob|, c) < TWO32)
            && (r != Ok(Handoff(seqID, blob, rest)) && (rest == [] || !Overflows(|blob|, c)) ==> r.Err?)
  {
    hide Manifest, RecvActivation, ActivationBytes, RecvBody, SentChunks, ChunkCount, SenderCount, Piece,
        ChunkSize, Overflows;
    var c := ChunkSize(chunkBytes);
    var n := SenderCount(|blob|, c);
    SendSucceedsIff(seqID, blob, chunkBytes, cap, sha);
    SenderCountFacts(|blob|, c);
    var m, body := Manifest(blob, n, sha), SentChunks(blob, c, 0, Rounds(n)).value;
    ManifestArrives(seqID, m, body + rest, caps);
    Assoc(ActivationBytes(ManifestHeader(seqID), m).value, body, rest);
    if Overflows(|blob|, c) {
      NothingSent(blob, c, rest);
      OverflowNeedsBytes(|blob|, c);
      NoBodyFails(seqID, blob, n, sha, rest, caps);
    } else {
      BodyArrives(seqID, blob, c, sha, rest, caps);
    }
  }

  lemma OverflowNeedsBytes(total: nat, c: int)
    requires Overflows(total, c)
    ensures total > 0
  {
  }

  lemma NothingSent(blob: seq<byte>, c: int, rest: seq<byte>)
    requires c > 0
    ensures SentChunks(blob, c, 0, 0) == Ok([]) && [] + rest == rest
  {
  }

  /** Two ends built with one limit: their caps always have room for what the sender lets through. */
  lemma SameLimitHasRoom(maxActivationMB: int64, blob: seq<byte>, c: int)
    requires c <= NewCaps(maxActivationMB).maxPayload && c > 0
    ensures RoomFor(NewCaps(maxActivationMB), Piece(blob, c))
  {
    CapsLeaveRoom(maxActivationMB);
    hide NewCaps;
  }

  /** With a payload cap of zero or less, which the sender takes for none, nothing can be received. */
  lemma NoCapNoManifest(wire: seq<byte>, caps: Caps, sha: Hash)
    requires caps.maxPayload <= 0
    ensures RecvKV(wire, caps, sha).Err?
  {
    hide RecvBody;
    if RecvActivation(wire, caps).Ok? {
      ReceivedWasSent(wire, caps);
      hide RecvActivation, ActivationBytes;
    }
  }

  /** Between two ends of one limit: everything the sender accepts arrives, but for these three conditions. */
  lemma EndToEnd(maxActivationMB: int64, seqID: uint32, blob: seq<byte>, chunkBytes: int64, sha: Hash, rest: seq<byte>)
    requires |blob| < TWO63
    requires SentKV(seqID, blob, chunkBytes, NewCaps(maxActivationMB).maxPayload, sha).Ok?
    ensures var c, caps := ChunkSize(chunkBytes), NewCaps(maxActivationMB);
            RecvKV(SentKV(seqID, blob, chunkBytes, caps.maxPayload, sha).value + rest, caps, sha)
            == Ok(Handoff(seqID, blob, rest)) <==>
            caps.maxPayload > 0 && !Overflows(|blob|, c) && ChunkCount(|blob|, c) < TWO32
  {
    hide NewCaps, RecvKV, ChunkCount, Overflows, Piece;
    var c, caps := ChunkSize(chunkBytes), NewCaps(maxActivationMB);
    if caps.maxPayload > 0 {
      SameLimitHasRoom(maxActivationMB, blob, c);
      hide SentKV, RoomFor, ChunkSize;
      HandoffRoundTrip(seqID, blob, chunkBytes, caps.maxPayload, sha, rest, caps);
    } else {
      hide SentKV;
      NoCapNoManifest(SentKV(seqID, blob, chunkBytes, caps.maxPayload, sha).value + rest, caps, sha);
    }
  }

  /** A 2 MiB blob with the largest cap and a chunk as large: the send succeeds without a single chunk. */
  lemma OverflowLosesTheBlob(seqID: uint32, blob: seq<byte>, sha: Hash)
    requires |blob| == 0x20_0000
    ensures var caps := NewCaps(0x7FF_FFFF_FFFF);
            var sent := SentKV(seqID, blob, TWO63 - 0x10_0000, caps.maxPayload, sha);
            sent.Ok? && RecvKV(sent.value, caps, sha).Err?
  {
    CapsLeaveRoom(0x7FF_FFFF_FFFF);
    var c, caps := TWO63 - 0x10_0000, NewCaps(0x7FF_FFFF_FFFF);
    SendSucceedsIff(seqID, blob, c, caps.maxPayload, sha);
    SameLimitHasRoom(0x7FF_FFFF_FFFF, blob, c);
    hide SentKV, RecvKV, NewCaps, RoomFor, Piece;
    HandoffRoundTrip(seqID, blob, c, caps.maxPayload, sha, [], caps);
    assert SentKV(seqID, blob, c, caps.maxPayload, sha).value + [] ==
        SentKV(seqID, blob, c, caps.maxPayload, sha).value;
  }

  /** One byte over the largest dimension, in one chunk, within a cap of 32 MB: it cannot be sent. */
  lemma LongPieceIsRefused(seqID: uint32, blob: seq<byte>, sha: Hash)
    requires |blob| == MAX_DIM + 1
    ensures var cap := NewCaps(32).maxPayload;
            cap >= MAX_DIM + 1 && SentKV(seqID, blob, MAX_DIM + 1, cap, sha).Err?
  {
    CapsLeaveRoom(32);
    SendSucceedsIff(seqID, blob, MAX_DIM + 1, NewCaps(32).maxPayload, sha);
    hide SentKV, NewCaps;
  }

  /** 2^32 chunks of one byte: sent with success, and an error at the other end. */
  lemma TooManyChunksAreLost(seqID: uint32, blob: seq<byte>, sha: Hash)
    requires |blob| == TWO32
    ensures var caps := NewCaps(8);
            var sent := SentKV(seqID, blob, 1, caps.maxPayload, sha);
            sent.Ok? && RecvKV(sent.value, caps, sha).Err?
  {
    CapsLeaveRoom(8);
    var caps := NewCaps(8);
    SendSucceedsIff(seqID, blob, 1, caps.maxPayload, sha);
    SameLimitHasRoom(8, blob, 1);
    assert ChunkCount(TWO32, 1) == TWO32;
    hide SentKV, RecvKV, NewCaps, RoomFor, Piece, ChunkCount;
    HandoffRoundTrip(seqID, blob, 1, caps.maxPayload, sha, [], caps);
    var sent := SentKV(seqID, blob, 1, caps.maxPayload, sha).value;
    assert sent + [] == sent;
  }

  /** For every legal limit and blob, the default chunk size always arrives below 2^32 chunks. */
  lemma DefaultChunkArrives(maxActivationMB: int64, seqID: uint32, blob: seq<byte>, sha: Hash)
    requires 4 <= maxActivationMB < 0x800_0000_0000 && |blob| <= DEFAULT_CHUNK * (TWO32 - 1)
    ensures var caps := NewCaps(maxActivationMB);
            var sent := SentKV(seqID, blob, 0, caps.maxPayload, sha);
            sent.Ok? && RecvKV(sent.value, caps, sha) == Ok(Handoff(seqID, blob, []))
  {
    CapsLeaveRoom(maxActivationMB);
    var cap := NewCaps(maxActivationMB).maxPayload;
    SendSucceedsIff(seqID, blob, 0, cap, sha);
    DivBounds(|blob| + DEFAULT_CHUNK - 1, DEFAULT_CHUNK);
    hide SentKV, RecvKV, NewCaps;
    EndToEnd(maxActivationMB, seqID, blob, 0, sha, []);
    assert SentKV(seqID, blob, 0, cap, sha).value + [] == SentKV(seqID, blob, 0, cap, sha).value;
  }

  // ---------------------------------------------------------------- what an accepted stream was

  function WireBytes(a: Activation): seq<byte> {
    if ActivationBytes(a.header, a.payload).Ok? then ActivationBytes(a.header, a.payload).value else []
  }

  function AllBytes(chunks: seq<Activation>): seq<byte> {
    if chunks == [] then [] else WireBytes(chunks[0]) + AllBytes(chunks[1..])
  }

  function Payloads(chunks: seq<Activation>): seq<byte> {
    if chunks == [] then [] else chunks[0].payload + Payloads(chunks[1..])
  }

  /** Chunk frames numbered from i on, without a gap. */
  ghost predicate InOrder(chunks: seq<Activation>, i: nat) {
    forall k :: 0 <= k < |chunks| ==>
                  chunks[k].header.stageID == STAGE_CHUNK && chunks[k].header.tokenIndex == ToUint32(i + k)
  }

  lemma OneMoreInOrder(a: Activation, more: seq<Activation>, i: nat)
    requires a.header.stageID == STAGE_CHUNK && a.header.tokenIndex == ToUint32(i) && InOrder(more, i + 1)
    ensures InOrder([a] + more, i)
  {
    var chunks := [a] + more;
    forall k | 0 < k < |chunks|
      ensures chunks[k].header.stageID == STAGE_CHUNK && chunks[k].header.tokenIndex == ToUint32(i + k)
    {
      assert chunks[k] == more[k - 1] && i + 1 + (k - 1) == i + k;
    }
  }

  lemma OneMoreChunk(a: Activation, more: seq<Activation>, blob: seq<byte>, rest: seq<byte>)
    ensures blob + a.payload + Payloads(more) == blob + Payloads([a] + more)
    ensures WireBytes(a) + (AllBytes(more) + rest) == AllBytes([a] + more) + rest
  {
    assert ([a] + more)[1..] == more;
  }

  /** One turn of the receiving loop. */
  lemma RecvChunksStep(wire: seq<byte>, caps: Caps, i: nat, n: nat, total: int, blob: seq<byte>)
      returns (r: Received<Activation>)
    requires i < n && RecvChunks(wire, caps, i, n, total, blob).Ok?
    ensures r.value.header.stageID == STAGE_CHUNK && r.value.header.tokenIndex == ToUint32(i)
    ensures wire == WireBytes(r.value) + r.rest && RecvActivation(wire, caps) == Ok(r)
    ensures RecvChunks(r.rest, caps, i + 1, n, total, blob + r.value.payload)
            == RecvChunks(wire, caps, i, n, total, blob)
  {
    r := RecvActivation(wire, caps).value;
    ReceivedWasSent(wire, caps);
    hide RecvActivation, ActivationBytes;
  }

  lemma {:induction false} ChunksWereSent(wire: seq<byte>, caps: Caps, i: nat, n: nat, total: int, blob: seq<byte>)
    returns (chunks: seq<Activation>)
    requires i <= n && RecvChunks(wire, caps, i, n, total, blob).Ok?
    ensures var r := RecvChunks(wire, caps, i, n, total, blob).value;
            && |chunks| == n - i && InOrder(chunks, i)
            && r.value == blob + Payloads(chunks)
            && wire == AllBytes(chunks) + r.rest
    decreases n - i
  {
    if i == n {
      chunks := [];
      assert InOrder(chunks, i) && blob + [] == blob && [] + wire == wire;
    } else {
      hide *;
      var first := RecvChunksStep(wire, caps, i, n, total, blob);
      var more := ChunksWereSent(first.rest, caps, i + 1, n, total, blob + first.value.payload);
      chunks := [first.value] + more;
      OneMoreInOrder(first.value, more, i);
      OneMoreChunk(first.value, more, blob, RecvChunks(wire, caps, i, n, total, blob).value.rest);
    }
  }

  /**
  Nothing else is accepted: an accepted stream is a manifest followed by chunks 0..n-1 in
  order, whose payloads are the blob, with the declared count, total and hash.
  */
  lemma AcceptedHandoff(wire: seq<byte>, caps: Caps, sha: Hash) returns (manifest: Activation, chunks: seq<Activation>)
    requires RecvKV(wire, caps, sha).Ok?
    ensures var r := RecvKV(wire, caps, sha).value;
            && wire == WireBytes(manifest) + AllBytes(chunks) + r.rest
            && manifest.header.stageID == STAGE_MANIFEST && manifest.header.tokenIndex == r.seqID
            && |manifest.payload| == MANIFEST_LEN
            && |chunks| == Get32(manifest.payload[8..]) && InOrder(chunks, 0)
            && Payloads(chunks) == r.blob
            && |r.blob| == Wrap64(Get64(manifest.payload)) && sha(r.blob) == manifest.payload[12..]
  {
    var m := RecvActivation(wire, caps).value;
    ReceivedWasSent(wire, caps);
    hide RecvActivation, ActivationBytes, InOrder, Get64, Get32, Wrap64;
    manifest := m.value;
    chunks := ChunksWereSent(m.rest, caps, 0, Get32(manifest.payload[8..]), Wrap64(Get64(manifest.payload)), []);
    var rest := RecvKV(wire, caps, sha).value.rest;
    assert [] + Payloads(chunks) == Payloads(chunks);
    assert WireBytes(manifest) + (AllBytes(chunks) + rest) == WireBytes(manifest) + AllBytes(chunks) + rest;
  }

  /** Stage ids, the default chunk, and the manifest: total, chunk count and hash. */
  lemma FormatMeans(seqID: uint32, blob: seq<byte>, n: nat, sha: Hash, i: nat, len: nat)
    requires |blob| < TWO63 && n < TWO32 && i < TWO32 && len < TWO32
    ensures ManifestHeader(seqID) == Header(65534, seqID, 5, [44])
    ensures ChunkHeader(i, len) == Header(65533, i, 5, [len])
    ensures ChunkSize(0) == 4194304
    ensures var m := Manifest(blob, n, sha);
            |m| == 44 && Get64(m) == |blob| && Get32(m[8..]) == n && m[12..] == sha(blob)
  {
    ManifestReads(blob, n, sha);
    hide Get64, Get32, Manifest;
    assert Manifest(blob, n, sha) == Put64(|blob|) + (Put32(ToUint32(n)) + sha(blob)) by { ManifestForm(blob, n, sha); }
    Get64Put(|blob|, Put32(ToUint32(n)) + sha(blob));
  }

  lemma ManifestForm(blob: seq<byte>, n: int, sha: Hash)
    requires |blob| < TWO63
    ensures Manifest(blob, n, sha) == Put64(|blob|) + (Put32(ToUint32(n)) + sha(blob))
  {
    Assoc(Put64(|blob|), Put32(ToUint32(n)), sha(blob));
  }

  /** Chunk i is the i-th stretch of c bytes, the last one shorter. */
  lemma ChunkMeans(blob: seq<byte>, c: int, i: nat)
    requires c > 0 && i * c < |blob|
    ensures ChunkAt(blob, c, i) == blob[i * c..if i * c + c <= |blob| then i * c + c else |blob|]
  {
    OffsetEnd(|blob|, c, i);
  }

  // ---------------------------------------------------------------- the two ends

  method SendKV(tx: TcpTransport, seqID: uint32, blob: seq<byte>, chunkBytes: int64, sha: Hash) returns (ok: bool)
    requires |blob| < TWO63
    modifies tx
    ensures ok <==> SentKV(seqID, blob, chunkBytes, tx.maxPayload, sha).Ok?
    ensures tx.wire == old(tx.wire) + WrittenKV(seqID, blob, chunkBytes, tx.maxPayload, sha)
  {
    hide ActivationBytes, Manifest, ChunkAt, Offset, SenderCount, SentChunks, Written;
    var c: int := if chunkBytes <= 0 then DEFAULT_CHUNK else chunkBytes;
    if tx.maxPayload > 0 && c > tx.maxPayload {
      return false;
    }
    var nChunks := SenderCount(|blob|, c);
    ghost var start := tx.wire;
    var m := Manifest(blob, nChunks, sha);
    ManifestLegal(seqID, m);
    ManifestEncodes(seqID, m);
    ok := tx.SendActivation(ManifestHeader(seqID), m);
    ghost var head := WireBytes(Activation(ManifestHeader(seqID), m));
    assert tx.wire == start + head;
    ok := SendChunkLoop(tx, blob, c, nChunks);
    Assoc(start, head, Written(blob, c, 0, Rounds(nChunks)));
  }

  lemma ManifestEncodes(seqID: uint32, m: seq<byte>)
    requires |m| == MANIFEST_LEN && WellFormed(ManifestHeader(seqID), m)
    ensures ActivationBytes(ManifestHeader(seqID), m).Ok?
  {
    hide Layout, FrameBytes;
  }

  /** The loop over the chunks; `lo + chunkBytes` stays in 64 bits whenever it runs. */
  method SendChunkLoop(tx: TcpTransport, blob: seq<byte>, c: int, nChunks: int) returns (ok: bool)
    requires |blob| < TWO63 && 0 < c < TWO63 && nChunks == SenderCount(|blob|, c)
    modifies tx
    ensures ok <==> SentChunks(blob, c, 0, Rounds(nChunks)).Ok?
    ensures tx.wire == old(tx.wire) + Written(blob, c, 0, Rounds(nChunks))
  {
    hide ActivationBytes, Offset, SenderCount, ChunkCount;
    SenderCountFacts(|blob|, c);
    ghost var start, sent, n := tx.wire, [], Rounds(nChunks);
    var i := 0;
    assert start + [] == start && [] + Written(blob, c, 0, n) == Written(blob, c, 0, n);
    while i < nChunks
      invariant 0 <= i <= n && tx.wire == start + sent
      invariant SentChunks(blob, c, i, n).Ok? <==> SentChunks(blob, c, 0, n).Ok?
      invariant Written(blob, c, 0, n) == sent + Written(blob, c, i, n)
    {
      OffsetFacts(|blob|, c, i);
      OffsetEnd(|blob|, c, i);
      var lo := Offset(|blob|, c, i);
      var hi := Wrap64(lo + c);
      if hi > |blob| {
        hi := |blob|;
      }
      var chunk := blob[lo..hi];
      assert chunk == ChunkAt(blob, c, i);
      hide ChunkAt;
      ok := tx.SendActivation(ChunkHeader(i, |chunk|), chunk);
      if !ok {
        assert ChunkBytes(blob, c, i).Err?;
        assert start + sent + [] == start + sent && sent + [] == sent;
        return;
      }
      ghost var bytes := ChunkBytes(blob, c, i).value;
      Assoc(start, sent, bytes);
      Assoc(sent, bytes, Written(blob, c, i + 1, n));
      sent := sent + bytes;
      i := i + 1;
    }
    assert sent + [] == sent;
    return true;
  }

  lemma OffsetEnd(total: nat, c: int, i: nat)
    requires c > 0
    ensures Offset(total, c, i + 1) == if Offset(total, c, i) + c > total then total else Offset(total, c, i) + c
  {
    assert (i + 1) * c == i * c + c;
  }

  method ReceiveKV(tx: TcpTransport, sha: Hash) returns (r: Result<(uint32, seq<byte>)>)
    modifies tx
    ensures var want := RecvKV(old(tx.wire), Caps(tx.maxFrameBytes, tx.maxPayload), sha);
            (want.Ok? ==> r == Ok((want.value.seqID, want.value.blob)) && tx.wire == want.value.rest) &&
                (want.Err? ==> r.Err?)
  {
    hide RecvActivation, Get64, Get32, Wrap64;
    var m := tx.RecvNext();
    if m.Err? || m.value.header.stageID != STAGE_MANIFEST || |m.value.payload| != MANIFEST_LEN {
      return Err;
    }
    var total := Wrap64(Get64(m.value.payload));
    if total < 0 {
      return Err;
    }
    var body := RecvChunkLoop(tx, Get32(m.value.payload[8..]), total);
    if body.Err? || |body.value| != total || sha(body.value) != m.value.payload[12..] {
      return Err;
    }
    return Ok((m.value.header.tokenIndex, body.value));
  }

  method RecvChunkLoop(tx: TcpTransport, nChunks: nat, total: int) returns (r: Result<seq<byte>>)
    modifies tx
    ensures var want := RecvChunks(old(tx.wire), Caps(tx.maxFrameBytes, tx.maxPayload), 0, nChunks, total, []);
            (want.Ok? ==> r == Ok(want.value.value) && tx.wire == want.value.rest) && (want.Err? ==> r.Err?)
  {
    hide RecvActivation;
    ghost var caps := Caps(tx.maxFrameBytes, tx.maxPayload);
    ghost var want := RecvChunks(tx.wire, caps, 0, nChunks, total, []);
    var blob: seq<byte> := [];
    var i := 0;
    while i < nChunks
      invariant 0 <= i <= nChunks
      invariant RecvChunks(tx.wire, caps, i, nChunks, total, blob) == want
    {
      var c := tx.RecvNext();
      if c.Err? || c.value.header.stageID != STAGE_CHUNK || c.value.header.tokenIndex != ToUint32(i) {
        return Err;
      }
      blob := blob + c.value.payload;
      if |blob| > total {
        return Err;
      }
      i := i + 1;
    }
    return Ok(blob);
  }
}
