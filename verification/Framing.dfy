/**
The binary activation frame (internal/framing/framing.go:24-192):
magic(4) version(1) type(1) reserved(2) stage(2) token(4) dtype(1) ndim(1) shape(4*ndim) length(8) payload.
*/
module Framing {
  import opened Bytes

  const MAX_NDIM: int := 8
  const MAX_DIM: int := 0x100_0000
  const FIXED_LEN: int := 16
  const LEN_LEN: int := 8

  datatype Result<+T> = Ok(value: T) | Err

  datatype Header = Header(stageID: uint16, tokenIndex: uint32, dtype: byte, shape: seq<uint32>)

  /** A decoded frame. */
  datatype Activation = Activation(header: Header, payload: seq<byte>)

  const UINT8: byte := 5

  /** 0 for an unknown dtype, which DTypeSize refuses. */
  function DTypeSize(d: byte): int {
    if d == 1 || d == 6 then 4
    else if d == 2 || d == 3 then 2
    else if d == 4 || d == 5 then 1
    else if d == 7 then 8
    else 0
  }

  /** The running product of Go's 64-bit int multiplication. */
  function Product(n: int, shape: seq<uint32>): int
    decreases |shape|
  {
    if shape == [] then n else Product(Wrap64(n * shape[0]), shape[1..])
  }

  function ExpectedBytes(h: Header): Result<int> {
    if DTypeSize(h.dtype) == 0 then Err else Ok(Product(DTypeSize(h.dtype), h.shape))
  }

  predicate ShapeOk(shape: seq<uint32>) {
    |shape| <= MAX_NDIM && forall i :: 0 <= i < |shape| ==> shape[i] <= MAX_DIM
  }

  /** What both ends demand of a header and its payload. */
  predicate WellFormed(h: Header, payload: seq<byte>) {
    ShapeOk(h.shape) && |payload| < TWO63 && ExpectedBytes(h) == Ok(|payload|)
  }

  // ---------------------------------------------------------------- layout

  const PREFIX: seq<byte> := [0x53, 0x4F, 0x46, 0x4D, 1, 1, 0, 0]

  function Fixed(h: Header): (s: seq<byte>)
    requires |h.shape| < 256
    ensures |s| == 8
  {
    Put16(h.stageID) + Put32(h.tokenIndex) + [h.dtype, |h.shape|]
  }

  function ShapeBytes(shape: seq<uint32>): (s: seq<byte>)
    ensures |s| == 4 * |shape|
  {
    if shape == [] then [] else Put32(shape[0]) + ShapeBytes(shape[1..])
  }

  /** The frame of a well-formed activation. */
  function Layout(h: Header, payload: seq<byte>): (buf: seq<byte>)
    requires WellFormed(h, payload)
    ensures |buf| == FIXED_LEN + 4 * |h.shape| + LEN_LEN + |payload|
  {
    PREFIX + Fixed(h) + ShapeBytes(h.shape) + Put64(|payload|) + payload
  }

  function Encode(h: Header, payload: seq<byte>): Result<seq<byte>> {
    if WellFormed(h, payload) then Ok(Layout(h, payload)) else Err
  }

  function ReadShape(buf: seq<byte>, ndim: nat): (shape: seq<uint32>)
    requires |buf| >= 4 * ndim
    ensures |shape| == ndim
  {
    if ndim == 0 then [] else [Get32(buf)] + ReadShape(buf[4..], ndim - 1)
  }

  /** Where the length field starts: after as many dimensions as the frame declares. */
  function LenAt(buf: seq<byte>): (at: int)
    requires |buf| >= FIXED_LEN
    ensures at >= FIXED_LEN
  {
    var ndim: int := buf[15];
    FIXED_LEN + 4 * ndim
  }

  /** The header of a frame long enough to hold it. */
  function ReadHeader(buf: seq<byte>): Header
    requires |buf| >= FIXED_LEN && |buf| >= LenAt(buf)
  {
    Header(Get16(buf[8..]), Get32(buf[10..]), buf[14], ReadShape(buf[FIXED_LEN..], buf[15]))
  }

  /**
  Every field is checked before the payload is handed out. The declared length is converted
  to a signed int first; a sum past the int range cannot equal the length of a slice.
  */
  function Decode(buf: seq<byte>, maxPayload: int): Result<Activation> {
    if |buf| < FIXED_LEN || buf[..8] != PREFIX then Err
    else if buf[15] > MAX_NDIM || |buf| < LenAt(buf) + LEN_LEN then Err
    else
      var h, at := ReadHeader(buf), LenAt(buf);
      var n := Wrap64(Get64(buf[at..]));
      if !ShapeOk(h.shape) || n > maxPayload || at + LEN_LEN + n != |buf| || ExpectedBytes(h) != Ok(n) then Err
      else Ok(Activation(h, buf[at + LEN_LEN..]))
  }

  // ---------------------------------------------------------------- the bijection

  lemma {:induction false} ReadShapeBytes(shape: seq<uint32>, tail: seq<byte>)
    ensures ReadShape(ShapeBytes(shape) + tail, |shape|) == shape
  {
    if shape == [] {
    } else {
      var rest := ShapeBytes(shape[1..]) + tail;
      assert ShapeBytes(shape) + tail == Put32(shape[0]) + rest;
      Get32Put(shape[0], rest);
      ReadShapeBytes(shape[1..], tail);
    }
  }

  lemma {:induction false} ShapeBytesRead(buf: seq<byte>, ndim: nat)
    requires |buf| >= 4 * ndim
    ensures ShapeBytes(ReadShape(buf, ndim)) == buf[..4 * ndim]
  {
    if ndim == 0 {
    } else {
      Put32Get(buf);
      ShapeBytesRead(buf[4..], ndim - 1);
      assert buf[..4 * ndim] == buf[..4] + buf[4..][..4 * (ndim - 1)];
    }
  }

  lemma FixedReads(h: Header, tail: seq<byte>)
    requires |h.shape| < 256
    ensures var f := Fixed(h) + tail;
            Get16(f) == h.stageID && Get32(f[2..]) == h.tokenIndex && f[6] == h.dtype && f[7] == |h.shape|
  {
    var f := Fixed(h) + tail;
    assert f == Put16(h.stageID) + (Put32(h.tokenIndex) + [h.dtype, |h.shape|] + tail);
    Get16Put(h.stageID, Put32(h.tokenIndex) + [h.dtype, |h.shape|] + tail);
    assert f[2..] == Put32(h.tokenIndex) + ([h.dtype, |h.shape|] + tail);
    Get32Put(h.tokenIndex, [h.dtype, |h.shape|] + tail);
  }

  lemma ReadsFixed(f: seq<byte>, h: Header)
    requires |f| >= 8 && |h.shape| < 256
    requires h.stageID == Get16(f) && h.tokenIndex == Get32(f[2..]) && h.dtype == f[6] && |h.shape| == f[7]
    ensures Fixed(h) == f[..8]
  {
    Put16Get(f);
    Put32Get(f[2..]);
    assert f[..8] == f[..2] + f[2..][..4] + [f[6], f[7]];
  }

  /** Where the pieces of a concatenation start. */
  lemma Parts(a: seq<byte>, b: seq<byte>, c: seq<byte>, d: seq<byte>, e: seq<byte>)
    ensures var all := a + b + c + d + e;
            && all[..|a|] == a && all[|a|..] == b + (c + d + e)
            && all[|a| + |b|..] == c + (d + e)
            && all[|a| + |b| + |c|..] == d + e
            && all[|a| + |b| + |c| + |d|..] == e
  {
    assert a + b + c + d + e == a + (b + (c + d + e));
    assert a + b + c + d + e == a + b + (c + (d + e));
    assert a + b + c + d + e == a + b + c + (d + e);
  }

  /** A sequence is its consecutive pieces. */
  lemma Pieces(s: seq<byte>, i: nat, j: nat, k: nat, l: nat)
    requires i <= j <= k <= l <= |s|
    ensures s == s[..i] + s[i..][..j - i] + s[j..][..k - j] + s[k..][..l - k] + s[l..]
  {
    assert s[..j] == s[..i] + s[i..][..j - i];
    assert s[..k] == s[..j] + s[j..][..k - j];
    assert s[..l] == s[..k] + s[k..][..l - k];
  }

  lemma LayoutParts(h: Header, payload: seq<byte>)
    requires WellFormed(h, payload)
    ensures var buf, at := Layout(h, payload), FIXED_LEN + 4 * |h.shape|;
            && buf[..8] == PREFIX
            && buf[8..] == Fixed(h) + (ShapeBytes(h.shape) + Put64(|payload|) + payload)
            && buf[FIXED_LEN..] == ShapeBytes(h.shape) + (Put64(|payload|) + payload)
            && buf[at..] == Put64(|payload|) + payload
            && buf[at + LEN_LEN..] == payload
  {
    Parts(PREFIX, Fixed(h), ShapeBytes(h.shape), Put64(|payload|), payload);
  }

  lemma LayoutHeader(h: Header, payload: seq<byte>)
    requires WellFormed(h, payload)
    ensures var buf := Layout(h, payload);
            buf[15] == |h.shape| && LenAt(buf) == FIXED_LEN + 4 * |h.shape| && ReadHeader(buf) == h
  {
    var buf := Layout(h, payload);
    LayoutParts(h, payload);
    var tail := ShapeBytes(h.shape) + Put64(|payload|) + payload;
    hide Layout, WellFormed;
    FixedReads(h, tail);
    assert buf[10..] == buf[8..][2..] && buf[14] == buf[8..][6] && buf[15] == buf[8..][7];
    ReadShapeBytes(h.shape, Put64(|payload|) + payload);
  }

  /** A frame of a well-formed activation decodes to it, within the payload cap. */
  lemma DecodeLayout(h: Header, payload: seq<byte>, maxPayload: int)
    requires WellFormed(h, payload) && |payload| <= maxPayload
    ensures Decode(Layout(h, payload), maxPayload) == Ok(Activation(h, payload))
  {
    LayoutParts(h, payload);
    LayoutHeader(h, payload);
    Get64Put(|payload|, payload);
    hide Layout, ReadHeader;
  }

  lemma AcceptedParts(buf: seq<byte>, maxPayload: int)
    requires Decode(buf, maxPayload).Ok?
    ensures |buf| >= FIXED_LEN && buf[..8] == PREFIX && LenAt(buf) + LEN_LEN <= |buf|
    ensures var a := Decode(buf, maxPayload).value;
            && a == Activation(ReadHeader(buf), buf[LenAt(buf) + LEN_LEN..])
            && WellFormed(a.header, a.payload) && |a.payload| <= maxPayload
            && Get64(buf[LenAt(buf)..]) == |a.payload|
  {
    hide ReadHeader, Get64, Product;
  }

  lemma HeaderBytes(buf: seq<byte>)
    requires |buf| >= FIXED_LEN && LenAt(buf) <= |buf|
    ensures Fixed(ReadHeader(buf)) == buf[8..][..8]
    ensures ShapeBytes(ReadHeader(buf).shape) == buf[FIXED_LEN..][..LenAt(buf) - FIXED_LEN]
  {
    assert buf[8..][2..] == buf[10..];
    ReadsFixed(buf[8..], ReadHeader(buf));
    ShapeBytesRead(buf[FIXED_LEN..], buf[15]);
  }

  /** An accepted buffer is the frame of what it decoded to, byte for byte. */
  lemma LayoutDecode(buf: seq<byte>, maxPayload: int)
    requires Decode(buf, maxPayload).Ok?
    ensures var a := Decode(buf, maxPayload).value;
            WellFormed(a.header, a.payload) && |a.payload| <= maxPayload && Layout(a.header, a.payload) == buf
  {
    hide Decode, ReadHeader, Get64, Put64, WellFormed, ShapeBytes, Fixed;
    AcceptedParts(buf, maxPayload);
    var at := LenAt(buf);
    HeaderBytes(buf);
    Put64Get(buf[at..]);
    Pieces(buf, 8, FIXED_LEN, at, at + LEN_LEN);
  }

  /** Frames within the cap and the buffers Decode accepts are in one-to-one correspondence. */
  lemma FramesAreABijection(buf: seq<byte>, a: Activation, maxPayload: int)
    ensures Decode(buf, maxPayload) == Ok(a) <==> Encode(a.header, a.payload) == Ok(buf) && |a.payload| <= maxPayload
  {
    if Decode(buf, maxPayload).Ok? {
      LayoutDecode(buf, maxPayload);
    }
    if Encode(a.header, a.payload) == Ok(buf) && |a.payload| <= maxPayload {
      DecodeLayout(a.header, a.payload, maxPayload);
    }
  }

  // ---------------------------------------------------------------- on the wire

  /** The known element sizes; every other dtype is refused. */
  lemma DTypeSizesAre(d: byte)
    ensures DTypeSize(1) == 4 && DTypeSize(2) == 2 && DTypeSize(3) == 2 && DTypeSize(4) == 1
    ensures DTypeSize(5) == 1 && DTypeSize(6) == 4 && DTypeSize(7) == 8
    ensures DTypeSize(d) == 0 <==> d == 0 || d > 7
  {
  }

  /** Where every field of a frame is, byte by byte. */
  lemma LayoutMeans(h: Header, payload: seq<byte>)
    requires WellFormed(h, payload)
    ensures var b, n := Layout(h, payload), |h.shape|;
            && |b| == 24 + 4 * n + |payload|
            && b[..8] == [0x53, 0x4F, 0x46, 0x4D, 1, 1, 0, 0]
            && 256 * (b[8] as int) + b[9] == h.stageID
            && 16777216 * (b[10] as int) + 65536 * (b[11] as int) + 256 * (b[12] as int) + b[13] == h.tokenIndex
            && b[14] == h.dtype && b[15] == n
            && Get64(b[16 + 4 * n..]) == |payload| && b[24 + 4 * n..] == payload
  {
    var b, n := Layout(h, payload), |h.shape|;
    LayoutHeader(h, payload);
    LayoutParts(h, payload);
    hide Layout, WellFormed, Get32, Get16, Get64, Put64, ReadShape, ShapeBytes, Fixed;
    Get32Means(b[8..]);
    Get32Means(b[10..]);
    Get64Put(|payload|, payload);
  }

  /** And where the dimensions are. */
  lemma ShapeMeans(h: Header, payload: seq<byte>, i: nat)
    requires WellFormed(h, payload) && i < |h.shape|
    ensures var b := Layout(h, payload);
            h.shape[i] == 16777216 * (b[16 + 4 * i] as int) + 65536 * (b[17 + 4 * i] as int)
                          + 256 * (b[18 + 4 * i] as int) + b[19 + 4 * i]
  {
    var b := Layout(h, payload);
    LayoutHeader(h, payload);
    hide Layout, WellFormed, Get32, ShapeBytes, Fixed;
    ReadShapeAt(b[FIXED_LEN..], |h.shape|, i);
    Get32Means(b[FIXED_LEN..][4 * i..]);
  }

  lemma {:induction false} ReadShapeAt(buf: seq<byte>, ndim: nat, i: nat)
    requires |buf| >= 4 * ndim && i < ndim
    ensures ReadShape(buf, ndim)[i] == Get32(buf[4 * i..])
  {
    hide Get32;
    if i > 0 {
      ReadShapeAt(buf[4..], ndim - 1, i - 1);
      assert buf[4..][4 * (i - 1)..] == buf[4 * i..];
    } else {
      assert buf[0..] == buf;
    }
  }

  /** The number of elements, without any wrapping. */
  function Elements(shape: seq<uint32>): nat {
    if shape == [] then 1 else shape[0] * Elements(shape[1..])
  }

  lemma {:induction false} ProductIsElements(n: nat, shape: seq<uint32>)
    requires n > 0 && (forall i :: 0 <= i < |shape| ==> shape[i] >= 1) && n * Elements(shape) < TWO63
    ensures Product(n, shape) == n * Elements(shape) && Elements(shape) >= 1
    decreases |shape|
  {
    if shape != [] {
      var d, rest := shape[0], Elements(shape[1..]);
      ElementsPositive(shape[1..]);
      assert n * (d * rest) == (n * d) * rest;
      assert n * d >= 1 && (n * d) * rest >= n * d;
      ProductIsElements(n * d, shape[1..]);
    }
  }

  lemma ProductPositive(a: int, b: int)
    requires a >= 1 && b >= 1
    ensures a * b >= 1
  {
    assert (a - 1) * b >= 0;
  }

  lemma {:induction false} ElementsPositive(shape: seq<uint32>)
    requires forall i :: 0 <= i < |shape| ==> shape[i] >= 1
    ensures Elements(shape) >= 1
  {
    if shape != [] {
      ElementsPositive(shape[1..]);
      ProductPositive(shape[0], Elements(shape[1..]));
    }
  }

  /** A tensor below 2^63 bytes has its element size times its elements, of at most 8 axes of 2^24. */
  lemma WellFormedMeans(h: Header, payload: seq<byte>)
    requires DTypeSize(h.dtype) != 0 && (forall i :: 0 <= i < |h.shape| ==> h.shape[i] >= 1)
    requires DTypeSize(h.dtype) * Elements(h.shape) < TWO63
    ensures WellFormed(h, payload) <==>
            && |h.shape| <= 8 && (forall i :: 0 <= i < |h.shape| ==> h.shape[i] <= 16777216)
            && |payload| == DTypeSize(h.dtype) * Elements(h.shape)
  {
    ProductIsElements(DTypeSize(h.dtype), h.shape);
    hide Product, Elements, DTypeSize;
  }

  // ---------------------------------------------------------------- the loops

  method ExpectedBytesLoop(h: Header) returns (r: Result<int>)
    ensures r == ExpectedBytes(h)
  {
    if DTypeSize(h.dtype) == 0 {
      return Err;
    }
    var n := DTypeSize(h.dtype);
    for i := 0 to |h.shape|
      invariant Product(n, h.shape[i..]) == Product(DTypeSize(h.dtype), h.shape)
    {
      assert h.shape[i..][1..] == h.shape[i + 1..];
      n := Wrap64(n * h.shape[i]);
    }
    return Ok(n);
  }

  method ValidateShape(shape: seq<uint32>) returns (ok: bool)
    ensures ok <==> ShapeOk(shape)
    ensures ok <==> |shape| <= 8 && forall i :: 0 <= i < |shape| ==> shape[i] <= 16777216
  {
    if |shape| > MAX_NDIM {
      return false;
    }
    for i := 0 to |shape|
      invariant forall k :: 0 <= k < i ==> shape[k] <= MAX_DIM
    {
      if shape[i] > MAX_DIM {
        return false;
      }
    }
    return true;
  }

  method EncodeActivation(h: Header, payload: seq<byte>) returns (r: Result<seq<byte>>)
    requires |payload| < TWO63
    ensures r == Encode(h, payload)
  {
    var ok := ValidateShape(h.shape);
    if !ok {
      return Err;
    }
    var want := ExpectedBytesLoop(h);
    if want.Err? || |payload| != want.value {
      return Err;
    }
    var buf := PREFIX + Fixed(h);
    for i := 0 to |h.shape|
      invariant buf + ShapeBytes(h.shape[i..]) == PREFIX + Fixed(h) + ShapeBytes(h.shape)
    {
      assert h.shape[i..][1..] == h.shape[i + 1..];
      assert buf + (Put32(h.shape[i]) + ShapeBytes(h.shape[i + 1..])) ==
          buf + Put32(h.shape[i]) + ShapeBytes(h.shape[i + 1..]);
      buf := buf + Put32(h.shape[i]);
    }
    assert buf == PREFIX + Fixed(h) + ShapeBytes(h.shape);
    buf := buf + Put64(|payload|);
    buf := buf + payload;
    return Ok(buf);
  }

  /** magic, version, message type and reserved bytes. */
  method CheckPrefix(buf: seq<byte>) returns (ok: bool)
    requires |buf| >= FIXED_LEN
    ensures ok <==> buf[..8] == PREFIX
  {
    assert forall k :: 0 <= k < 8 ==> buf[..8][k] == buf[k];
    ok := buf[0] == PREFIX[0] && buf[1] == PREFIX[1] && buf[2] == PREFIX[2] && buf[3] == PREFIX[3]
          && buf[4] == 1 && buf[5] == 1 && buf[6] == 0 && buf[7] == 0;
  }

  method ReadShapeLoop(buf: seq<byte>, ndim: nat) returns (shape: seq<uint32>, off: nat)
    requires |buf| >= FIXED_LEN + 4 * ndim
    ensures shape == ReadShape(buf[FIXED_LEN..], ndim) && off == FIXED_LEN + 4 * ndim
  {
    shape, off := [], FIXED_LEN;
    for i := 0 to ndim
      invariant off == FIXED_LEN + 4 * i
      invariant shape + ReadShape(buf[off..], ndim - i) == ReadShape(buf[FIXED_LEN..], ndim)
    {
      assert buf[off..][4..] == buf[off + 4..];
      var d := Get32(buf[off..]);
      assert shape + ([d] + ReadShape(buf[off + 4..], ndim - i - 1)) ==
          shape + [d] + ReadShape(buf[off + 4..], ndim - i - 1);
      shape := shape + [d];
      off := off + 4;
    }
  }

  method DecodeActivation(buf: seq<byte>, maxPayload: int) returns (r: Result<Activation>)
    ensures r == Decode(buf, maxPayload)
  {
    if |buf| < FIXED_LEN {
      return Err;
    }
    var ok := CheckPrefix(buf);
    if !ok {
      return Err;
    }
    var ndim: int := buf[15];
    if ndim > MAX_NDIM || |buf| < FIXED_LEN + 4 * ndim + LEN_LEN {
      return Err;
    }
    var shape, off := ReadShapeLoop(buf, ndim);
    var h := Header(Get16(buf[8..]), Get32(buf[10..]), buf[14], shape);
    assert h == ReadHeader(buf) && off == LenAt(buf);
    hide ReadHeader, ReadShape, Product, Get16, Get32, Get64;
    ok := ValidateShape(h.shape);
    if !ok {
      return Err;
    }
    var nBytes := Wrap64(Get64(buf[off..]));
    off := off + LEN_LEN;
    if nBytes > maxPayload || off + nBytes != |buf| {
      return Err;
    }
    var want := ExpectedBytesLoop(h);
    if want.Err? || nBytes != want.value {
      return Err;
    }
    assert buf[off..off + nBytes] == buf[off..];
    return Ok(Activation(h, buf[off..off + nBytes]));
  }
}
