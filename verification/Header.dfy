/** THeaderTransport: dialect detection, padded header blocks, and replies in the dialect detected. */
module Header {
  import opened Bytes
  import opened Values
  import opened Varint
  import opened Configuration
  import opened Wire
  import opened Codec
  import opened RoundTrip
  import opened Messages
  import Framed

  const HEADER_MAGIC := 0x0fff
  const TRANSFORM_NONE := 0
  const TRANSFORM_ZLIB := 1
  const MAX_TRANSFORMS := 1
  const INFO_KEY_VALUE := 1
  const BINARY_PROTOCOL := 0
  const COMPACT_PROTOCOL := 2
  const META_SIZE := 10
  const MAX_U16 := 0xffff

  datatype ClientType = Unknown | Headers | FramedBinary | UnframedBinary | FramedCompact | UnframedCompact

  type HeaderMap = map<ByteSeq, ByteSeq>
  datatype Pair = Pair(key: ByteSeq, value: ByteSeq)

  /**
   * frame is what is left of the frame being read, None between frames; stream is what has not been
   * read off the transport below, and sent is what has been written to it. An unallocated write
   * buffer is an empty one.
   */
  datatype Transport = Transport(
    cfg: Config, cfgTransforms: seq<int>,
    clientType: ClientType, protocolID: int, sequenceID: int, flags: int,
    readHeaders: HeaderMap, stream: ByteSeq, frame: Option<ByteSeq>,
    writeHeaders: HeaderMap, writeTransforms: seq<int>, writeBuffer: ByteSeq, sent: ByteSeq)
  {
    predicate IsFramed() { clientType.Headers? || clientType.FramedBinary? || clientType.FramedCompact? }
    predicate IsUnframed() { clientType.UnframedBinary? || clientType.UnframedCompact? }
    predicate NeedReadFrame() { clientType.Unknown? || (IsFramed() && frame == None) }

    /** The protocol id that goes with the dialect; framed and unframed messages name their own. */
    function ProtocolId(): int {
      match clientType
      case FramedBinary | UnframedBinary => BINARY_PROTOCOL
      case FramedCompact | UnframedCompact => COMPACT_PROTOCOL
      case Unknown | Headers => protocolID
    }
  }

  // ---- reading a header block ---------------------------------------------

  function ReadPairs(r: Reader, count: int, headers: HeaderMap): (x: Read<HeaderMap>)
    ensures x.Ok? ==> Advances(r, x.value.1, 0)
    decreases count
  {
    if count <= 0 then Ok((headers, r))
    else
      var (key, r1) :- ReadString(r);
      var (value, r2) :- ReadString(r1);
      ReadPairs(r2, count - 1, headers[key := value])
  }

  /** Info sections up to the end of the block or the first one of an unknown kind, padding included. */
  function ReadInfo(r: Reader, headers: HeaderMap): Result<HeaderMap>
    decreases |r.input|
  {
    match TakeVarint32(r)
    case Err(e) => if e.EndOfFile? then Ok(headers) else Err(e)
    case Ok((infoType, r1)) =>
      if infoType != INFO_KEY_VALUE then Ok(headers)
      else
        var (count, r2) :- TakeVarint32(r1);
        var (headers', r3) :- ReadPairs(r2, count, headers);
        ReadInfo(r3, headers')
  }

  function ReadTransforms(r: Reader, cfgTransforms: seq<int>): (x: Read<seq<int>>)
    ensures x.Ok? ==> Advances(r, x.value.1, 1)
  {
    var (count, r1) :- TakeVarint32(r);
    var _ :- CheckContainerSize(count, 1, r1.Remaining(), r.cfg);
    if count > MAX_TRANSFORMS then Err(SizeLimit)
    else if count == 0 then Ok((cfgTransforms, r1))
    else
      var (id, r2) :- TakeVarint32(r1);
      if id == TRANSFORM_ZLIB then
        Ok((if id in cfgTransforms then cfgTransforms else cfgTransforms + [id], r2))
      else if id == TRANSFORM_NONE then Ok((cfgTransforms, r2))
      else Err(InvalidData)
  }

  function HeaderReader(cfg: Config, block: ByteSeq): Reader {
    Reader(Compact, cfg, true, block, [], 0, None)
  }

  /** The frame held by t, known to start with the header magic. */
  function ParseHeaders(t: Transport): (x: Result<Transport>)
    requires t.frame.Some?
    ensures x.Ok? ==> x.value.stream == t.stream
  {
    var f := t.frame.value;
    if |f| < META_SIZE then Err(EndOfFile)
    else
      var length := GetU16(f[8..10]) * 4;
      var body := f[META_SIZE..];
      if |body| < length then Err(SizeLimit)
      else
        var (protocolID, r1) :- TakeVarint32(HeaderReader(t.cfg, body[..length]));
        var (transforms, r2) :- ReadTransforms(r1, t.cfgTransforms);
        var headers :- ReadInfo(r2, map[]);
        Ok(t.(flags := GetU16(f[2..4]), sequenceID := ToI32(GetU32(f[4..8])), protocolID := protocolID,
              writeTransforms := transforms, readHeaders := headers, frame := Some(body[length..])))
  }

  /** What the first word of the frame just taken says it holds. */
  function ClassifyFrame(t: Transport): (x: Result<Transport>)
    requires t.frame.Some? && |t.frame.value| >= 4
    ensures x.Ok? ==> x.value.stream == t.stream
  {
    var f := t.frame.value;
    var version := GetU32(f[..4]);
    if version / 0x1_0000 == HEADER_MAGIC then ParseHeaders(t.(clientType := Headers))
    else if version / 0x1_0000 == VERSION_1 / 0x1_0000 then Ok(t.(clientType := FramedBinary))
    else if f[0] == COMPACT_PROTOCOL_ID && f[1] % 32 == COMPACT_VERSION then Ok(t.(clientType := FramedCompact))
    else Err(NotImplemented)
  }

  function ReadFrame(t: Transport): (x: Result<Transport>)
    ensures x.Ok? ==> |x.value.stream| <= |t.stream|
    ensures x.Ok? && x.value.frame != t.frame ==> |x.value.stream| < |t.stream|
  {
    if !t.NeedReadFrame() then Ok(t)
    else if |t.stream| < 4 then Err(EndOfFile)
    else
      var word := GetU32(t.stream[..4]);
      if word / 0x1_0000 == VERSION_1 / 0x1_0000 then Ok(t.(clientType := UnframedBinary))
      else if t.stream[0] == COMPACT_PROTOCOL_ID && t.stream[1] % 32 == COMPACT_VERSION then
        Ok(t.(clientType := UnframedCompact))
      else if word > Framed.THEADER_MAX_FRAME_SIZE || word > t.cfg.FrameLimit() then Err(SizeLimit)
      else if word < 4 then Err(InvalidData)
      else if |t.stream| - 4 < word then Err(EndOfFile)
      else
        ClassifyFrame(t.(frame := Some(t.stream[4..4 + word]), stream := t.stream[4 + word..]))
  }

  /** The frame is given up once its last byte has been handed out. */
  function EndIfDone(t: Transport): Transport {
    if t.frame == Some([]) then t.(frame := None) else t
  }

  /** One Read with a buffer of n bytes; frames without payload are passed over. */
  function ReadBytes(t: Transport, n: nat): Result<(ByteSeq, Transport)>
    decreases |t.stream|, if t.frame.Some? then 1 else 0
  {
    var t1 :- ReadFrame(t);
    if t1.frame == None then
      if t1.stream == [] && n > 0 then Err(EndOfFile)
      else Ok((Framed.Upto(t1.stream, n), t1.(stream := Framed.After(t1.stream, n))))
    else if t1.frame.value != [] || n == 0 then
      Ok((Framed.Upto(t1.frame.value, n), EndIfDone(t1.(frame := Some(Framed.After(t1.frame.value, n))))))
    else
      ReadBytes(t1.(frame := None), n)
  }

  // ---- writing ------------------------------------------------------------

  function EncVarints(xs: seq<int>): ByteSeq {
    if xs == [] then [] else Varint32(ToI32(xs[0])) + EncVarints(xs[1..])
  }

  function EncText(s: ByteSeq): ByteSeq { Varint32(ToI32(|s|)) + s }

  function EncPairs(order: seq<Pair>): ByteSeq {
    if order == [] then [] else EncText(order[0].key) + EncText(order[0].value) + EncPairs(order[1..])
  }

  function EncInfo(order: seq<Pair>): ByteSeq {
    if order == [] then [] else Varint32(INFO_KEY_VALUE) + Varint32(ToI32(|order|)) + EncPairs(order)
  }

  function HeaderFields(protocolID: int, transforms: seq<int>, order: seq<Pair>): ByteSeq {
    Varint32(ToI32(protocolID)) + Varint32(ToI32(|transforms|)) + EncVarints(transforms) + EncInfo(order)
  }

  /** Zero to three zero bytes, up to a multiple of four. */
  function Padding(n: nat): (p: ByteSeq)
    ensures |p| < 4 && (n + |p|) % 4 == 0
    ensures forall i :: 0 <= i < |p| ==> p[i] == 0
  {
    if n % 4 == 0 then [] else seq(4 - n % 4, i => 0)
  }

  function HeaderBlock(protocolID: int, transforms: seq<int>, order: seq<Pair>): (b: ByteSeq)
    ensures |b| % 4 == 0
  {
    var fields := HeaderFields(protocolID, transforms, order);
    fields + Padding(|fields|)
  }

  function HeaderFrame(t: Transport, order: seq<Pair>): ByteSeq {
    var block := HeaderBlock(t.protocolID, t.writeTransforms, order);
    PutU16(HEADER_MAGIC) + PutU16(ToU16(t.flags)) + PutU32(ToU32(t.sequenceID)) + PutU16(ToU16(|block| / 4))
    + block + t.writeBuffer
  }

  /** No compression is configured; the deflated form of a payload is not modelled. */
  predicate Uncompressed(t: Transport) {
    forall i :: 0 <= i < |t.writeTransforms| ==> t.writeTransforms[i] != TRANSFORM_ZLIB
  }

  predicate AllNone(transforms: seq<int>) {
    forall i :: 0 <= i < |transforms| ==> transforms[i] == TRANSFORM_NONE
  }

  /** Flush, with order the order in which the header map happens to be walked. */
  function Flush(t: Transport, order: seq<Pair>): Result<Transport>
    requires Uncompressed(t)
  {
    if t.writeBuffer == [] then Ok(t)
    else if t.IsUnframed() then Ok(t.(sent := t.sent + t.writeBuffer, writeBuffer := []))
    else if t.clientType.FramedBinary? || t.clientType.FramedCompact? then
      if !Framed.WithinLimit(t.cfg, |t.writeBuffer|) then Err(SizeLimit)
      else Ok(t.(sent := t.sent + Framed.Frame(t.writeBuffer), writeBuffer := []))
    else
      var f := HeaderFrame(t, order);
      if |HeaderBlock(t.protocolID, t.writeTransforms, order)| / 4 > MAX_U16 then Err(SizeLimit)
      else if !AllNone(t.writeTransforms) then Err(InvalidData)
      else if !Framed.WithinLimit(t.cfg, |f|) then Err(SizeLimit)
      else Ok(t.(clientType := Headers, sent := t.sent + Framed.Frame(f), writeBuffer := []))
  }

  /** order lists every entry of m once. */
  ghost predicate Enumerates(order: seq<Pair>, m: HeaderMap) {
    && (forall i :: 0 <= i < |order| ==> order[i].key in m && m[order[i].key] == order[i].value)
    && (forall i, j :: 0 <= i < j < |order| ==> order[i].key != order[j].key)
    && |order| == |m|
  }
}
