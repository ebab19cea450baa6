/** The transport object itself, each method proved to take the step of the same name. */
module HeaderTransport {
  import opened Bytes
  import opened Values
  import opened Varint
  import opened Configuration
  import opened Wire
  import opened Messages
  import Framed
  import opened Header
  import opened Protocol

  class THeaderTransport {
    const cfg: Config
    const cfgTransforms: seq<int>

    var sequenceID: int
    var flags: int
    var clientType: ClientType
    var protocolID: int

    var readHeaders: HeaderMap
    var writeHeaders: HeaderMap

    /** The transport below: bytes still to come up and bytes sent down. */
    var stream: ByteSeq
    var sent: ByteSeq

    var frame: Option<ByteSeq>
    var writeBuffer: ByteSeq
    var writeTransforms: seq<int>

    ghost function State(): Transport
      reads this
    {
      Transport(cfg, cfgTransforms, clientType, protocolID, sequenceID, flags, readHeaders, stream, frame,
                writeHeaders, writeTransforms, writeBuffer, sent)
    }

    ghost predicate Valid()
      reads this
    {
      IsI32(protocolID) && IsI32(sequenceID)
    }

    constructor (cfg: Config, cfgTransforms: seq<int>, protocolID: int, stream: ByteSeq)
      requires IsI32(protocolID)
      ensures Valid()
      ensures State() == Transport(cfg, cfgTransforms, Unknown, protocolID, 0, 0, map[], stream, None,
                                   map[], cfgTransforms, [], [])
    {
      this.cfg, this.cfgTransforms, this.protocolID, this.stream := cfg, cfgTransforms, protocolID, stream;
      sequenceID, flags, clientType, readHeaders, writeHeaders := 0, 0, Unknown, map[], map[];
      sent, frame, writeBuffer, writeTransforms := [], None, [], cfgTransforms;
    }

    method ParseHeaders() returns (error: Option<Error>)
      requires Valid() && frame.Some?
      modifies this
      ensures match Header.ParseHeaders(old(State()))
              case Err(e) => error == Some(e)
              case Ok(t) => error == None && State() == t && Valid()
    {
      hide TakeVarint32, ReadTransforms, ReadInfo, GetU16, GetU32;
      var f := frame.value;
      if |f| < META_SIZE {
        return Some(EndOfFile);
      }
      flags := GetU16(f[2..4]);
      sequenceID := ToI32(GetU32(f[4..8]));
      var length := GetU16(f[8..10]) * 4;
      var body := f[META_SIZE..];
      if |body| < length {
        return Some(SizeLimit);
      }
      var hp := new TProtocol(Compact, cfg, true, body[..length]);
      frame := Some(body[length..]);
      var id;
      id, error := hp.NextVarint32();
      if error != None {
        return;
      }
      protocolID := id;
      var transforms;
      transforms, error := ParseTransforms(hp, cfgTransforms);
      if error != None {
        return;
      }
      writeTransforms := transforms;
      var headers;
      headers, error := ParseInfo(hp);
      if error == None {
        readHeaders := headers;
      }
    }

    /** Decides what the frame just taken holds. */
    method Classify() returns (error: Option<Error>)
      requires Valid() && frame.Some? && |frame.value| >= 4
      modifies this
      ensures match ClassifyFrame(old(State()))
              case Err(e) => error == Some(e)
              case Ok(t) => error == None && State() == t && Valid()
    {
      hide Header.ParseHeaders, GetU32;
      var f := frame.value;
      var version := GetU32(f[..4]);
      if version / 0x1_0000 == HEADER_MAGIC {
        clientType := Headers;
        error := ParseHeaders();
        return;
      }
      if version / 0x1_0000 == VERSION_1 / 0x1_0000 {
        clientType := FramedBinary;
        return None;
      }
      if f[0] == COMPACT_PROTOCOL_ID && f[1] % 32 == COMPACT_VERSION {
        clientType := FramedCompact;
        return None;
      }
      frame := None;
      error := Some(NotImplemented);
    }

    method ReadFrame() returns (error: Option<Error>)
      requires Valid()
      modifies this
      ensures match Header.ReadFrame(old(State()))
              case Err(e) => error == Some(e)
              case Ok(t) => error == None && State() == t && Valid()
    {
      hide ClassifyFrame, GetU32;
      var framed := clientType.Headers? || clientType.FramedBinary? || clientType.FramedCompact?;
      if !(clientType.Unknown? || (framed && frame == None)) {
        return None;
      }
      if |stream| < 4 {
        return Some(EndOfFile);
      }
      var frameSize := GetU32(stream[..4]);
      if frameSize / 0x1_0000 == VERSION_1 / 0x1_0000 {
        clientType := UnframedBinary;
        return None;
      }
      if stream[0] == COMPACT_PROTOCOL_ID && stream[1] % 32 == COMPACT_VERSION {
        clientType := UnframedCompact;
        return None;
      }
      if frameSize > Framed.THEADER_MAX_FRAME_SIZE || frameSize > cfg.FrameLimit() {
        return Some(SizeLimit);
      }
      if frameSize < 4 {
        return Some(InvalidData);
      }
      if |stream| - 4 < frameSize {
        return Some(EndOfFile);
      }
      frame := Some(stream[4..4 + frameSize]);
      stream := stream[4 + frameSize..];
      error := Classify();
    }

    /** One iteration per frame without payload, each taking bytes off the stream. */
    method Read(n: nat) returns (data: ByteSeq, error: Option<Error>)
      requires Valid()
      modifies this
      ensures match ReadBytes(old(State()), n)
              case Err(e) => error == Some(e)
              case Ok((d, t)) => error == None && data == d && State() == t && Valid()
    {
      hide Header.ReadFrame;
      while true
        invariant Valid() && ReadBytes(State(), n) == ReadBytes(old(State()), n)
        decreases |stream|, if frame.Some? then 1 else 0
      {
        error := ReadFrame();
        if error != None {
          return [], error;
        }
        if frame == None {
          if stream == [] && n > 0 {
            return [], Some(EndOfFile);
          }
          data := Framed.Upto(stream, n);
          stream := Framed.After(stream, n);
          return;
        }
        if frame.value != [] || n == 0 {
          data := Framed.Upto(frame.value, n);
          frame := Some(Framed.After(frame.value, n));
          if frame.value == [] {
            frame := None;
          }
          return;
        }
        frame := None;
      }
    }

    method Write(b: ByteSeq)
      modifies this`writeBuffer
      ensures writeBuffer == old(writeBuffer) + b
    {
      writeBuffer := writeBuffer + b;
    }

    method SetWriteHeader(key: ByteSeq, value: ByteSeq)
      modifies this`writeHeaders
      ensures writeHeaders == old(writeHeaders)[key := value]
    {
      writeHeaders := writeHeaders[key := value];
    }

    /** Sends one frame, unless a reader with these limits would refuse it. */
    method SendFrame(payload: ByteSeq) returns (error: Option<Error>)
      modifies this`sent
      ensures Framed.WithinLimit(cfg, |payload|) ==> error == None && sent == old(sent) + Framed.Frame(payload)
      ensures !Framed.WithinLimit(cfg, |payload|) ==> error == Some(SizeLimit) && sent == old(sent)
    {
      if |payload| > Framed.THEADER_MAX_FRAME_SIZE || |payload| > cfg.FrameLimit() {
        return Some(SizeLimit);
      }
      sent := sent + (PutU32(ToU32(|payload|)) + payload);
      error := None;
    }

    method Flush() returns (error: Option<Error>, ghost order: seq<Pair>)
      requires Valid() && Uncompressed(State())
      modifies this
      ensures Valid() && Enumerates(order, writeHeaders) && writeHeaders == old(writeHeaders)
      ensures match Header.Flush(old(State()), order)
              case Err(e) => error == Some(e) && sent == old(sent)
              case Ok(t) => error == None && State() == t
    {
      hide HeaderBlock, Enumerates, PutU32, Framed.Frame, Framed.WithinLimit;
      var block;
      block, order := BuildBlock(cfg, protocolID, writeTransforms, writeHeaders);
      error := None;
      var buffer := writeBuffer;
      writeBuffer := [];
      if buffer == [] {
        return;
      }
      match clientType {
        case UnframedBinary | UnframedCompact =>
          sent := sent + buffer;
        case FramedBinary | FramedCompact =>
          error := SendFrame(buffer);
        case Unknown | Headers =>
          clientType := Headers;
          if |block| / 4 > MAX_U16 {
            error := Some(SizeLimit);
          } else if exists i :: 0 <= i < |writeTransforms| && writeTransforms[i] != TRANSFORM_NONE {
            error := Some(InvalidData);
          } else {
            error := SendFrame(PutU16(HEADER_MAGIC) + PutU16(ToU16(flags)) + PutU32(ToU32(sequenceID))
                               + PutU16(ToU16(|block| / 4)) + block + buffer);
          }
      }
    }
  }

  /** The header block, walking the header map in an order of its own choosing. */
  method BuildBlock(cfg: Config, protocolID: int, transforms: seq<int>, headers: HeaderMap)
    returns (block: ByteSeq, ghost order: seq<Pair>)
    requires IsI32(protocolID)
    ensures Enumerates(order, headers)
    ensures block == HeaderBlock(protocolID, transforms, order)
  {
    hide Varint32, EncVarints, EncInfo, Enumerates;
    var hp := new TProtocol(Compact, cfg, true, []);
    hp.EmitVarint32(protocolID);
    hp.EmitVarint32(ToI32(|transforms|));
    assert hp.output == Varint32(ToI32(protocolID)) + Varint32(ToI32(|transforms|));
    EmitVarints(hp, transforms);
    order := EmitInfo(hp, headers);
    block := hp.output + Padding(|hp.output|);
  }

  method EmitVarints(hp: TProtocol, xs: seq<int>)
    requires hp.Valid()
    modifies hp`output, hp.buffer
    ensures hp.output == old(hp.output) + EncVarints(xs)
  {
    hide Varint32;
    for i := 0 to |xs|
      invariant old(hp.output) + EncVarints(xs) == hp.output + EncVarints(xs[i..])
    {
      assert xs[i..][1..] == xs[i + 1..];
      hp.EmitVarint32(ToI32(xs[i]));
    }
    assert xs[|xs|..] == [];
  }

  method EmitInfo(hp: TProtocol, m: HeaderMap) returns (ghost order: seq<Pair>)
    requires hp.Valid() && hp.kind.Compact?
    modifies hp`output, hp.buffer
    ensures Enumerates(order, m)
    ensures hp.output == old(hp.output) + EncInfo(order)
  {
    hide Varint32, EncPairs;
    order := [];
    if m != map[] {
      hp.EmitVarint32(INFO_KEY_VALUE);
      hp.EmitVarint32(ToI32(|m|));
      order := EmitPairs(hp, m);
      assert m.Keys != {};
    }
  }

  method ParseTransforms(hp: TProtocol, cfgTransforms: seq<int>) returns (transforms: seq<int>, error: Option<Error>)
    requires hp.Valid() && hp.kind.Compact? && hp.sized
    modifies hp`input
    ensures Agrees(ReadTransforms(old(hp.Reading()), cfgTransforms), transforms, error, hp.Reading())
  {
    transforms := cfgTransforms;
    var count;
    count, error := hp.NextVarint32();
    if error != None {
      return;
    }
    var check := CheckContainerSize(count, 1, Some(|hp.input|), hp.cfg);
    if check.Err? {
      error := Some(check.error);
      return;
    }
    if count > MAX_TRANSFORMS {
      error := Some(SizeLimit);
      return;
    }
    if count > 0 {
      var id;
      id, error := hp.NextVarint32();
      if error != None {
        return;
      }
      if id == TRANSFORM_ZLIB {
        if id !in transforms {
          transforms := transforms + [id];
        }
      } else if id != TRANSFORM_NONE {
        error := Some(InvalidData);
      }
    }
  }

  method ParseInfo(hp: TProtocol) returns (headers: HeaderMap, error: Option<Error>)
    requires hp.Valid() && hp.kind.Compact?
    modifies hp`input
    ensures match ReadInfo(old(hp.Reading()), map[])
            case Err(e) => error == Some(e)
            case Ok(m) => error == None && headers == m
  {
    hide TakeVarint32, ReadString;
    headers := map[];
    while true
      invariant ReadInfo(hp.Reading(), headers) == ReadInfo(old(hp.Reading()), map[])
      decreases |hp.input|
    {
      var infoType;
      infoType, error := hp.NextVarint32();
      if error == Some(EndOfFile) {
        error := None;
        return;
      }
      if error != None || infoType != INFO_KEY_VALUE {
        return;
      }
      var count;
      count, error := hp.NextVarint32();
      if error != None {
        return;
      }
      headers, error := ParsePairs(hp, count, headers);
      if error != None {
        return;
      }
    }
  }

  method ParsePairs(hp: TProtocol, count: int, start: HeaderMap) returns (headers: HeaderMap, error: Option<Error>)
    requires hp.Valid()
    modifies hp`input
    ensures Agrees(ReadPairs(old(hp.Reading()), count, start), headers, error, hp.Reading())
  {
    hide ReadString;
    headers, error := start, None;
    var left := count;
    while left > 0
      invariant error == None
      invariant ReadPairs(hp.Reading(), left, headers) == ReadPairs(old(hp.Reading()), count, start)
    {
      var key, value;
      key, error := hp.ReadString();
      if error != None {
        return;
      }
      value, error := hp.ReadString();
      if error != None {
        return;
      }
      headers := headers[key := value];
      left := left - 1;
    }
  }

  method EmitPairs(hp: TProtocol, m: HeaderMap) returns (ghost order: seq<Pair>)
    requires hp.Valid() && hp.kind.Compact?
    modifies hp`output, hp.buffer
    ensures Enumerates(order, m)
    ensures hp.output == old(hp.output) + EncPairs(order)
  {
    hide Varint32;
    order := [];
    var left := m.Keys;
    assert EncPairs(order) == [];
    while left != {}
      invariant left <= m.Keys && |order| + |left| == |m|
      invariant forall i :: 0 <= i < |order| ==>
                  order[i].key in m && order[i].key !in left && m[order[i].key] == order[i].value
      invariant forall i, j :: 0 <= i < j < |order| ==> order[i].key != order[j].key
      invariant hp.output == old(hp.output) + EncPairs(order)
      decreases |left|
    {
      var key :| key in left;
      ghost var before := hp.output;
      hp.WriteString(key);
      assert hp.output == before + EncText(key);
      hp.WriteString(m[key]);
      assert hp.output == before + EncText(key) + EncText(m[key]);
      EncPairsAppend(order, Pair(key, m[key]));
      order := order + [Pair(key, m[key])];
      left := left - {key};
    }
  }

  lemma {:induction false} EncPairsAppend(order: seq<Pair>, p: Pair)
    ensures EncPairs(order + [p]) == EncPairs(order) + (EncText(p.key) + EncText(p.value))
  {
    if order == [] {
      assert [p][1..] == [];
    } else {
      assert (order + [p])[1..] == order[1..] + [p];
      EncPairsAppend(order[1..], p);
    }
  }
}
