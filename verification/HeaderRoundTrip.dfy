/** Frames flushed in headers mode are read back whole; every dialect is recognised as itself. */
module HeaderRoundTrip {
  import opened Bytes
  import opened Values
  import opened Varint
  import opened Configuration
  import opened Wire
  import opened Codec
  import opened RoundTrip
  import opened Messages
  import Framed
  import opened Header

  // ---- the header map -----------------------------------------------------

  /** The map after the entries of order have been stored one by one. */
  function Insert(m: HeaderMap, order: seq<Pair>): HeaderMap
    decreases |order|
  {
    if order == [] then m else Insert(m[order[0].key := order[0].value], order[1..])
  }

  lemma {:induction false} InsertHas(m: HeaderMap, order: seq<Pair>, k: ByteSeq)
    requires forall i, j :: 0 <= i < j < |order| ==> order[i].key != order[j].key
    ensures (forall i :: 0 <= i < |order| ==> order[i].key != k) ==>
              (k in Insert(m, order) <==> k in m) && (k in m ==> Insert(m, order)[k] == m[k])
    ensures forall i :: 0 <= i < |order| && order[i].key == k ==>
              k in Insert(m, order) && Insert(m, order)[k] == order[i].value
    decreases |order|
  {
    if order != [] {
      InsertHas(m[order[0].key := order[0].value], order[1..], k);
      forall i | 0 <= i < |order| && order[i].key == k
        ensures k in Insert(m, order) && Insert(m, order)[k] == order[i].value
      {
        if i > 0 {
          assert order[1..][i - 1] == order[i];
        }
      }
    }
  }

  function Keys(order: seq<Pair>): set<ByteSeq> { set p | p in order :: p.key }

  lemma {:induction false} KeysCount(order: seq<Pair>)
    requires forall i, j :: 0 <= i < j < |order| ==> order[i].key != order[j].key
    ensures |Keys(order)| == |order|
  {
    if order != [] {
      var last := |order| - 1;
      KeysCount(order[..last]);
      assert Keys(order) == Keys(order[..last]) + {order[last].key};
    }
  }

  lemma SameSize(a: set<ByteSeq>, b: set<ByteSeq>)
    requires a <= b && |a| == |b|
    ensures a == b
  {
    assert |b - a| == |b| - |a|;
  }

  /** Whatever order the map was walked in, storing the entries rebuilds it. */
  lemma InsertRebuilds(order: seq<Pair>, m: HeaderMap)
    requires Enumerates(order, m)
    ensures Insert(map[], order) == m
  {
    KeysCount(order);
    assert Keys(order) <= m.Keys;
    SameSize(Keys(order), m.Keys);
    var built := Insert(map[], order);
    forall k ensures k in built <==> k in m
             ensures k in m ==> built[k] == m[k]
    {
      InsertHas(map[], order, k);
      if k in m {
        assert k in Keys(order);
        var p :| p in order && p.key == k;
        var i :| 0 <= i < |order| && order[i] == p;
        assert built[k] == order[i].value;
      }
    }
  }

  // ---- a header block read back -------------------------------------------

  predicate PairsFit(cfg: Config, order: seq<Pair>) {
    forall i :: 0 <= i < |order| ==> |order[i].key| <= cfg.MessageLimit() && |order[i].value| <= cfg.MessageLimit()
  }

  lemma {:induction false} PairsBound(order: seq<Pair>)
    ensures |order| <= |EncPairs(order)|
    ensures forall i :: 0 <= i < |order| ==> |order[i].key| + |order[i].value| <= |EncPairs(order)|
  {
    if order != [] {
      PairsBound(order[1..]);
      forall i | 0 <= i < |order| ensures |order[i].key| + |order[i].value| <= |EncPairs(order)| {
        if i > 0 {
          assert order[1..][i - 1] == order[i];
        }
      }
    }
  }

  lemma ReadTextBack(r: Reader, s: ByteSeq, rest: ByteSeq)
    requires r.kind.Compact? && |s| <= r.cfg.MessageLimit() && r.input == EncText(s) + rest
    ensures ReadString(r) == Ok((s, r.(input := rest)))
  {
    assert EncText(s) == EncScalar(Compact, VString(s));
    ReadStringBack(r, s, rest);
  }

  lemma ReadPairBack(r: Reader, p: Pair, count: int, headers: HeaderMap, tail: ByteSeq)
    requires r.kind.Compact? && count > 0 && |p.key| <= r.cfg.MessageLimit() && |p.value| <= r.cfg.MessageLimit()
    requires r.input == EncText(p.key) + EncText(p.value) + tail
    ensures ReadPairs(r, count, headers) == ReadPairs(r.(input := tail), count - 1, headers[p.key := p.value])
  {
    hide ReadString, EncText;
    var middle := EncText(p.value) + tail;
    assert r.input == EncText(p.key) + middle;
    ReadTextBack(r, p.key, middle);
    ReadTextBack(r.(input := middle), p.value, tail);
  }

  lemma {:induction false} ReadPairsBack(r: Reader, order: seq<Pair>, headers: HeaderMap, rest: ByteSeq)
    requires r.kind.Compact? && PairsFit(r.cfg, order) && r.input == EncPairs(order) + rest
    ensures ReadPairs(r, |order|, headers) == Ok((Insert(headers, order), r.(input := rest)))
    decreases |order|
  {
    if order == [] {
      assert r.input == rest;
    } else {
      hide ReadPairs, EncText;
      var tail := EncPairs(order[1..]) + rest;
      assert r.input == EncText(order[0].key) + EncText(order[0].value) + tail;
      ReadPairBack(r, order[0], |order|, headers, tail);
      ReadPairsBack(r.(input := tail), order[1..], headers[order[0].key := order[0].value], rest);
    }
  }

  /** Padding ends the info sections: nothing there, or a kind no section has. */
  lemma ReadInfoEnds(r: Reader, headers: HeaderMap)
    requires r.input == [] || r.input[0] == 0
    ensures ReadInfo(r, headers) == Ok(headers)
  {
    if r.input != [] {
      assert r.input == Encode(0) + r.input[1..];
      TakeVarintBack(r, 0, r.input[1..]);
    }
  }

  lemma ReadInfoUnfold(r: Reader, r1: Reader, r2: Reader, r3: Reader, count: int, headers: HeaderMap,
                       headers': HeaderMap)
    requires TakeVarint32(r) == Ok((INFO_KEY_VALUE, r1)) && TakeVarint32(r1) == Ok((count, r2))
    requires ReadPairs(r2, count, headers) == Ok((headers', r3))
    ensures ReadInfo(r, headers) == ReadInfo(r3, headers')
  {
    hide TakeVarint32, ReadPairs;
  }

  lemma ReadPairInfoBack(r: Reader, order: seq<Pair>, padding: ByteSeq)
    requires r.kind.Compact? && PairsFit(r.cfg, order) && 0 < |order| <= MAX_I32
    requires r.input == Varint32(INFO_KEY_VALUE) + Varint32(|order|) + EncPairs(order) + padding
    requires padding == [] || padding[0] == 0
    ensures ReadInfo(r, map[]) == Ok(Insert(map[], order))
  {
    hide Varint32, TakeVarint32, EncPairs, ReadPairs, Insert, PairsFit, ReadInfo;
    var tail2 := EncPairs(order) + padding;
    var tail1 := Varint32(|order|) + tail2;
    assert r.input == Varint32(INFO_KEY_VALUE) + tail1;
    var r1, r2, r3 := r.(input := tail1), r.(input := tail2), r.(input := padding);
    TakeI32Back(r, INFO_KEY_VALUE, tail1);
    TakeI32Back(r1, |order|, tail2);
    ReadPairsBack(r2, order, map[], padding);
    ReadInfoUnfold(r, r1, r2, r3, |order|, map[], Insert(map[], order));
    ReadInfoEnds(r3, Insert(map[], order));
  }

  lemma ReadInfoBack(r: Reader, order: seq<Pair>, padding: ByteSeq)
    requires r.kind.Compact? && PairsFit(r.cfg, order) && |order| <= MAX_I32
    requires r.input == EncInfo(order) + padding && (padding == [] || padding[0] == 0)
    ensures ReadInfo(r, map[]) == Ok(Insert(map[], order))
  {
    hide Varint32, TakeVarint32, EncPairs, ReadPairs, PairsFit, ReadInfo;
    if order == [] {
      assert r.input == padding;
      ReadInfoEnds(r, map[]);
    } else {
      ReadPairInfoBack(r, order, padding);
    }
  }

  lemma ReadOneTransformBack(r: Reader, cfgTransforms: seq<int>, rest: ByteSeq)
    requires r.kind.Compact? && r.input == Varint32(1) + (Varint32(TRANSFORM_NONE) + rest)
    ensures ReadTransforms(r, cfgTransforms) == Ok((cfgTransforms, r.(input := rest)))
  {
    var tail := Varint32(TRANSFORM_NONE) + rest;
    TakeI32Back(r, 1, tail);
    TakeI32Back(r.(input := tail), TRANSFORM_NONE, rest);
    assert |tail| >= 1;
    hide Varint32, TakeVarint32, ReadVarint32;
  }

  lemma ReadManyTransformsBack(r: Reader, cfgTransforms: seq<int>, n: nat, tail: ByteSeq)
    requires n != 1 && n <= MAX_I32 && r.input == Varint32(n) + tail
    ensures ReadTransforms(r, cfgTransforms) ==
            if n == 0 then Ok((cfgTransforms, r.(input := tail))) else Err(SizeLimit)
  {
    TakeI32Back(r, n, tail);
    hide Varint32, TakeVarint32, ReadVarint32;
  }

  /** At most one transform is accepted; the sender is not held to that. */
  lemma ReadTransformsBack(r: Reader, cfgTransforms: seq<int>, transforms: seq<int>, rest: ByteSeq)
    requires r.kind.Compact? && AllNone(transforms) && |transforms| <= MAX_I32
    requires r.input == Varint32(|transforms|) + EncVarints(transforms) + rest
    ensures ReadTransforms(r, cfgTransforms) ==
            if |transforms| <= 1 then Ok((cfgTransforms, r.(input := rest))) else Err(SizeLimit)
  {
    hide Varint32, TakeVarint32, ReadTransforms;
    var tail := EncVarints(transforms) + rest;
    assert r.input == Varint32(|transforms|) + tail;
    if |transforms| == 1 {
      assert EncVarints(transforms[1..]) == [];
      assert tail == Varint32(TRANSFORM_NONE) + rest;
      ReadOneTransformBack(r, cfgTransforms, rest);
    } else {
      assert |transforms| == 0 ==> tail == rest;
      ReadManyTransformsBack(r, cfgTransforms, |transforms|, tail);
    }
  }

  // ---- a whole frame ------------------------------------------------------

  lemma FrameParts(t: Transport, order: seq<Pair>)
    requires |HeaderBlock(t.protocolID, t.writeTransforms, order)| / 4 <= MAX_U16
    ensures var f, block := HeaderFrame(t, order), HeaderBlock(t.protocolID, t.writeTransforms, order);
            && |f| == META_SIZE + |block| + |t.writeBuffer|
            && GetU32(f[..4]) / 0x1_0000 == HEADER_MAGIC
            && GetU16(f[2..4]) == ToU16(t.flags)
            && f[4..8] == PutU32(ToU32(t.sequenceID))
            && GetU16(f[8..10]) * 4 == |block|
            && f[META_SIZE..][..|block|] == block
            && f[META_SIZE..][|block|..] == t.writeBuffer
  {
    var f, block := HeaderFrame(t, order), HeaderBlock(t.protocolID, t.writeTransforms, order);
    var a, b := PutU16(HEADER_MAGIC), PutU16(ToU16(t.flags));
    var c, d := PutU32(ToU32(t.sequenceID)), PutU16(ToU16(|block| / 4));
    hide HeaderBlock, PutU32;
    assert f == a + b + c + d + block + t.writeBuffer;
    assert f[..2] == a && f[..4][..2] == a && f[..4][2..] == b && f[2..4] == b && f[4..8] == c && f[8..10] == d;
  }

  /** The parts of a block in front of its payload, as the reader meets them. */
  lemma {:induction false} ReadBlockBack(cfg: Config, cfgTransforms: seq<int>, protocolID: int, transforms: seq<int>,
                                         order: seq<Pair>)
    requires IsI32(protocolID) && AllNone(transforms) && |transforms| <= MAX_I32
    requires PairsFit(cfg, order) && |order| <= MAX_I32
    ensures var r := HeaderReader(cfg, HeaderBlock(protocolID, transforms, order));
            && TakeVarint32(r).Ok?
            && var (id, r1) := TakeVarint32(r).value;
               && id == protocolID
               && if |transforms| > 1 then ReadTransforms(r1, cfgTransforms) == Err(SizeLimit)
                  else
                    && ReadTransforms(r1, cfgTransforms).Ok?
                    && var (ts, r2) := ReadTransforms(r1, cfgTransforms).value;
                       ts == cfgTransforms && ReadInfo(r2, map[]) == Ok(Insert(map[], order))
  {
    hide Varint32, TakeVarint32, ReadVarint32, EncVarints, EncInfo, ReadTransforms, ReadInfo, PairsFit;
    var fields := HeaderFields(protocolID, transforms, order);
    var padding := Padding(|fields|);
    var tail2 := EncInfo(order) + padding;
    var tail1 := Varint32(|transforms|) + EncVarints(transforms) + tail2;
    var r := HeaderReader(cfg, fields + padding);
    assert r.input == Varint32(protocolID) + tail1;
    TakeI32Back(r, protocolID, tail1);
    ReadTransformsBack(r.(input := tail1), cfgTransforms, transforms, tail2);
    if |transforms| <= 1 {
      ReadInfoBack(r.(input := tail2), order, padding);
    }
  }

  lemma ParseHeadersBack(t: Transport, sender: Transport, order: seq<Pair>)
    requires IsI32(sender.protocolID) && IsI32(sender.sequenceID)
    requires AllNone(sender.writeTransforms) && |sender.writeTransforms| <= MAX_I32
    requires PairsFit(t.cfg, order) && |order| <= MAX_I32
    requires |HeaderBlock(sender.protocolID, sender.writeTransforms, order)| / 4 <= MAX_U16
    requires t.frame == Some(HeaderFrame(sender, order))
    ensures ParseHeaders(t) ==
            if |sender.writeTransforms| > 1 then Err(SizeLimit)
            else Ok(t.(flags := ToU16(sender.flags), sequenceID := sender.sequenceID, protocolID := sender.protocolID,
                       writeTransforms := t.cfgTransforms, readHeaders := Insert(map[], order),
                       frame := Some(sender.writeBuffer)))
  {
    hide HeaderFrame, HeaderBlock, ReadInfo, ReadTransforms, TakeVarint32, Insert, GetU16, GetU32, PutU32;
    FrameParts(sender, order);
    GetPutU32(ToU32(sender.sequenceID));
    ReadBlockBack(t.cfg, t.cfgTransforms, sender.protocolID, sender.writeTransforms, order);
  }

  /** A frame's length word is never mistaken for the start of a message. */
  lemma ReadFrameTakesFrame(t: Transport, f: ByteSeq, rest: ByteSeq)
    requires t.NeedReadFrame() && Framed.WithinLimit(t.cfg, |f|) && |f| >= 4
    requires t.stream == Framed.Frame(f) + rest
    ensures ReadFrame(t) == ClassifyFrame(t.(frame := Some(f), stream := rest))
  {
    var n := |f|;
    hide ClassifyFrame;
    assert t.stream == PutU32(n) + (f + rest);
    assert t.stream[..4] == PutU32(n);
    GetPutU32(n);
    assert t.stream[0] == n / 0x100_0000 < 0x82;
    assert t.stream[4..4 + n] == f && t.stream[4 + n..] == rest;
  }

  lemma {:induction false} VarintsBound(xs: seq<int>)
    ensures |xs| <= |EncVarints(xs)|
  {
    if xs != [] {
      VarintsBound(xs[1..]);
    }
  }

  /** A flushed header frame leaves room for none of the reader's own limits to refuse its parts. */
  lemma FlushedFits(t: Transport, order: seq<Pair>)
    requires Framed.WithinLimit(t.cfg, |HeaderFrame(t, order)|)
    requires |HeaderBlock(t.protocolID, t.writeTransforms, order)| / 4 <= MAX_U16
    ensures PairsFit(t.cfg, order) && |order| <= MAX_I32 && |t.writeTransforms| <= MAX_I32
  {
    PairsBound(order);
    VarintsBound(t.writeTransforms);
    assert order != [] ==> |EncPairs(order)| <= |EncInfo(order)|;
    var fields := HeaderFields(t.protocolID, t.writeTransforms, order);
    assert |EncVarints(t.writeTransforms)| <= |fields| && |EncInfo(order)| <= |fields|;
    assert |fields| <= |HeaderBlock(t.protocolID, t.writeTransforms, order)| <= |HeaderFrame(t, order)|;
  }

  /**
   * A frame flushed in headers mode, read by a transport with the same limits in front of any bytes: the
   * sequence id, the low sixteen flag bits, the protocol id, the header map (in whatever order it was
   * walked) and the payload all come back. It is accepted exactly when the sender listed at most one
   * transform.
   */
  lemma FlushThenReadFrame(sender: Transport, order: seq<Pair>, t: Transport, rest: ByteSeq)
    requires Uncompressed(sender) && Enumerates(order, sender.writeHeaders)
    requires IsI32(sender.protocolID) && IsI32(sender.sequenceID)
    requires sender.clientType.Unknown? || sender.clientType.Headers?
    requires sender.writeBuffer != [] && Flush(sender, order).Ok?
    requires t.cfg == sender.cfg && t.NeedReadFrame()
    requires sender.sent + t.stream == Flush(sender, order).value.sent + rest
    ensures ReadFrame(t) ==
            if |sender.writeTransforms| > 1 then Err(SizeLimit)
            else Ok(t.(clientType := Headers, stream := rest, frame := Some(sender.writeBuffer),
                       flags := ToU16(sender.flags), sequenceID := sender.sequenceID, protocolID := sender.protocolID,
                       writeTransforms := t.cfgTransforms, readHeaders := sender.writeHeaders))
  {
    var f := HeaderFrame(sender, order);
    FrameParts(sender, order);
    FlushedFits(sender, order);
    InsertRebuilds(order, sender.writeHeaders);
    hide HeaderFrame, HeaderBlock, Insert, ParseHeaders, ReadFrame, PairsFit, Enumerates, GetU32;
    assert t.stream == Framed.Frame(f) + rest by {
      assert (sender.sent + t.stream)[|sender.sent|..] == t.stream;
      assert (sender.sent + Framed.Frame(f) + rest)[|sender.sent|..] == Framed.Frame(f) + rest;
    }
    ReadFrameTakesFrame(t, f, rest);
    ParseHeadersBack(t.(clientType := Headers, frame := Some(f), stream := rest), sender, order);
  }

  /** A sender that lists two transforms, each of which does nothing. */
  const TWO_TRANSFORMS := Transport(
    Config(0, 0, 0), [],
    Headers, BINARY_PROTOCOL, 0, 0,
    map[], [], None,
    map[], [TRANSFORM_NONE, TRANSFORM_NONE], [0], [])

  lemma TwoTransformsBlock()
    ensures |HeaderBlock(BINARY_PROTOCOL, [TRANSFORM_NONE, TRANSFORM_NONE], [])| <= 32
  {
    var xs := [TRANSFORM_NONE, TRANSFORM_NONE];
    EncodeFits(0);
    EncodeFits(2);
    assert xs[1..] == [TRANSFORM_NONE] && xs[1..][1..] == [];
    assert |EncVarints(xs)| <= 10;
  }

  /** Its flush succeeds, and a reader with the same configuration refuses the frame. */
  lemma TwoTransformsRefused(t: Transport, rest: ByteSeq)
    requires t.cfg == TWO_TRANSFORMS.cfg && t.NeedReadFrame()
    requires t.stream == Framed.Frame(HeaderFrame(TWO_TRANSFORMS, [])) + rest
    ensures Flush(TWO_TRANSFORMS, []).Ok? && Flush(TWO_TRANSFORMS, []).value.sent + rest == t.stream
    ensures ReadFrame(t) == Err(SizeLimit)
  {
    hide ReadFrame, HeaderBlock, PutU16, PutU32;
    var sender := TWO_TRANSFORMS;
    TwoTransformsBlock();
    assert |HeaderFrame(sender, [])| <= 10 + 32 + 1;
    assert Flush(sender, []).Ok?;
    assert [] + t.stream == t.stream;
    assert [] + Framed.Frame(HeaderFrame(sender, [])) == Framed.Frame(HeaderFrame(sender, []));
    FlushThenReadFrame(sender, [], t, rest);
  }

  // ---- reading the payload ------------------------------------------------

  /** Reads of the given sizes for as long as the frame lasts, and the transport after them. */
  function DrainFrame(t: Transport, sizes: seq<nat>): (seq<ByteSeq>, Transport)
    decreases |sizes|
  {
    if sizes == [] || t.frame == None || ReadBytes(t, sizes[0]).Err? then ([], t)
    else
      var (data, t1) := ReadBytes(t, sizes[0]).value;
      var (more, t2) := DrainFrame(t1, sizes[1..]);
      ([data] + more, t2)
  }

  function Left(b: ByteSeq): Option<ByteSeq> { if b == [] then None else Some(b) }

  lemma ReadFromFrame(t: Transport, payload: ByteSeq, n: nat)
    requires t.IsFramed() && t.frame == Some(payload) && payload != []
    ensures ReadBytes(t, n) == Ok((Framed.Upto(payload, n), t.(frame := Left(Framed.After(payload, n)))))
  {
  }

  /** Whatever the sizes, the payload comes out in order, and nothing past it. */
  lemma {:induction false} DrainFrameReturnsPayload(t: Transport, payload: ByteSeq, sizes: seq<nat>)
    requires t.IsFramed() && t.frame == Some(payload) && payload != []
    requires forall i :: 0 <= i < |sizes| ==> sizes[i] > 0
    ensures var (outs, t') := DrainFrame(t, sizes);
            && Framed.Concat(outs) <= payload
            && t' == t.(frame := Left(payload[|Framed.Concat(outs)|..]))
            && (|outs| < |sizes| ==> Framed.Concat(outs) == payload)
    decreases |sizes|
  {
    if sizes != [] {
      hide ReadBytes;
      ReadFromFrame(t, payload, sizes[0]);
      var data, left := Framed.Upto(payload, sizes[0]), Framed.After(payload, sizes[0]);
      var t1 := t.(frame := Left(left));
      var (more, t2) := DrainFrame(t1, sizes[1..]);
      assert payload == data + left;
      if left != [] {
        DrainFrameReturnsPayload(t1, left, sizes[1..]);
      }
      assert ([data] + more)[1..] == more;
      assert payload[|data + Framed.Concat(more)|..] == left[|Framed.Concat(more)|..];
    }
  }

  // ---- dialects -----------------------------------------------------------

  /** The start of a versioned message, as a word and as two bytes. */
  lemma MessageStart(kind: Kind, h: Messages.Header, tail: ByteSeq)
    requires WellTypedHeader(h)
    ensures var m := EncMessageBegin(kind, true, h) + tail;
            && |m| >= 4
            && (GetU32(m[..4]) / 0x1_0000 == VERSION_1 / 0x1_0000 <==> kind.Binary? && KeepsVersion(h.typeId))
            && GetU32(m[..4]) / 0x1_0000 != HEADER_MAGIC
            && (kind.Compact? ==> m[0] == COMPACT_PROTOCOL_ID && m[1] % 32 == COMPACT_VERSION)
  {
    var m := EncMessageBegin(kind, true, h) + tail;
    if kind.Binary? {
      hide Versioned, KeepsVersion;
      VersionedIs(h.typeId);
      assert m[..4] == PutU32(Versioned(h.typeId));
      GetPutU32(Versioned(h.typeId));
    } else {
      hide Versioned;
      var b: Byte := COMPACT_VERSION + ToU8(h.typeId) % 8 * 32;
      assert m[0] == COMPACT_PROTOCOL_ID && m[1] == b;
    }
  }

  /** A message not in a frame is recognised, and left on the stream for the protocol to read. */
  lemma DetectsUnframed(t: Transport, kind: Kind, h: Messages.Header, tail: ByteSeq)
    requires t.NeedReadFrame() && WellTypedHeader(h) && t.stream == EncMessageBegin(kind, true, h) + tail
    requires kind.Binary? ==> KeepsVersion(h.typeId)
    ensures ReadFrame(t) == Ok(t.(clientType := if kind.Binary? then UnframedBinary else UnframedCompact))
    ensures ReadFrame(t).value.ProtocolId() == if kind.Binary? then BINARY_PROTOCOL else COMPACT_PROTOCOL
  {
    MessageStart(kind, h, tail);
    hide EncMessageBegin, ClassifyFrame, GetU32;
  }

  /** A framed message is recognised, and its frame is what will be read. */
  lemma DetectsFramed(t: Transport, kind: Kind, h: Messages.Header, tail: ByteSeq, rest: ByteSeq)
    requires t.NeedReadFrame() && WellTypedHeader(h) && (kind.Binary? ==> KeepsVersion(h.typeId))
    requires Framed.WithinLimit(t.cfg, |EncMessageBegin(kind, true, h) + tail|)
    requires t.stream == Framed.Frame(EncMessageBegin(kind, true, h) + tail) + rest
    ensures ReadFrame(t) ==
            Ok(t.(clientType := if kind.Binary? then FramedBinary else FramedCompact, stream := rest,
                  frame := Some(EncMessageBegin(kind, true, h) + tail)))
    ensures ReadFrame(t).value.ProtocolId() == if kind.Binary? then BINARY_PROTOCOL else COMPACT_PROTOCOL
  {
    MessageStart(kind, h, tail);
    hide EncMessageBegin, ReadFrame, GetU32, ParseHeaders;
    ReadFrameTakesFrame(t, EncMessageBegin(kind, true, h) + tail, rest);
  }

  /** What a server sends back in a framed dialect is one frame that a framed reader turns into the reply. */
  lemma RepliesFramed(t: Transport, order: seq<Pair>, rest: ByteSeq)
    requires Uncompressed(t) && t.writeBuffer != []
    requires t.clientType.FramedBinary? || t.clientType.FramedCompact?
    requires Flush(t, order).Ok?
    ensures var bytes := Flush(t, order).value.sent[|t.sent|..];
            Framed.ReadFrame(Framed.Source(t.cfg, None, bytes + rest)) ==
            Ok(Framed.Source(t.cfg, Some(t.writeBuffer), rest))
    ensures Flush(t, order).value.clientType == t.clientType
  {
    var f := t.writeBuffer;
    assert (t.sent + Framed.Frame(f))[|t.sent|..] == Framed.Frame(f);
    var stream := Framed.Frame(f) + rest;
    assert stream == PutU32(|f|) + (f + rest);
    assert stream[..4] == PutU32(|f|);
    GetPutU32(|f|);
    assert stream[4..4 + |f|] == f && stream[4 + |f|..] == rest;
  }

  /** The calls a user of the transport can make. */
  datatype Op = DoReadFrame | DoRead(n: nat) | DoWrite(b: ByteSeq) | DoSetHeader(p: Pair) | DoFlush(order: seq<Pair>)

  /** The transport after a call; a refused call on an unframed connection leaves it as it was. */
  function Step(t: Transport, op: Op): Transport
    requires Uncompressed(t)
  {
    match op
    case DoReadFrame => (match ReadFrame(t) case Ok(t') => t' case Err(_) => t)
    case DoRead(n) => (match ReadBytes(t, n) case Ok((_, t')) => t' case Err(_) => t)
    case DoWrite(b) => t.(writeBuffer := t.writeBuffer + b)
    case DoSetHeader(p) => t.(writeHeaders := t.writeHeaders[p.key := p.value])
    case DoFlush(order) => (match Flush(t, order) case Ok(t') => t' case Err(_) => t)
  }

  function WrittenBy(op: Op): ByteSeq { if op.DoWrite? then op.b else [] }

  function Written(ops: seq<Op>): ByteSeq {
    if ops == [] then [] else WrittenBy(ops[0]) + Written(ops[1..])
  }

  ghost predicate Reaches(t: Transport, ops: seq<Op>, t': Transport)
    requires Uncompressed(t)
    decreases |ops|
  {
    if ops == [] then t == t'
    else Uncompressed(Step(t, ops[0])) && Reaches(Step(t, ops[0]), ops[1..], t')
  }

  lemma UnframedStep(t: Transport, op: Op)
    requires Uncompressed(t) && t.IsUnframed() && t.frame == None
    ensures var t' := Step(t, op);
            && t'.clientType == t.clientType && t'.frame == None
            && t'.sent + t'.writeBuffer == t.sent + t.writeBuffer + WrittenBy(op)
  {
    assert ReadFrame(t) == Ok(t);
    hide ReadFrame, HeaderFrame, HeaderBlock;
    match op
    case DoWrite(b) => assert (t.sent + t.writeBuffer) + b == t.sent + (t.writeBuffer + b);
    case DoFlush(order) => assert (t.sent + t.writeBuffer) + [] == t.sent + t.writeBuffer;
    case _ =>
  }

  /**
   * Over every run on an unframed connection: the dialect is never detected again, and what has been sent
   * plus what waits to be sent is exactly what was written, in order.
   */
  lemma {:induction false} UnframedStays(t: Transport, ops: seq<Op>, t': Transport)
    requires Uncompressed(t) && t.IsUnframed() && t.frame == None && Reaches(t, ops, t')
    ensures t'.clientType == t.clientType && t'.frame == None
    ensures t'.sent + t'.writeBuffer == t.sent + t.writeBuffer + Written(ops)
    decreases |ops|
  {
    hide Step, Uncompressed, WrittenBy;
    var start := t.sent + t.writeBuffer;
    if ops == [] {
      assert start + [] == start;
    } else {
      UnframedStep(t, ops[0]);
      UnframedStays(Step(t, ops[0]), ops[1..], t');
      assert (start + WrittenBy(ops[0])) + Written(ops[1..]) == start + (WrittenBy(ops[0]) + Written(ops[1..]));
    }
  }
}
