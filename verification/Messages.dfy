/** Message headers of the two wire protocols. */
module Messages {
  import opened Bytes
  import opened Values
  import opened Varint
  import opened Configuration
  import opened Wire
  import opened Codec
  import opened RoundTrip

  const VERSION_1 := 0x8001_0000
  const COMPACT_PROTOCOL_ID: Byte := 0x82
  const COMPACT_VERSION := 1

  /** VERSION_1 with the bits of a message type set in it: bits 31 and 16 are on whatever the type. */
  function Versioned(t: int): (word: nat)
    requires IsI32(t)
    ensures word < 0x1_0000_0000
  {
    var hi, lo := ToU32(t) / 0x1_0000, ToU32(t) % 0x1_0000;
    (hi + (if hi < 0x8000 then 0x8000 else 0) + (if hi % 2 == 0 then 1 else 0)) * 0x1_0000 + lo
  }

  /** Types whose upper half adds nothing to the version; the types in use run from 0 to 4. */
  predicate KeepsVersion(t: int)
    requires IsI32(t)
  {
    var hi := ToU32(t) / 0x1_0000;
    hi == 0 || hi == 1 || hi == 0x8000 || hi == 0x8001
  }

  lemma VersionedIs(t: int)
    requires IsI32(t)
    ensures Versioned(t) >= 0x8000_0000 && Versioned(t) % 0x100 == ToU32(t) % 0x100
    ensures Versioned(t) / 0x1_0000 == VERSION_1 / 0x1_0000 <==> KeepsVersion(t)
  {
    var hi, lo := ToU32(t) / 0x1_0000, ToU32(t) % 0x1_0000;
    var hi' := hi + (if hi < 0x8000 then 0x8000 else 0) + (if hi % 2 == 0 then 1 else 0);
    assert Versioned(t) == hi' * 0x1_0000 + lo;
    assert Versioned(t) / 0x1_0000 == hi';
    assert ToU32(t) == hi * 0x1_0000 + lo;
  }

  /** strict selects the versioned binary header; it has no effect on the compact one. */
  function WriteMessageBegin(w: Writer, strict: bool, name: ByteSeq, typeId: int, seqid: int): Writer
    requires IsI32(typeId)
  {
    match w.kind
    case Binary =>
      if strict then WriteI32(WriteString(WriteI32(w, ToI32(Versioned(typeId))), name), seqid)
      else WriteI32(WriteByte(WriteString(w, name), ToI8(typeId)), seqid)
    case Compact =>
      var w1 := w.Put([COMPACT_PROTOCOL_ID]).Put([COMPACT_VERSION + ToU8(typeId) % 8 * 32]);
      WriteString(WriteVarint32(w1, seqid), name)
  }

  datatype Header = Header(name: ByteSeq, typeId: int, seqid: int)

  function ReadMessageBegin(r: Reader, strict: bool): Read<Header> {
    match r.kind
    case Binary => ReadBinaryHeader(r, strict)
    case Compact => ReadCompactHeader(r)
  }

  function ReadBinaryHeader(r: Reader, strict: bool): Read<Header> {
    var (size, r1) :- ReadI32(r);
    if size < 0 then
      if ToU32(size) / 0x1_0000 != VERSION_1 / 0x1_0000 then Err(BadVersion)
      else
        var (name, r2) :- ReadString(r1);
        var (seqid, r3) :- ReadI32(r2);
        Ok((Header(name, ToU32(size) % 0x100, seqid), r3))
    else if strict then Err(BadVersion)
    else
      var _ :- CheckSize(size, r.cfg);
      var (name, r2) :- Take(r1, size);
      var (typeId, r3) :- ReadByte(r2);
      var (seqid, r4) :- ReadI32(r3);
      Ok((Header(name, typeId, seqid), r4))
  }

  function ReadCompactHeader(r: Reader): Read<Header> {
    var (id, r1) :- TakeByte(r);
    if id != COMPACT_PROTOCOL_ID then Err(BadVersion)
    else
      var (vt, r2) :- TakeByte(r1);
      if vt % 32 != COMPACT_VERSION then Err(BadVersion)
      else
        var (seqid, r3) :- TakeVarint32(r2);
        var (name, r4) :- ReadString(r3);
        Ok((Header(name, vt / 32, seqid), r4))
  }

  function EncStr(kind: Kind, s: ByteSeq): ByteSeq { EncScalar(kind, VString(s)) }

  /** The bytes of a message header. */
  function EncMessageBegin(kind: Kind, strict: bool, h: Header): (b: ByteSeq)
    requires IsI32(h.typeId)
    ensures |b| >= 4
  {
    match kind
    case Binary =>
      if strict then PutU32(Versioned(h.typeId)) + EncStr(kind, h.name) + PutU32(ToU32(h.seqid))
      else EncStr(kind, h.name) + [ToU8(h.typeId)] + PutU32(ToU32(h.seqid))
    case Compact =>
      [COMPACT_PROTOCOL_ID, COMPACT_VERSION + ToU8(h.typeId) % 8 * 32] + Varint32(ToI32(h.seqid)) + EncStr(kind, h.name)
  }

  predicate WellTypedHeader(h: Header) {
    IsI32(h.typeId) && IsI32(h.seqid) && |h.name| <= MAX_I32
  }

  lemma WriteStringEncodes(w: Writer, s: ByteSeq)
    requires |s| <= MAX_I32
    ensures WriteString(w, s) == w.Put(EncStr(w.kind, s))
  {
    PutPut(w, if w.kind.Binary? then PutU32(ToU32(|s|)) else Encode(|s|), s);
  }

  lemma WriteMessageBeginEncodes(w: Writer, strict: bool, h: Header)
    requires WellTypedHeader(h)
    ensures WriteMessageBegin(w, strict, h.name, h.typeId, h.seqid) == w.Put(EncMessageBegin(w.kind, strict, h))
  {
    hide Versioned;
    var name, seqid := EncStr(w.kind, h.name), PutU32(ToU32(h.seqid));
    match w.kind
    case Binary =>
      if strict {
        var version := PutU32(Versioned(h.typeId));
        assert ToU32(ToI32(Versioned(h.typeId))) == Versioned(h.typeId);
        WriteStringEncodes(w.Put(version), h.name);
        PutPut(w, version, name);
        PutPut(w, version + name, seqid);
      } else {
        var b: ByteSeq := [ToU8(h.typeId)];
        assert ToU8(ToI8(h.typeId)) == ToU8(h.typeId);
        WriteStringEncodes(w, h.name);
        PutPut(w, name, b);
        PutPut(w, name + b, seqid);
      }
    case Compact =>
      var v: Byte := COMPACT_VERSION + ToU8(h.typeId) % 8 * 32;
      var a, b := [COMPACT_PROTOCOL_ID], [v];
      var ab, n := [COMPACT_PROTOCOL_ID, v], Varint32(ToI32(h.seqid));
      PutPut(w, a, b);
      assert a + b == ab;
      PutPut(w, ab, n);
      WriteStringEncodes(w.Put(ab + n), h.name);
      PutPut(w, ab + n, name);
  }

  /** The part of a message type that a header has room for. */
  function Carried(kind: Kind, strict: bool, t: int): int
    requires IsI32(t)
  {
    match kind
    case Binary => if strict then ToU32(t) % 0x100 else ToI8(t)
    case Compact => ToU8(t) % 8
  }

  /**
   * Any header, read back in front of any bytes: the name, the sequence id and as much of the type as the
   * header carries. A strict reader refuses the unversioned binary header, every reader refuses a versioned
   * one whose type reaches into the version, and a name over the limit is refused.
   */
  lemma ReadMessageBeginInverts(r: Reader, strictWrite: bool, strictRead: bool, h: Header, rest: ByteSeq)
    requires WellTypedHeader(h) && r.input == EncMessageBegin(r.kind, strictWrite, h) + rest
    ensures ReadMessageBegin(r, strictRead) ==
            if r.kind.Binary? && (if strictWrite then !KeepsVersion(h.typeId) else strictRead) then Err(BadVersion)
            else Back(|h.name| <= r.cfg.MessageLimit(), h.(typeId := Carried(r.kind, strictWrite, h.typeId)), r, rest)
  {
    match r.kind
    case Binary =>
      if strictWrite {
        ReadStrictInverts(r, strictRead, h, rest);
      } else {
        ReadNonStrictInverts(r, strictRead, h, rest);
      }
    case Compact => ReadCompactHeaderInverts(r, strictWrite, h, rest);
  }

  /** The type comes back as it was if and only if it fits the room there is for it. */
  lemma CarriedWhole(kind: Kind, strict: bool, t: int)
    requires IsI32(t)
    ensures Carried(kind, strict, t) == t <==>
            match kind
            case Binary => if strict then 0 <= t < 0x100 else IsI8(t)
            case Compact => 0 <= t < 8
  {
  }

  /** Type 8 comes back as 0 from a compact header, and type 0x2_0000 makes a versioned one unreadable. */
  lemma LargeTypes(r: Reader, h: Header, strictRead: bool, rest: ByteSeq)
    requires WellTypedHeader(h) && |h.name| <= r.cfg.MessageLimit()
    requires r.input == EncMessageBegin(r.kind, true, h) + rest
    ensures r.kind.Compact? && h.typeId == 8 ==>
              ReadMessageBegin(r, strictRead) == Ok((h.(typeId := 0), r.(input := rest)))
    ensures r.kind.Binary? && h.typeId == 0x2_0000 ==> ReadMessageBegin(r, strictRead) == Err(BadVersion)
  {
    hide ReadMessageBegin, EncMessageBegin;
    ReadMessageBeginInverts(r, true, strictRead, h, rest);
  }

  lemma ReadStrictInverts(r: Reader, strictRead: bool, h: Header, rest: ByteSeq)
    requires r.kind.Binary? && WellTypedHeader(h) && r.input == EncMessageBegin(r.kind, true, h) + rest
    ensures ReadMessageBegin(r, strictRead) ==
            if !KeepsVersion(h.typeId) then Err(BadVersion)
            else Back(|h.name| <= r.cfg.MessageLimit(), h.(typeId := ToU32(h.typeId) % 0x100), r, rest)
  {
    hide Versioned, KeepsVersion;
    VersionedIs(h.typeId);
    var size := ToI32(Versioned(h.typeId));
    assert size < 0 && ToU32(size) == Versioned(h.typeId);
    hide ToU32, ToI32, PutU32, EncScalar;
    var tail2 := PutU32(ToU32(h.seqid)) + rest;
    var tail1 := EncStr(r.kind, h.name) + tail2;
    assert r.input == PutU32(ToU32(size)) + tail1;
    TakeU32Back(r, size, tail1);
    ReadStringBack(r.(input := tail1), h.name, tail2);
    TakeU32Back(r.(input := tail2), h.seqid, rest);
  }

  lemma ReadNonStrictInverts(r: Reader, strictRead: bool, h: Header, rest: ByteSeq)
    requires r.kind.Binary? && WellTypedHeader(h) && r.input == EncMessageBegin(r.kind, false, h) + rest
    ensures ReadMessageBegin(r, strictRead) ==
            if strictRead then Err(BadVersion)
            else Back(|h.name| <= r.cfg.MessageLimit(), h.(typeId := ToI8(h.typeId)), r, rest)
  {
    var b: Byte := ToU8(h.typeId);
    var tail3 := PutU32(ToU32(h.seqid)) + rest;
    var tail2 := [b] + tail3;
    var tail1 := h.name + tail2;
    assert r.input == PutU32(ToU32(|h.name|)) + tail1;
    assert ToI8(b) == ToI8(h.typeId);
    TakeU32Back(r, |h.name|, tail1);
    TakeFront(r.(input := tail1), h.name, tail2);
    TakeFront(r.(input := tail2), [b], tail3);
    TakeU32Back(r.(input := tail3), h.seqid, rest);
  }

  lemma ReadCompactHeaderBack(r: Reader, vt: Byte, seqid: int, name: ByteSeq, rest: ByteSeq)
    requires r.kind.Compact? && vt % 32 == COMPACT_VERSION && IsI32(seqid) && |name| <= MAX_I32
    requires r.input == [COMPACT_PROTOCOL_ID, vt] + Varint32(seqid) + EncStr(r.kind, name) + rest
    ensures ReadCompactHeader(r) ==
            Back(|name| <= r.cfg.MessageLimit(), Header(name, vt / 32, seqid), r, rest)
  {
    hide Varint32, TakeVarint32, EncScalar, ReadString, TakeByte, Take;
    var tail3 := EncStr(r.kind, name) + rest;
    var tail2 := Varint32(seqid) + tail3;
    var tail1 := [vt] + tail2;
    assert r.input == [COMPACT_PROTOCOL_ID] + tail1;
    var r1, r2, r3 := r.(input := tail1), r.(input := tail2), r.(input := tail3);
    assert TakeByte(r) == Ok((COMPACT_PROTOCOL_ID, r1)) by { TakeFront(r, [COMPACT_PROTOCOL_ID], tail1); }
    assert TakeByte(r1) == Ok((vt, r2)) by { TakeFront(r1, [vt], tail2); }
    assert TakeVarint32(r2) == Ok((seqid, r3)) by { TakeI32Back(r2, seqid, tail3); }
    ReadStringBack(r3, name, rest);
  }

  lemma ReadCompactHeaderInverts(r: Reader, strict: bool, h: Header, rest: ByteSeq)
    requires r.kind.Compact? && WellTypedHeader(h) && r.input == EncMessageBegin(r.kind, strict, h) + rest
    ensures ReadCompactHeader(r) ==
            Back(|h.name| <= r.cfg.MessageLimit(), h.(typeId := ToU8(h.typeId) % 8), r, rest)
  {
    hide ReadCompactHeader, Varint32, EncScalar;
    var t := ToU8(h.typeId) % 8;
    var b: Byte := COMPACT_VERSION + t * 32;
    assert b % 32 == COMPACT_VERSION && b / 32 == t;
    ReadCompactHeaderBack(r, b, h.seqid, h.name, rest);
  }
}
