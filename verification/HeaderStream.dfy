/** A whole connection in headers mode: flush after flush on one side, read after read on the other. */
module HeaderStream {
  import opened Bytes
  import opened Configuration
  import Framed
  import opened Header
  import opened HeaderRoundTrip

  /** A flush: the sender as it was, and the order in which its header map was walked. */
  datatype Flushed = Flushed(sender: Transport, order: seq<Pair>)

  /** A successful flush of a payload in headers mode, under the reader's limits, with at most one transform. */
  ghost predicate Sendable(cfg: Config, f: Flushed) {
    var s := f.sender;
    && s.cfg == cfg && Uncompressed(s) && Enumerates(f.order, s.writeHeaders)
    && IsI32(s.protocolID) && IsI32(s.sequenceID) && (s.clientType.Unknown? || s.clientType.Headers?)
    && s.writeBuffer != [] && |s.writeTransforms| <= 1 && Flush(s, f.order).Ok?
  }

  function Bytes1(f: Flushed): ByteSeq { Framed.Frame(HeaderFrame(f.sender, f.order)) }

  function Stream(fs: seq<Flushed>): ByteSeq {
    if fs == [] then [] else Bytes1(fs[0]) + Stream(fs[1..])
  }

  function Payloads(fs: seq<Flushed>): ByteSeq {
    if fs == [] then [] else fs[0].sender.writeBuffer + Payloads(fs[1..])
  }

  /** The reader has current left of the frame it is in, and these flushes are still to come. */
  ghost predicate Holds(t: Transport, current: ByteSeq, fs: seq<Flushed>) {
    && (t.clientType.Headers? || (t.clientType.Unknown? && current == []))
    && t.frame == Left(current) && t.stream == Stream(fs)
    && forall i :: 0 <= i < |fs| ==> Sendable(t.cfg, fs[i])
  }

  /** The reader once it has begun with a flush. */
  function Begun(t: Transport, f: Flushed, rest: ByteSeq): Transport {
    t.(clientType := Headers, stream := rest, frame := Some(f.sender.writeBuffer),
       flags := ToU16(f.sender.flags), sequenceID := f.sender.sequenceID, protocolID := f.sender.protocolID,
       writeTransforms := t.cfgTransforms, readHeaders := f.sender.writeHeaders)
  }

  lemma BeginsNext(t: Transport, fs: seq<Flushed>)
    requires Holds(t, [], fs) && fs != []
    ensures ReadFrame(t) == Ok(Begun(t, fs[0], Stream(fs[1..])))
  {
    hide ReadFrame, Enumerates, HeaderFrame, HeaderBlock;
    var f, rest := fs[0], Stream(fs[1..]);
    assert Sendable(t.cfg, f);
    var sent := f.sender.sent;
    assert Flush(f.sender, f.order).value.sent == sent + Bytes1(f);
    assert sent + (Bytes1(f) + rest) == (sent + Bytes1(f)) + rest;
    FlushThenReadFrame(f.sender, f.order, t, rest);
  }

  /**
   * One read of a positive size, through whatever frames it needs: end-of-file exactly when no byte is left;
   * otherwise bytes of one flush only, and if they are its first, the sequence id, the flags, the protocol
   * id and the headers are that flush's from then on.
   */
  lemma ReadServesOneFlush(t: Transport, current: ByteSeq, fs: seq<Flushed>, n: nat)
    requires Holds(t, current, fs) && n > 0
    ensures current == [] && fs == [] ==> ReadBytes(t, n) == Err(EndOfFile)
    ensures current != [] ==>
              ReadBytes(t, n) == Ok((Framed.Upto(current, n), t.(frame := Left(Framed.After(current, n)))))
    ensures current == [] && fs != [] ==>
              var b := fs[0].sender.writeBuffer;
              ReadBytes(t, n) ==
              Ok((Framed.Upto(b, n), Begun(t, fs[0], Stream(fs[1..])).(frame := Left(Framed.After(b, n)))))
  {
    if current != [] {
      ReadFromFrame(t, current, n);
    } else if fs != [] {
      hide ReadFrame, Enumerates;
      assert Sendable(t.cfg, fs[0]);
      BeginsNext(t, fs);
    }
  }

  function Reads(t: Transport, sizes: seq<nat>): seq<ByteSeq>
    decreases |sizes|
  {
    if sizes == [] || ReadBytes(t, sizes[0]).Err? then []
    else
      var (data, t') := ReadBytes(t, sizes[0]).value;
      [data] + Reads(t', sizes[1..])
  }

  lemma UptoAfter(b: ByteSeq, n: nat)
    requires n > 0 && b != []
    ensures Framed.Upto(b, n) != [] && Framed.Upto(b, n) + Framed.After(b, n) == b
  {
  }

  /**
   * Whatever the sizes of the reads, what they return is the flushed payloads in order, and a read fails only
   * once everything has been returned.
   */
  lemma {:induction false} ReadsReturnThePayloads(t: Transport, current: ByteSeq, fs: seq<Flushed>, sizes: seq<nat>)
    requires Holds(t, current, fs) && forall i :: 0 <= i < |sizes| ==> sizes[i] > 0
    ensures Framed.Concat(Reads(t, sizes)) <= current + Payloads(fs)
    ensures |Reads(t, sizes)| <= |Framed.Concat(Reads(t, sizes))|
    ensures |Reads(t, sizes)| < |sizes| ==> Framed.Concat(Reads(t, sizes)) == current + Payloads(fs)
    decreases |sizes|
  {
    hide ReadBytes, Sendable;
    if sizes != [] {
      var n, all := sizes[0], current + Payloads(fs);
      ReadServesOneFlush(t, current, fs, n);
      if current != [] {
        UptoAfter(current, n);
        Continues(t, current, Framed.After(current, n), fs, sizes);
      } else if fs != [] {
        var b := fs[0].sender.writeBuffer;
        assert Sendable(t.cfg, fs[0]);
        PayloadThere(t.cfg, fs[0]);
        UptoAfter(b, n);
        Continues(t, b, Framed.After(b, n), fs[1..], sizes);
        assert all == b + Payloads(fs[1..]);
      }
    }
  }

  lemma PayloadThere(cfg: Config, f: Flushed)
    requires Sendable(cfg, f)
    ensures f.sender.writeBuffer != []
  {
  }

  /** The induction step: one read has returned the front of b, the rest of it and more are to come. */
  lemma {:induction false} Continues(t: Transport, b: ByteSeq, left: ByteSeq, more: seq<Flushed>, sizes: seq<nat>)
    requires sizes != [] && forall i :: 0 <= i < |sizes| ==> sizes[i] > 0
    requires ReadBytes(t, sizes[0]).Ok?
    requires var (data, t') := ReadBytes(t, sizes[0]).value;
             data != [] && data + left == b && Holds(t', left, more)
    ensures Framed.Concat(Reads(t, sizes)) <= b + Payloads(more)
    ensures |Reads(t, sizes)| <= |Framed.Concat(Reads(t, sizes))|
    ensures |Reads(t, sizes)| < |sizes| ==> Framed.Concat(Reads(t, sizes)) == b + Payloads(more)
    decreases |sizes|, 0
  {
    hide ReadBytes, Holds;
    var (data, t') := ReadBytes(t, sizes[0]).value;
    ReadsReturnThePayloads(t', left, more, sizes[1..]);
    var rest := Reads(t', sizes[1..]);
    assert ([data] + rest)[1..] == rest;
    assert data + (left + Payloads(more)) == b + Payloads(more);
  }

  /** Enough reads of any positive sizes return exactly what was flushed, however often and with whatever headers. */
  lemma RoundTrip(t: Transport, fs: seq<Flushed>, sizes: seq<nat>)
    requires Holds(t, [], fs) && |sizes| > |Payloads(fs)| && forall i :: 0 <= i < |sizes| ==> sizes[i] > 0
    ensures Framed.Concat(Reads(t, sizes)) == Payloads(fs)
  {
    hide Holds;
    ReadsReturnThePayloads(t, [], fs, sizes);
    assert [] + Payloads(fs) == Payloads(fs);
  }
}
