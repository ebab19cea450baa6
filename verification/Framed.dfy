/** TFramedTransport: writes collected into length-prefixed frames, reads served out of them. */
module Framed {
  import opened Bytes
  import opened Configuration

  const THEADER_MAX_FRAME_SIZE := 0x3fff_ffff

  /** A frame no reader with this configuration would refuse. */
  predicate WithinLimit(cfg: Config, size: nat) {
    size <= THEADER_MAX_FRAME_SIZE && size <= cfg.FrameLimit()
  }

  // ---- the reading side on values -----------------------------------------

  /** readBuf is what is left of the frame being read; stream is what has not been looked at yet. */
  datatype Source = Source(cfg: Config, readBuf: Option<ByteSeq>, stream: ByteSeq)

  function ReadFrame(s: Source): (x: Result<Source>)
    ensures x.Ok? ==> |x.value.stream| + 4 <= |s.stream| && x.value.readBuf.Some?
  {
    if |s.stream| < 4 then Err(EndOfFile)
    else
      var size := GetU32(s.stream[..4]);
      if size > s.cfg.FrameLimit() then Err(BadFrame)
      else if |s.stream| - 4 < size then Err(EndOfFile)
      else Ok(s.(readBuf := Some(s.stream[4..4 + size]), stream := s.stream[4 + size..]))
  }

  /** The first n bytes of b, or all of it. */
  function Upto(b: ByteSeq, n: nat): ByteSeq { if n < |b| then b[..n] else b }
  function After(b: ByteSeq, n: nat): ByteSeq { if n < |b| then b[n..] else [] }

  /** One call of Read with a buffer of n bytes; empty frames are passed over. */
  function Read(s: Source, n: nat): Result<(ByteSeq, Source)>
    decreases |s.stream|
  {
    if s.readBuf.Some? && (s.readBuf.value != [] || n == 0) then
      var rest := After(s.readBuf.value, n);
      Ok((Upto(s.readBuf.value, n), s.(readBuf := if rest == [] then None else Some(rest))))
    else
      var s1 :- ReadFrame(s);
      Read(s1, n)
  }

  // ---- frames -------------------------------------------------------------

  function Frame(f: ByteSeq): ByteSeq { PutU32(ToU32(|f|)) + f }

  function Frames(fs: seq<ByteSeq>): ByteSeq {
    if fs == [] then [] else Frame(fs[0]) + Frames(fs[1..])
  }

  function Concat(fs: seq<ByteSeq>): ByteSeq {
    if fs == [] then [] else fs[0] + Concat(fs[1..])
  }

  predicate AllWithin(cfg: Config, fs: seq<ByteSeq>) {
    forall i :: 0 <= i < |fs| ==> WithinLimit(cfg, |fs[i]|)
  }

  lemma {:induction false} FramesAppend(fs: seq<ByteSeq>, f: ByteSeq)
    ensures Frames(fs + [f]) == Frames(fs) + Frame(f)
  {
    if fs == [] {
      assert [f][1..] == [];
    } else {
      assert (fs + [f])[1..] == fs[1..] + [f];
      FramesAppend(fs[1..], f);
    }
  }

  /** The source stands in the middle of a frame, with current left of it and the frames fs to come. */
  predicate Holds(s: Source, current: ByteSeq, fs: seq<ByteSeq>) {
    && s.stream == Frames(fs) && AllWithin(s.cfg, fs)
    && current == (if s.readBuf.Some? then s.readBuf.value else [])
  }

  lemma ReadFrameTakesOne(s: Source, current: ByteSeq, fs: seq<ByteSeq>)
    requires Holds(s, current, fs)
    ensures if fs == [] then ReadFrame(s) == Err(EndOfFile)
            else ReadFrame(s) == Ok(s.(readBuf := Some(fs[0]), stream := Frames(fs[1..])))
    ensures fs != [] ==> AllWithin(s.cfg, fs[1..])
  {
    if fs != [] {
      var f := fs[0];
      assert s.stream == PutU32(ToU32(|f|)) + (f + Frames(fs[1..]));
      assert s.stream[..4] == PutU32(ToU32(|f|));
      GetPutU32(ToU32(|f|));
      assert s.stream[4..4 + |f|] == f;
      assert s.stream[4 + |f|..] == Frames(fs[1..]);
    }
  }

  /**
   * One read of a positive size: nothing but end-of-file when no byte is left; otherwise some bytes from
   * the front of what is left, all out of one frame, with the rest still to come.
   */
  lemma {:induction false} ReadServesOneFrame(s: Source, current: ByteSeq, fs: seq<ByteSeq>, n: nat)
    returns (current': ByteSeq, fs': seq<ByteSeq>)
    requires Holds(s, current, fs) && n > 0
    ensures current + Concat(fs) == [] <==> Read(s, n) == Err(EndOfFile)
    ensures current + Concat(fs) != [] ==>
      && Read(s, n).Ok?
      && var (data, s') := Read(s, n).value;
         && Holds(s', current', fs') && s'.cfg == s.cfg
         && data != [] && |data| <= n
         && data + (current' + Concat(fs')) == current + Concat(fs)
         && (data + current' == current || data + current' in fs)
    decreases |fs|
  {
    if current != [] {
      current', fs' := After(current, n), fs;
      assert Upto(current, n) + After(current, n) == current;
      assert Upto(current, n) + (current' + Concat(fs')) == (Upto(current, n) + current') + Concat(fs');
    } else {
      ReadFrameTakesOne(s, current, fs);
      if fs == [] {
        current', fs' := [], [];
      } else {
        var s1 := ReadFrame(s).value;
        assert [] + Concat(fs) == fs[0] + Concat(fs[1..]);
        current', fs' := ReadServesOneFrame(s1, fs[0], fs[1..], n);
      }
    }
  }

  /** The results of reads of the given sizes, up to the first failure. */
  function Reads(s: Source, sizes: seq<nat>): seq<ByteSeq>
    decreases |sizes|
  {
    if sizes == [] || Read(s, sizes[0]).Err? then []
    else
      var (data, s') := Read(s, sizes[0]).value;
      [data] + Reads(s', sizes[1..])
  }

  /**
   * Any run of reads of positive sizes over a framed stream: the bytes returned are the frames' bytes in
   * order, and reading stops short of the requested number of reads only once all have been returned.
   */
  lemma {:induction false} ReadsReturnTheFrames(s: Source, current: ByteSeq, fs: seq<ByteSeq>, sizes: seq<nat>)
    requires Holds(s, current, fs) && forall i :: 0 <= i < |sizes| ==> sizes[i] > 0
    ensures Concat(Reads(s, sizes)) <= current + Concat(fs)
    ensures |Reads(s, sizes)| < |sizes| ==> Concat(Reads(s, sizes)) == current + Concat(fs)
    ensures |Reads(s, sizes)| <= |sizes|
    decreases |sizes|
  {
    if sizes != [] {
      var current', fs' := ReadServesOneFrame(s, current, fs, sizes[0]);
      if current + Concat(fs) != [] {
        var (data, s') := Read(s, sizes[0]).value;
        ReadsReturnTheFrames(s', current', fs', sizes[1..]);
        assert ([data] + Reads(s', sizes[1..]))[1..] == Reads(s', sizes[1..]);
      }
    }
  }

  /** A transport that never sees a frame over the limit ends with end-of-file only: no read is refused. */
  lemma RoundTrip(cfg: Config, fs: seq<ByteSeq>, sizes: seq<nat>)
    requires AllWithin(cfg, fs) && |sizes| > |Concat(fs)| && forall i :: 0 <= i < |sizes| ==> sizes[i] > 0
    ensures Concat(Reads(Source(cfg, None, Frames(fs)), sizes)) == Concat(fs)
  {
    var s := Source(cfg, None, Frames(fs));
    assert [] + Concat(fs) == Concat(fs);
    ReadsReturnTheFrames(s, [], fs, sizes);
    ReadsAreNonEmpty(s, [], fs, sizes);
  }

  lemma {:induction false} ReadsAreNonEmpty(s: Source, current: ByteSeq, fs: seq<ByteSeq>, sizes: seq<nat>)
    requires Holds(s, current, fs) && forall i :: 0 <= i < |sizes| ==> sizes[i] > 0
    ensures |Reads(s, sizes)| <= |Concat(Reads(s, sizes))|
    decreases |sizes|
  {
    if sizes != [] {
      var current', fs' := ReadServesOneFrame(s, current, fs, sizes[0]);
      if current + Concat(fs) != [] {
        var (data, s') := Read(s, sizes[0]).value;
        ReadsAreNonEmpty(s', current', fs', sizes[1..]);
        assert ([data] + Reads(s', sizes[1..]))[1..] == Reads(s', sizes[1..]);
      }
    }
  }

  // ---- the transport ------------------------------------------------------

  class TFramedTransport {
    const cfg: Config

    /** The transport below: bytes sent down and bytes still to come up. */
    var sent: ByteSeq
    var stream: ByteSeq

    /** None stands for a buffer that is not allocated. */
    var writeBuf: Option<ByteSeq>
    var readBuf: Option<ByteSeq>

    /** The frames flushed so far. */
    ghost var flushed: seq<ByteSeq>

    ghost predicate Valid()
      reads this
    {
      sent == Frames(flushed) && AllWithin(cfg, flushed)
    }

    function Reading(): Source
      reads this
    {
      Source(cfg, readBuf, stream)
    }

    function Written(): ByteSeq
      reads this
    {
      if writeBuf.Some? then writeBuf.value else []
    }

    constructor (cfg: Config, stream: ByteSeq)
      ensures Valid() && flushed == [] && writeBuf == None && Reading() == Source(cfg, None, stream)
    {
      this.cfg, this.stream := cfg, stream;
      sent, writeBuf, readBuf, flushed := [], None, None, [];
    }

    method Write(b: ByteSeq)
      requires Valid()
      modifies this`writeBuf
      ensures Valid() && writeBuf == Some(old(Written()) + b)
    {
      if writeBuf == None {
        writeBuf := Some([]);
      }
      writeBuf := Some(writeBuf.value + b);
    }

    /** Sends what was written as one frame, empty or not; a frame over the limit is dropped. */
    method Flush() returns (error: Option<Error>)
      requires Valid() && writeBuf.Some?
      modifies this`sent, this`writeBuf, this`flushed
      ensures Valid() && writeBuf == None
      ensures WithinLimit(cfg, |old(Written())|) ==> error == None && flushed == old(flushed) + [old(Written())]
      ensures !WithinLimit(cfg, |old(Written())|) ==> error == Some(SizeLimit) && flushed == old(flushed)
    {
      var frame := writeBuf.value;
      writeBuf := None;
      if |frame| > THEADER_MAX_FRAME_SIZE || |frame| > cfg.FrameLimit() {
        return Some(SizeLimit);
      }
      FramesAppend(flushed, frame);
      sent := sent + PutU32(ToU32(|frame|));
      if |frame| > 0 {
        sent := sent + frame;
      }
      flushed := flushed + [frame];
      error := None;
    }

    method NextFrame() returns (error: Option<Error>)
      modifies this`readBuf, this`stream
      ensures match ReadFrame(old(Reading()))
              case Err(e) => error == Some(e)
              case Ok(s) => error == None && Reading() == s
    {
      readBuf := Some([]);
      if |stream| < 4 {
        return Some(EndOfFile);
      }
      var size := GetU32(stream[..4]);
      if size > cfg.FrameLimit() {
        return Some(BadFrame);
      }
      ghost var all := stream;
      stream := stream[4..];
      if |stream| < size {
        return Some(EndOfFile);
      }
      assert stream[..size] == all[4..4 + size] && stream[size..] == all[4 + size..];
      readBuf := Some(stream[..size]);
      stream := stream[size..];
      error := None;
    }

    /** The reading loop: one iteration per frame passed over, each taking at least four bytes. */
    method ReadInto(n: nat) returns (data: ByteSeq, error: Option<Error>)
      modifies this`readBuf, this`stream
      ensures match Read(old(Reading()), n)
              case Err(e) => error == Some(e)
              case Ok((d, s)) => error == None && data == d && Reading() == s
    {
      while true
        invariant Read(Reading(), n) == Read(old(Reading()), n)
        decreases |stream|
      {
        if readBuf.Some? && (readBuf.value != [] || n == 0) {
          data, error := Upto(readBuf.value, n), None;
          var rest := After(readBuf.value, n);
          readBuf := if rest == [] then None else Some(rest);
          return;
        }
        error := NextFrame();
        if error != None {
          return [], error;
        }
      }
    }
  }
}
