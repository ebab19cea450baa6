/** The size limits a reader is configured with, and the checks made against them. */
module Configuration {
  import opened Bytes

  const DEFAULT_MAX_MESSAGE_SIZE := 100 * 1024 * 1024
  const DEFAULT_MAX_FRAME_SIZE := 16384000

  type Limit = x: int | IsI32(x) witness 0

  /** A nil configuration behaves like the one whose limits are all zero. */
  datatype Config = Config(maxMessageSize: Limit, maxFrameSize: Limit, maxContainerSize: Limit) {
    function MessageLimit(): (n: Limit)
      ensures n > 0
    {
      if maxMessageSize <= 0 then DEFAULT_MAX_MESSAGE_SIZE else maxMessageSize
    }

    function FrameLimit(): (n: Limit)
      ensures 0 < n <= MessageLimit()
    {
      var limit := if maxFrameSize <= 0 then DEFAULT_MAX_FRAME_SIZE else maxFrameSize;
      if MessageLimit() < limit then MessageLimit() else limit
    }

    function ContainerLimit(): (n: Limit)
      ensures n > 0
    {
      if maxContainerSize <= 0 then MAX_I32 else maxContainerSize
    }
  }

  function CheckSize(size: int, cfg: Config): (r: Result<()>)
    requires IsI32(size)
    ensures r.Ok? <==> 0 <= size <= cfg.MessageLimit()
    ensures r.Err? ==> r.error == if size < 0 then NegativeSize else SizeLimit
  {
    if size < 0 then Err(NegativeSize)
    else if size > cfg.MessageLimit() then Err(SizeLimit)
    else Ok(())
  }

  lemma ProductFits(size: int, minElemSize: int)
    requires 0 <= size <= MAX_I32 && 0 <= minElemSize <= MAX_I32
    ensures 0 <= size * minElemSize && IsI64(size * minElemSize)
  {
    MulMonotone(size, MAX_I32, minElemSize);
  }

  lemma MulMonotone(a: int, b: int, m: int)
    requires 0 <= a <= b && 0 <= m
    ensures 0 <= a * m <= b * m
  {
  }

  /**
   * A container of size elements of at least minElemSize bytes each. The machine arithmetic is
   * written out; that it never wraps is part of what the contract says.
   */
  function CheckContainerSize(size: int, minElemSize: int, remaining: Option<nat>, cfg: Config): (r: Result<()>)
    requires IsI64(size) && 0 <= minElemSize <= MAX_I32
    ensures r.Ok? <==>
            && 0 <= size <= cfg.ContainerLimit()
            && size * minElemSize <= cfg.MessageLimit()
            && (remaining.Some? ==> size * minElemSize <= remaining.value)
    ensures r.Err? ==> r.error == if size < 0 then NegativeSize else SizeLimit
  {
    if size < 0 then Err(NegativeSize)
    else if size > MAX_I32 then Err(SizeLimit)
    else if size > cfg.ContainerLimit() then Err(SizeLimit)
    else
      ProductFits(size, minElemSize);
      var total := ToI64(size * minElemSize);
      if total > MAX_I32 then Err(SizeLimit)
      else if remaining.Some? && ToU64(total) > remaining.value then Err(SizeLimit)
      else CheckSize(ToI32(total), cfg)
  }

  /** An accepted count never exceeds the bytes known to be left, nor does the space it implies. */
  lemma AcceptedCountIsBacked(size: int, minElemSize: int, remaining: nat, cfg: Config)
    requires IsI64(size) && 1 <= minElemSize <= MAX_I32
    requires CheckContainerSize(size, minElemSize, Some(remaining), cfg).Ok?
    ensures 0 <= size <= size * minElemSize <= remaining
  {
    MulMonotone(1, minElemSize, size);
  }

  /** A count within the limit whose elements, at their least, are within the message limit. */
  predicate FitsCount(cfg: Config, n: nat, minElemSize: nat) {
    n <= cfg.ContainerLimit() && n * minElemSize <= cfg.MessageLimit()
  }
}
