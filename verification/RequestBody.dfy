/** Request bodies: a shared source with a position, measured once and opened
    again for every attempt. */
module RequestBody {
  import opened GoErrors

  newtype Byte = x: int | 0 <= x < 256

  function Min(a: int, b: int): int {
    if a <= b then a else b
  }

  /** What a source standing at pos still yields; it may stand past its end. */
  function Rest(data: seq<Byte>, pos: nat): seq<Byte> {
    if pos <= |data| then data[pos..] else []
  }

  /** io.LimitReader, for a limit that is one; a negative limit is none. */
  function Clip(s: seq<Byte>, limit: int): seq<Byte> {
    if 0 <= limit < |s| then s[..limit] else s
  }

  // ---------- bodies as values ----------

  /** An encoded body: none, bytes in memory, or a source that stood at start
      when it was measured and can or cannot be sent back there. */
  datatype Encoded =
    | Absent
    | Memory(bytes: seq<Byte>)
    | Streamed(data: seq<Byte>, start: nat, size: int, reopens: bool)
  {
    /** Body.Size, the declared length; negative means unknown. */
    function Declared(): int {
      match this
      case Absent => 0
      case Memory(bytes) => |bytes|
      case Streamed(_, _, size, _) => size
    }

    /** The bytes a fresh open yields when read to its end. */
    function Offer(): seq<Byte> {
      match this
      case Absent => []
      case Memory(bytes) => bytes
      case Streamed(data, start, size, _) => Clip(Rest(data, start), size)
    }
  }

  /** The size streamCodec.Encode records, for a source of this length standing
      at pos; sized is the answer of its Size method if it has one. */
  function MeasuredSize(length: nat, pos: nat, seekable: bool, sized: Option<int>): int {
    var size := match sized case Some(n) => n case None => -1;
    if !seekable then size
    else if size < 0 || size > length - pos then length - pos
    else size
  }

  function EncodeSource(data: seq<Byte>, pos: nat, seekable: bool, sized: Option<int>): Encoded {
    Streamed(data, pos, MeasuredSize(|data|, pos, seekable, sized), seekable)
  }

  /** For a seekable source the declared length is the length delivered exactly
      when the source did not stand past its end; then the bytes are the ones
      from its offset on, as many as its Size method allows. */
  lemma SeekableExactIff(data: seq<Byte>, pos: nat, sized: Option<int>)
    ensures var enc := EncodeSource(data, pos, true, sized);
            && (enc.Declared() == |enc.Offer()| <==> pos <= |data|)
            && (pos <= |data| ==>
                  && 0 <= enc.Declared() <= |data| - pos
                  && enc.Offer() == data[pos..pos + enc.Declared()]
                  && (sized.None? || sized.value < 0 || sized.value > |data| - pos
                      ==> enc.Offer() == data[pos..]))
            && (sized.Some? && 0 <= sized.value <= |data| - pos ==> enc.Declared() == sized.value)
            && (pos > |data| ==> enc.Declared() < 0 && enc.Offer() == [])
  {
    var enc := EncodeSource(data, pos, true, sized);
    if pos <= |data| {
      assert data[pos..][..enc.Declared()] == data[pos..pos + enc.Declared()];
    }
  }

  /** A bare reader offers what is left of it, up to its own size if it states
      one, and declares that size; without one the length is unknown. */
  lemma BareReaderOffers(data: seq<Byte>, pos: nat, sized: Option<int>)
    ensures var enc := EncodeSource(data, pos, false, sized);
            && (pos > |data| ==> enc.Offer() == [])
            && (sized.None? ==> enc.Declared() == -1 && (pos <= |data| ==> enc.Offer() == data[pos..]))
            && (sized.Some? ==> enc.Declared() == sized.value)
            && (sized.Some? && pos <= |data| && 0 <= sized.value <= |data| - pos ==>
                  enc.Offer() == data[pos..pos + sized.value])
  {
    if pos <= |data| && sized.Some? && 0 <= sized.value <= |data| - pos {
      assert data[pos..][..sized.value] == data[pos..pos + sized.value];
    }
  }

  // ---------- the source and its readers ----------

  class Source {
    const data: seq<Byte>
    const seekable: bool
    const sized: Option<int>
    var pos: nat

    constructor (data: seq<Byte>, seekable: bool, sized: Option<int>)
      ensures this.data == data && this.seekable == seekable && this.sized == sized && pos == 0
    {
      this.data, this.seekable, this.sized, this.pos := data, seekable, sized, 0;
    }

    /** Seek, which the source may refuse. */
    method Seek(to: nat, fault: Option<Err>) returns (err: Option<Err>)
      modifies this
      ensures err == fault
      ensures pos == if fault.None? then to else old(pos)
    {
      if fault.None? {
        pos := to;
      }
      err := fault;
    }
  }

  /** One open body: a source behind a limit, negative for none. */
  class Reader {
    const src: Source
    var left: int

    constructor (src: Source, limit: int)
      ensures this.src == src && left == limit
    {
      this.src, this.left := src, limit;
    }

    /** What reading to the end would yield. */
    function Pending(): seq<Byte>
      reads this, src
    {
      Clip(Rest(src.data, src.pos), left)
    }

    /** Reads up to n bytes. */
    method Read(n: nat) returns (p: seq<Byte>)
      modifies this, src
      ensures p == old(Pending())[..Min(n, |old(Pending())|)]
      ensures Pending() == old(Pending())[Min(n, |old(Pending())|)..]
    {
      ghost var whole := Pending();
      var k := Min(n, |Rest(src.data, src.pos)|);
      if 0 <= left < k {
        k := left;
      }
      p := Rest(src.data, src.pos)[..k];
      if left >= 0 {
        left := left - k;
      }
      src.pos := src.pos + k;
      assert k == Min(n, |whole|);
      assert Pending() == whole[k..];
    }
  }

  /** How the three seeks of the measurement go. */
  datatype SeekFaults = SeekFaults(current: Option<Err>, end: Option<Err>, restore: Option<Err>)

  /** The first of the three to fail, if any; a bare reader is not measured. */
  function MeasureError(seekable: bool, f: SeekFaults): Option<Err> {
    if !seekable then None
    else if f.current.Some? then f.current
    else if f.end.Some? then f.end
    else f.restore
  }

  class StreamBody {
    const src: Source
    const seeker: bool
    const offset: nat
    const size: int
    ghost const start: nat
    var used: bool

    /** Until its first use the source stands where it was measured. */
    ghost predicate Valid()
      reads this, src
    {
      && (!used ==> src.pos == start)
      && (seeker ==> offset == start)
    }

    ghost function Model(): Encoded {
      Streamed(src.data, start, size, seeker)
    }

    constructor (src: Source, seeker: bool, offset: nat, size: int)
      requires seeker ==> offset == src.pos
      ensures Valid() && !used
      ensures this.src == src && Model() == Streamed(src.data, src.pos, size, seeker)
    {
      this.src, this.seeker, this.offset, this.size := src, seeker, offset, size;
      start, used := src.pos, false;
    }

    /** Every successful open offers the same bytes, however much of an earlier
        one was read; it fails only on a second use, of a source that cannot or
        does not seek back. */
    method Open(fault: Option<Err>) returns (r: Result<Reader>)
      requires Valid()
      modifies this, src
      ensures Valid()
      ensures r.Failed? <==> old(used) && (!seeker || fault.Some?)
      ensures r.Failed? ==> used == old(used) && src.pos == old(src.pos)
      ensures r.Ok? ==> used && fresh(r.value) && r.value.src == src && r.value.Pending() == Model().Offer()
    {
      if used && !seeker {
        return Failed(Text("stream: can't reopen the body"));
      }
      if used {
        var err := src.Seek(offset, fault);
        if err.Some? {
          return Failed(err.value);
        }
      }
      used := true;
      var rd := new Reader(src, size);
      return Ok(rd);
    }
  }

  /** streamCodec.Encode for a reader: the size it records, and the source left
      where it stood. */
  method Encode(src: Source, faults: SeekFaults) returns (r: Result<StreamBody>)
    modifies src
    ensures MeasureError(src.seekable, faults) == match r case Failed(e) => Some(e) case Ok(_) => None
    ensures r.Ok? ==>
              && fresh(r.value) && r.value.src == src && r.value.Valid() && !r.value.used
              && src.pos == old(src.pos)
              && r.value.Model() == EncodeSource(src.data, old(src.pos), src.seekable, src.sized)
  {
    var size := -1;
    if src.sized.Some? {
      size := src.sized.value;
    }
    if !src.seekable {
      var b := new StreamBody(src, false, 0, size);
      return Ok(b);
    }
    if faults.current.Some? {
      return Failed(faults.current.value);
    }
    var offset := src.pos;
    var err := src.Seek(|src.data|, faults.end);
    if err.Some? {
      return Failed(err.value);
    }
    var end: int := src.pos;
    err := src.Seek(offset, faults.restore);
    if err.Some? {
      return Failed(err.value);
    }
    var remaining: int := end - offset;
    if size < 0 || size > remaining {
      size := remaining;
    }
    var b := new StreamBody(src, true, offset, size);
    return Ok(b);
  }
}
