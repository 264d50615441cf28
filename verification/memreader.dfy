/**
 * The in-memory MREADER of n64_sfx.c: a cursor over a byte buffer that the
 * sound library reads converted sound effects through, the byte-swap
 * macros of the WAV header, and the sound number rule of play_sfx.
 */
module MemReader {
  import opened Wrappers

  /** The `whence` values of fseek. */
  const SeekSet: int := 0
  const SeekCur: int := 1
  const SeekEnd: int := 2

  /** The EOF value _reader_Get returns at the end of the data. */
  const Eof: int := -1

  /**
   * RAMREADER: `buffer` is the memory read from, `len` the number of bytes
   * the reader was told it holds, `pos` the cursor and `iobase` the base
   * of the embedded MREADER (zero from calloc; nothing in the reader sets
   * it).
   */
  class RamReader {
    const buffer: seq<bv8>
    var len: int
    var pos: int
    var iobase: int

    /** The cursor stays within iobase .. len. */
    ghost predicate Valid()
      reads this
    {
      0 <= iobase <= pos <= len
    }

    /** my_new_mem_reader: a zeroed reader over `buffer`, told it holds `len` bytes. */
    constructor (buffer: seq<bv8>, len: int)
      requires 0 <= len
      ensures Valid()
      ensures this.buffer == buffer && this.len == len && pos == 0 && iobase == 0
    {
      this.buffer := buffer;
      this.len := len;
      pos := 0;
      iobase := 0;
    }
  }

  /** _reader_Eof: true for a missing reader or a cursor at or past the end. */
  predicate AtEof(reader: RamReader?)
    reads reader
  {
    reader == null || reader.pos >= reader.len
  }

  /** _reader_Tell: the cursor relative to iobase; 0 for a missing reader. */
  function Tell(reader: RamReader?): (t: int)
    reads reader
    ensures reader == null ==> t == 0
    ensures reader != null && reader.Valid() ==> 0 <= t <= reader.len - reader.iobase
  {
    if reader == null then 0 else reader.pos - reader.iobase
  }

  /**
   * _reader_Read: copies min(size, len - pos) bytes from buffer[pos ..] to
   * the front of `ptr` and moves the cursor past them; the result is 1
   * when all `size` bytes were there and 0 otherwise. A missing reader, a
   * zero size or a cursor at the end copies nothing and gives 0.
   */
  method Read(reader: RamReader?, ptr: array<bv8>, size: nat) returns (ret: int)
    requires reader != null ==> reader.Valid() && reader.len <= |reader.buffer|
    requires size <= ptr.Length
    modifies reader, ptr
    ensures reader != null ==> reader.Valid() && reader.len == old(reader.len) && reader.iobase == old(reader.iobase)
    ensures reader == null || size == 0 || old(reader.pos) >= reader.len ==>
      ret == 0 && ptr[..] == old(ptr[..]) && (reader != null ==> reader.pos == old(reader.pos))
    ensures reader != null && size > 0 && old(reader.pos) < reader.len ==>
      var n := if old(reader.pos) + size <= reader.len then size else reader.len - old(reader.pos);
      && (ret == 1 <==> old(reader.pos) + size <= reader.len)
      && (ret == 0 || ret == 1)
      && reader.pos == old(reader.pos) + n
      && (forall k :: 0 <= k < ptr.Length ==>
            ptr[k] == if k < n then reader.buffer[old(reader.pos) + k] else old(ptr[k]))
  {
    if reader == null || size == 0 {
      return 0;
    }
    var siz := size;
    if reader.pos >= reader.len {
      return 0;
    }
    if reader.pos + siz > reader.len {
      siz := reader.len - reader.pos;
      ret := 0;
    } else {
      ret := 1;
    }
    ghost var start := reader.pos;
    var s := reader.pos;
    reader.pos := reader.pos + siz;
    ghost var end := reader.pos;
    var d := 0;
    while siz > 0
      invariant reader.pos == end
      invariant 0 <= d && siz >= 0 && d + siz == reader.pos - start && s == start + d
      invariant start <= s <= reader.pos <= reader.len && d + siz <= size
      invariant reader.len == old(reader.len) && reader.iobase == old(reader.iobase)
      invariant forall k :: 0 <= k < ptr.Length ==>
        ptr[k] == if k < d then reader.buffer[start + k] else old(ptr[k])
    {
      ptr[d] := reader.buffer[s];
      d := d + 1;
      s := s + 1;
      siz := siz - 1;
    }
  }

  /** _reader_Get: the byte at the cursor, moving past it, or Eof at the end. */
  method Get(reader: RamReader) returns (c: int)
    requires reader.Valid() && reader.len <= |reader.buffer|
    modifies reader
    ensures reader.Valid() && reader.len == old(reader.len) && reader.iobase == old(reader.iobase)
    ensures old(reader.pos) >= reader.len ==> c == Eof && reader.pos == old(reader.pos)
    ensures old(reader.pos) < reader.len ==>
      c == reader.buffer[old(reader.pos)] as int && reader.pos == old(reader.pos) + 1
    ensures (c == Eof) == old(AtEof(reader))
  {
    if reader.pos >= reader.len {
      return Eof;
    }
    c := reader.buffer[reader.pos] as int;
    reader.pos := reader.pos + 1;
  }

  /**
   * The position _reader_Seek aims at before clamping: relative to the
   * cursor, to iobase or to the end; None for an unknown `whence`.
   */
  function SeekTarget(pos: int, iobase: int, len: int, offset: int, whence: int): (t: Option<int>)
    ensures whence == SeekCur ==> t == Some(pos + offset)
    ensures whence == SeekSet ==> t == Some(iobase + offset)
    ensures whence == SeekEnd ==> t == Some(len + offset)
    ensures t.None? <==> whence !in {SeekSet, SeekCur, SeekEnd}
  {
    if whence == SeekCur then Some(pos + offset)
    else if whence == SeekSet then Some(iobase + offset)
    else if whence == SeekEnd then Some(len + offset)
    else None
  }

  /**
   * _reader_Seek: -1 for a missing reader or an unknown `whence` (the
   * cursor unchanged); a target below iobase puts the cursor at iobase and
   * gives -1; a target past the end puts it at the end; otherwise the
   * cursor goes to the target. Either way the cursor ends in iobase .. len.
   */
  method Seek(reader: RamReader?, offset: int, whence: int) returns (ret: int)
    requires reader != null ==> reader.Valid()
    modifies reader
    ensures reader != null ==> reader.Valid() && reader.len == old(reader.len) && reader.iobase == old(reader.iobase)
    ensures reader == null ==> ret == -1
    ensures reader != null ==>
      match SeekTarget(old(reader.pos), reader.iobase, reader.len, offset, whence)
      case None => ret == -1 && reader.pos == old(reader.pos)
      case Some(t) =>
        if t < reader.iobase then ret == -1 && reader.pos == reader.iobase
        else if t > reader.len then ret == 0 && reader.pos == reader.len
        else ret == 0 && reader.pos == t
  {
    if reader == null {
      return -1;
    }
    if whence == SeekCur {
      reader.pos := reader.pos + offset;
    } else if whence == SeekSet {
      reader.pos := reader.iobase + offset;
    } else if whence == SeekEnd {
      reader.pos := reader.len + offset;
    } else {
      return -1;
    }
    if reader.pos < reader.iobase {
      reader.pos := reader.iobase;
      return -1;
    }
    if reader.pos > reader.len {
      reader.pos := reader.len;
    }
    return 0;
  }

  /** SET with the offset of a cursor from iobase targets that cursor. */
  lemma SeekSetTarget(pos: int, iobase: int, len: int)
    requires 0 <= iobase <= pos <= len
    ensures SeekTarget(pos, iobase, len, pos - iobase, SeekSet) == Some(pos)
  {
  }

  /** Seeking with SET to the position Tell reports succeeds and leaves the
   *  cursor where it was. */
  method SeekSetTell(reader: RamReader) returns (ret: int)
    requires reader.Valid()
    modifies reader
    ensures reader.Valid() && ret == 0
    ensures reader.pos == old(reader.pos) && reader.iobase == old(reader.iobase) && reader.len == old(reader.len)
  {
    var t := Tell(reader);
    SeekSetTarget(reader.pos, reader.iobase, reader.len);
    ret := Seek(reader, t, SeekSet);
  }

  // -----------------------------------------------------------------------
  // The byte swaps of the WAV header.

  /** The low and high bytes of a 16-bit value. */
  function Lo16(x: bv16): bv8 { (x & 0xFF) as bv8 }
  function Hi16(x: bv16): bv8 { (x >> 8) as bv8 }

  /** Byte k of a 32-bit value, counting from the least significant. */
  function Byte32(x: bv32, k: nat): bv8
    requires k < 4
  {
    if k == 0 then (x & 0xFF) as bv8
    else if k == 1 then ((x >> 8) & 0xFF) as bv8
    else if k == 2 then ((x >> 16) & 0xFF) as bv8
    else (x >> 24) as bv8
  }

  /** _swap16: the two bytes exchanged. */
  function Swap16(x: bv16): (r: bv16)
    ensures Lo16(r) == Hi16(x) && Hi16(r) == Lo16(x)
  {
    (x << 8) | (x >> 8)
  }

  /** _swap32: the four bytes in reverse order. */
  function Swap32(x: bv32): (r: bv32)
    ensures Byte32(r, 0) == Byte32(x, 3) && Byte32(r, 1) == Byte32(x, 2)
    ensures Byte32(r, 2) == Byte32(x, 1) && Byte32(r, 3) == Byte32(x, 0)
  {
    (x << 24) | ((x << 8) & 0x00FF_0000) | ((x >> 8) & 0x0000_FF00) | (x >> 24)
  }

  /** A 16-bit value is determined by its two bytes. */
  lemma Bytes16Determine(x: bv16, y: bv16)
    requires Lo16(x) == Lo16(y) && Hi16(x) == Hi16(y)
    ensures x == y
  {
  }

  /** A 32-bit value is determined by its four bytes. */
  lemma Bytes32Determine(x: bv32, y: bv32)
    requires Byte32(x, 0) == Byte32(y, 0) && Byte32(x, 1) == Byte32(y, 1)
    requires Byte32(x, 2) == Byte32(y, 2) && Byte32(x, 3) == Byte32(y, 3)
    ensures x == y
  {
  }

  /** Swapping twice gives back the input. */
  lemma Swap16Involution(x: bv16)
    ensures Swap16(Swap16(x)) == x
  {
    Bytes16Determine(Swap16(Swap16(x)), x);
  }

  lemma Swap32Involution(x: bv32)
    ensures Swap32(Swap32(x)) == x
  {
    Bytes32Determine(Swap32(Swap32(x)), x);
  }

  // -----------------------------------------------------------------------
  // play_sfx.

  /**
   * The slot play_sfx plays for sound number n, given which slots hold a
   * loaded sample: sound 0 is silence, sound n is slot n - 1, and a slot
   * without a sample plays nothing.
   */
  function PlaySfx(loaded: seq<bool>, n: int): (slot: Option<nat>)
    requires n == 0 || 1 <= n <= |loaded|
    ensures slot.Some? ==> slot.value < |loaded| && loaded[slot.value] && slot.value + 1 == n
    ensures slot.None? <==> n == 0 || !loaded[n - 1]
  {
    if n == 0 then None
    else if loaded[n - 1] then Some(n - 1)
    else None
  }
}
