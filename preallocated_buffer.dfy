/** The fixed-length, write-only cursor (class PreallocatedBuffer) over a
    region supplied by the caller; it never reallocates. */
module Preallocated {
  import opened Bytes
  import opened BufferStatus
  import opened Cursor

  class PreallocatedBuffer {
    const base: BufferBase

    /** The size is the full supplied length and the cursor stays within
        it, so the free space is never negative. */
    ghost predicate Valid()
      reads this, base
    {
      base.Valid() && base.hasData && base.size == |base.data| && base.offset <= base.size
    }

    /** `PreallocatedBuffer(data, size)` over a region of `size` bytes. */
    constructor (region: seq<bv8>)
      ensures Valid() && fresh(base)
      ensures base.State() == CursorState(true, region, |region|, 0)
    {
      base := new BufferBase(Some(region));
    }

    function FreeSpace(): (r: nat)
      reads this, base
      requires Valid()
      ensures base.offset + r == base.size
    {
      base.size - base.offset
    }

    /** Copies `bytes` at the cursor and moves the cursor past them; a write
        longer than the free space is an error that changes nothing. */
    method Write(bytes: seq<bv8>) returns (st: Status)
      requires Valid()
      modifies base
      ensures Valid()
      ensures |bytes| > old(FreeSpace()) ==>
                st == Err(PreallocatedWriteOverflow) && base.State() == old(base.State())
      ensures |bytes| <= old(FreeSpace()) ==>
                && st == Ok
                && base.State() == old(base.State()).(
                     data := Overwrite(old(base.data), old(base.offset), bytes),
                     offset := old(base.offset) + |bytes|)
    {
      if |bytes| > base.size - base.offset {
        return Err(PreallocatedWriteOverflow);
      }
      base.data := Overwrite(base.data, base.offset, bytes);
      base.offset := base.offset + |bytes|;
      st := Ok;
    }
  }
}
