/** The read-only view (class ConstBuffer): a cursor over bytes it neither
    owns nor writes, always starting at offset 0. */
module ConstView {
  import opened BufferStatus
  import opened Cursor

  class ConstBuffer {
    const base: BufferBase

    /** A view's size is the length of the region it was given, and none
        of its operations moves the cursor past that size. */
    ghost predicate Valid()
      reads this, base
    {
      base.Valid() && base.size == |base.data| && base.offset <= base.size
    }

    /** `ConstBuffer(data, size)` over a raw region. */
    constructor (region: Option<seq<bv8>>)
      ensures Valid() && fresh(base)
      ensures region.None? ==> base.State() == CursorState(false, [], 0, 0)
      ensures region.Some? ==> base.State() == CursorState(true, region.value, |region.value|, 0)
    {
      base := new BufferBase(region);
    }

    /** `ConstBuffer(Buffer*)`: captures the region pointer and the size of
        the given buffer's cursor at construction time. */
    constructor FromBuffer(b: BufferBase)
      requires b.Valid()
      ensures Valid() && fresh(base)
      ensures base.State() == CursorState(b.hasData, b.data[..b.size], b.size, 0)
    {
      base := new BufferBase(if b.hasData then Some(b.data[..b.size]) else None);
    }

    /** The unread bytes: none exactly at the end. */
    function NBytesLeftToRead(): (r: nat)
      reads this, base
      requires Valid()
      ensures base.offset + r == base.size
      ensures r == 0 <==> base.End()
    {
      base.size - base.offset
    }
  }
}
