/** The cursor contract every buffer kind shares (class BufferBase): a region
    pointer, the logical size of the region and a read/write offset. */
module Cursor {
  import opened Bytes
  import opened BufferStatus

  /** The value of a cursor's fields. `hasData` is false for the null region
      pointer; `data` are the bytes the pointer gives access to. */
  datatype CursorState = CursorState(hasData: bool, data: seq<bv8>, size: nat, offset: nat)
  {
    /** `size` bytes are addressable, and a null pointer addresses none.
        The offset is NOT bounded by the size here: the owning buffer's
        `set_size` and copy constructor can leave it past the end. */
    predicate Valid() {
      size <= |data| && (!hasData ==> data == [])
    }

    /** The next `n` bytes after the cursor. */
    function Unread(n: nat): (r: seq<bv8>)
      requires Valid() && offset + n <= size
      ensures |r| == n
    {
      data[offset..offset + n]
    }
  }

  class BufferBase {
    var hasData: bool
    var data: seq<bv8>
    var size: nat
    var offset: nat

    function State(): CursorState
      reads this
    {
      CursorState(hasData, data, size, offset)
    }

    ghost predicate Valid()
      reads this
    {
      State().Valid()
    }

    /** `BufferBase()` for `None` and `BufferBase(data, size)` over a region
        of `size` bytes for `Some`; both start with the cursor at 0. */
    constructor (region: Option<seq<bv8>>)
      ensures Valid()
      ensures region.None? ==> State() == CursorState(false, [], 0, 0)
      ensures region.Some? ==> State() == CursorState(true, region.value, |region.value|, 0)
    {
      match region
      case None =>
        hasData, data, size, offset := false, [], 0, 0;
      case Some(bytes) =>
        hasData, data, size, offset := true, bytes, |bytes|, 0;
    }

    method ResetOffset()
      modifies this
      ensures State() == old(State()).(offset := 0)
    {
      offset := 0;
    }

    /** Moves the cursor to `o`; a position past `size` is a fault and
        changes nothing. */
    method SetOffset(o: nat) returns (st: Status)
      modifies this
      ensures o > old(size) ==> st == Fatal(OffsetOutOfRange) && State() == old(State())
      ensures o <= old(size) ==> st == Ok && State() == old(State()).(offset := o)
    {
      if o > size {
        return Fatal(OffsetOutOfRange);
      }
      offset := o;
      st := Ok;
    }

    /** Seeks forward by `n`, stopping at the end: the cursor never moves
        back and never passes `size`. */
    method AdvanceOffset(n: nat)
      requires offset <= size
      modifies this
      ensures State() == old(State()).(offset := Min(old(offset) + n, old(size)))
      ensures old(offset) <= offset <= size
      ensures End() <==> n >= old(size) - old(offset)
    {
      if n >= size - offset {
        offset := size;
      } else {
        offset := offset + n;
      }
    }

    /** At the end exactly when no bytes are left to read. */
    predicate End(): (r: bool)
      reads this
      ensures offset <= size ==> (r <==> size - offset == 0)
    {
      offset == size
    }

    /** Copies the `n` bytes at the cursor into `dst` and moves the cursor
        past them; asking for more than `size - offset` bytes is an error
        that leaves the cursor and `dst` alone. */
    method Read(dst: array<bv8>, n: nat) returns (st: Status)
      requires Valid() && offset <= size
      requires n <= size - offset ==> n <= dst.Length
      modifies this, dst
      ensures Valid()
      ensures n > old(size - offset) ==>
                st == Err(ReadOverflow) && State() == old(State()) && dst[..] == old(dst[..])
      ensures n <= old(size - offset) ==>
                && st == Ok
                && State() == old(State()).(offset := old(offset) + n)
                && dst[..n] == old(data[offset..offset + n])
                && dst[n..] == old(dst[n..])
    {
      if n > size - offset {
        return Err(ReadOverflow);
      }
      forall i | 0 <= i < n {
        dst[i] := data[offset + i];
      }
      offset := offset + n;
      st := Ok;
    }

    /** Copies the `n` bytes at position `at` into `dst` without moving the
        cursor; the bound is checked against `at`, not the cursor. */
    method ReadAt(dst: array<bv8>, at: nat, n: nat) returns (st: Status)
      requires Valid() && at <= size
      requires n <= size - at ==> n <= dst.Length
      modifies dst
      ensures n > size - at ==> st == Err(ReadOverflow) && dst[..] == old(dst[..])
      ensures n <= size - at ==>
                st == Ok && dst[..n] == data[at..at + n] && dst[n..] == old(dst[n..])
    {
      if n > size - at {
        return Err(ReadOverflow);
      }
      forall i | 0 <= i < n {
        dst[i] := data[at + i];
      }
      st := Ok;
    }
  }
}
