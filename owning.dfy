/** The owning, growable buffer (class OwningMemoryBuffer): a cursor whose
    region is either a backing store the buffer owns (`vec`), or a region
    that someone else owns and that the buffer only wraps. Every method is
    proved against the corresponding function of module OwningSpec. */
module Owning {
  import opened Bytes
  import opened BufferStatus
  import opened Cursor
  import opened Growth
  import opened ConstView
  import opened OwningSpec

  class OwningMemoryBuffer {
    const base: BufferBase
    var vec: seq<bv8>
    var ownsData: bool
    var preallocated: bool

    function State(): OwningState
      reads this, base
    {
      OwningState(base.State(), vec, ownsData, preallocated)
    }

    ghost predicate Valid()
      reads this, base
    {
      State().Valid()
    }

    /** The default constructor: owning, growable, nothing allocated. */
    constructor ()
      ensures Valid() && fresh(base)
      ensures State() == Empty
    {
      base := new BufferBase(None);
      vec, ownsData, preallocated := [], true, false;
    }

    /** The preallocating constructor, with the growth done while the
        buffer is still growable and the flag set afterwards (see
        `OwningSpec.PreallocatedCtorAsWritten` for the order the source
        uses). */
    constructor Preallocated(n: nat)
      ensures Valid() && fresh(base)
      ensures State() == PreallocatedCtor(n)
    {
      base := new BufferBase(None);
      vec, ownsData, preallocated := [], true, false;
      new;
      var st := EnsureAllocedSize(n);
      preallocated := true;
      base.size := 0;
    }

    /** Wraps a region the buffer does not own; it can then be neither
        grown nor written. */
    constructor Wrap(region: Option<seq<bv8>>)
      ensures Valid() && fresh(base)
      ensures State() == Wrapping(region)
    {
      base := new BufferBase(region);
      vec, ownsData, preallocated := [], false, false;
    }

    /** The copy constructor: the store and both flags are copied, the
        offset always; the region and the size only when `buff` owns a
        non-null region. */
    constructor Copy(buff: OwningMemoryBuffer)
      requires buff.Valid()
      ensures Valid() && fresh(base)
      ensures State() == CopyOf(buff.State())
    {
      base := new BufferBase(None);
      vec, ownsData, preallocated := buff.vec, buff.ownsData, buff.preallocated;
      new;
      base.offset := buff.base.offset;
      if buff.ownsData && buff.base.hasData {
        base.hasData, base.data := true, vec;
        base.size := buff.base.size;
      }
    }

    /** The move constructor: takes over the region, the size, the offset
        and the store, and leaves `buff` with none of them. */
    constructor Move(buff: OwningMemoryBuffer)
      requires buff.Valid()
      modifies buff, buff.base
      ensures Valid() && fresh(base)
      ensures State() == old(buff.State())
      ensures buff.State() == MovedFrom(old(buff.State()))
    {
      base := new BufferBase(None);
      vec, ownsData, preallocated := buff.vec, buff.ownsData, buff.preallocated;
      new;
      base.hasData, base.data, base.size, base.offset :=
        buff.base.hasData, buff.base.data, buff.base.size, buff.base.offset;
      buff.base.hasData, buff.base.data, buff.base.size, buff.base.offset := false, [], 0, 0;
      buff.vec := [];
    }

    /** Extends the logical size by `n` bytes already written past it. */
    method AdvanceSize(n: nat)
      requires Valid() && ownsData && base.size + n <= |vec|
      modifies base
      ensures Valid()
      ensures State() == old(State()).(cursor := old(base.State()).(size := old(base.size) + n))
    {
      base.size := base.size + n;
    }

    /** The bytes between the logical size and the capacity. */
    function FreeSpace(): (r: nat)
      reads this, base
      requires base.size <= |vec|
      ensures base.size + r == State().Capacity()
    {
      |vec| - base.size
    }

    method Clear()
      requires Valid()
      modifies this, base
      ensures Valid()
      ensures State() == Cleared(old(State()))
    {
      if base.hasData && ownsData {
        vec := [];
      }
      base.hasData, base.data, base.offset, base.size := false, [], 0, 0;
    }

    method ResetSize()
      requires Valid()
      modifies base
      ensures Valid()
      ensures State() == old(State()).(cursor := old(base.State()).(size := 0, offset := 0))
    {
      base.offset, base.size := 0, 0;
    }

    /** Sets the logical size without any check of the cursor; the new
        size must still lie within the region. */
    method SetSize(n: nat)
      requires Valid() && n <= |base.data|
      modifies base
      ensures Valid()
      ensures State() == old(State()).(cursor := old(base.State()).(size := n))
    {
      base.size := n;
    }

    method Realloc(n: nat) returns (st: Status)
      requires Valid()
      modifies this, base
      ensures Valid()
      ensures Step(st, State()) == AfterRealloc(old(State()), n)
    {
      if !ownsData {
        return Err(ReallocNotOwned);
      }
      if n > |vec| {
        vec := Resized(vec, n);
        base.hasData, base.data := true, vec;
      }
      st := Ok;
    }

    /** Refuses to grow a preallocated buffer, keeps a capacity that
        already fits, and otherwise doubles the capacity (or, from an empty
        store, starts at the request) until the request fits. */
    method EnsureAllocedSize(n: nat) returns (st: Status)
      requires Valid()
      modifies this, base
      ensures Valid()
      ensures Step(st, State()) == AfterEnsure(old(State()), n)
    {
      if preallocated && n > |vec| {
        return Fatal(PreallocatedGrowth);
      } else if preallocated || |vec| >= n {
        return Ok;
      }
      var start := if |vec| == 0 then n else |vec|;
      var newAllocSize := start;
      while newAllocSize < n
        invariant newAllocSize > 0
        invariant GrowthTarget(newAllocSize, n) == GrowthTarget(start, n)
        decreases n - newAllocSize
      {
        newAllocSize := newAllocSize * 2;
      }
      st := Realloc(newAllocSize);
    }

    /** Copies as much of the view's unread bytes as fits between the
        cursor and the capacity, without growing. */
    method WriteFromView(src: ConstBuffer) returns (st: Status)
      requires Valid() && src.Valid() && src.base != base
      modifies this, base, src.base
      ensures Valid() && src.Valid()
      ensures Transfer(st, State(), src.base.State()) == AfterWriteFromView(old(State()), old(src.base.State()))
    {
      if !ownsData {
        return Err(WriteNotOwned);
      }
      var k := Min(|vec| - base.offset, src.NBytesLeftToRead());
      st := ReadFromView(src, k);
    }

    /** Grows to fit `n` more bytes at the cursor, then reads exactly `n`
        bytes from the view into the store. */
    method WriteFromViewN(src: ConstBuffer, n: nat) returns (st: Status)
      requires Valid() && src.Valid() && src.base != base
      modifies this, base, src.base
      ensures Valid() && src.Valid()
      ensures Transfer(st, State(), src.base.State()) == AfterWriteFromViewN(old(State()), old(src.base.State()), n)
    {
      if !ownsData {
        return Err(WriteNotOwned);
      }
      ghost var s0, v0 := State(), src.base.State();
      st := EnsureAllocedSize(base.offset + n);
      if st != Ok {
        return;
      }
      WriteFromViewNAfterGrowth(s0, v0, n, State());
      st := ReadFromView(src, n);
    }

    /** The view's read straight into the store at the cursor, followed by
        the size update: fails, changing nothing, when the view has fewer
        than `n` unread bytes. */
    method ReadFromView(src: ConstBuffer, n: nat) returns (st: Status)
      requires Valid() && ownsData && src.Valid() && src.base != base
      requires base.offset + n <= |vec|
      modifies this, base, src.base
      ensures Valid() && src.Valid()
      ensures Transfer(st, State(), src.base.State()) == AfterReadFromView(old(State()), old(src.base.State()), n)
    {
      ghost var v0 := src.base.State();
      var tmp := new bv8[n];
      st := src.base.Read(tmp, n);
      if st != Ok {
        return;
      }
      assert tmp[..] == v0.Unread(n);
      StoreAtCursor(tmp[..]);
    }

    /** The copy into the store and the size update that every write ends
        with, once the store is large enough. */
    method Store(at: nat, bytes: seq<bv8>)
      requires Valid() && ownsData && at + |bytes| <= |vec|
      modifies this, base
      ensures Valid()
      ensures State() == Stored(old(State()), at, bytes)
    {
      vec := Overwrite(vec, at, bytes);
      base.data := vec;
      base.size := Max(at + |bytes|, base.size);
    }

    /** The same at the cursor, which then moves past the copied bytes. */
    method StoreAtCursor(bytes: seq<bv8>)
      requires Valid() && ownsData && base.offset + |bytes| <= |vec|
      modifies this, base
      ensures Valid()
      ensures State() == StoredAtCursor(old(State()), bytes)
    {
      Store(base.offset, bytes);
      base.offset := base.offset + |bytes|;
    }

    /** Grows to fit `bytes` at the cursor, copies them there and moves
        the cursor past them. */
    method WriteBytes(bytes: seq<bv8>) returns (st: Status)
      requires Valid()
      modifies this, base
      ensures Valid()
      ensures Step(st, State()) == AfterWrite(old(State()), bytes)
    {
      if !ownsData {
        return Err(WriteNotOwned);
      }
      ghost var s0 := State();
      st := EnsureAllocedSize(base.offset + |bytes|);
      if st != Ok {
        return;
      }
      WriteAfterGrowth(s0, bytes, State());
      StoreAtCursor(bytes);
    }

    /** Grows to fit `bytes` at position `at` and copies them there; the
        cursor does not move. */
    method WriteAt(bytes: seq<bv8>, at: nat) returns (st: Status)
      requires Valid()
      modifies this, base
      ensures Valid()
      ensures Step(st, State()) == AfterWriteAt(old(State()), at, bytes)
    {
      if !ownsData {
        return Err(WriteNotOwned);
      }
      st := EnsureAllocedSize(at + |bytes|);
      if st != Ok {
        return;
      }
      Store(at, bytes);
    }

    /** Exchanges every field with `other`. */
    method Swap(other: OwningMemoryBuffer)
      requires Valid() && other.Valid() && (other == this || other.base != base)
      modifies this, base, other, other.base
      ensures Valid() && other.Valid()
      ensures State() == old(other.State()) && other.State() == old(State())
    {
      vec, other.vec := other.vec, vec;
      base.hasData, other.base.hasData := other.base.hasData, base.hasData;
      base.data, other.base.data := other.base.data, base.data;
      base.offset, other.base.offset := other.base.offset, base.offset;
      ownsData, other.ownsData := other.ownsData, ownsData;
      base.size, other.base.size := other.base.size, base.size;
      preallocated, other.preallocated := other.preallocated, preallocated;
    }

    /** Copy assignment: a no-op onto itself; otherwise clears, then takes
        the state of a fresh copy of `buff`, which itself is untouched. */
    method CopyAssign(buff: OwningMemoryBuffer)
      requires Valid() && buff.Valid() && (buff == this || buff.base != base)
      modifies this, base
      ensures Valid()
      ensures buff == this ==> State() == old(State())
      ensures buff != this ==> State() == CopyOf(old(buff.State())) && buff.State() == old(buff.State())
    {
      if buff == this {
        return;
      }
      Clear();
      var tmp := new OwningMemoryBuffer.Copy(buff);
      Swap(tmp);
    }

    /** Move assignment: a no-op onto itself; otherwise the two buffers
        exchange their states. */
    method MoveAssign(buff: OwningMemoryBuffer)
      requires Valid() && buff.Valid() && (buff == this || buff.base != base)
      modifies this, base, buff, buff.base
      ensures Valid() && buff.Valid()
      ensures buff == this ==> State() == old(State())
      ensures buff != this ==> State() == old(buff.State()) && buff.State() == old(State())
    {
      if buff == this {
        return;
      }
      Swap(buff);
    }
  }
}
