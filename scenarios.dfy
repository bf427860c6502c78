/** Concrete uses of the buffer classes, each with the outcome the buffer
    layer promises for it. */
module Scenarios {
  import opened Bytes
  import opened BufferStatus
  import opened Cursor
  import opened ConstView
  import opened Preallocated
  import opened OwningSpec
  import opened Owning

  /** Three writes to a default-constructed buffer all succeed and leave
      size and offset at the total length (30 for three 10-byte payloads),
      with the payloads concatenated in order. */
  method ThreeWrites(p1: seq<bv8>, p2: seq<bv8>, p3: seq<bv8>)
    returns (sts: seq<Status>, size: nat, offset: nat, contents: seq<bv8>)
    ensures sts == [Ok, Ok, Ok]
    ensures size == offset == |p1| + |p2| + |p3|
    ensures contents == p1 + p2 + p3
  {
    var b := new OwningMemoryBuffer();
    var st1 := Append(b, p1);
    var st2 := Append(b, p2);
    var st3 := Append(b, p3);
    sts, size, offset := [st1, st2, st3], b.base.size, b.base.offset;
    contents := b.base.data[..b.base.size];
  }

  /** A write at the end of a growable owning buffer, which appends. */
  method Append(b: OwningMemoryBuffer, p: seq<bv8>) returns (st: Status)
    requires b.Valid() && b.ownsData && !b.preallocated && b.base.offset == b.base.size
    modifies b, b.base
    ensures b.Valid() && b.ownsData && !b.preallocated
    ensures st == Ok && b.base.offset == b.base.size == old(b.base.size) + |p|
    ensures b.base.data[..b.base.size] == old(b.base.data[..b.base.size]) + p
  {
    WriteAtEndAppends(b.State(), p);
    st := b.WriteBytes(p);
  }

  /** A 16-byte region takes 10 bytes and then 6, and refuses one more,
      keeping the 16 bytes written. */
  method SixteenByteRegion(p10: seq<bv8>, p6: seq<bv8>, p1: seq<bv8>)
    returns (sts: seq<Status>, region: seq<bv8>, free: nat)
    requires |p10| == 10 && |p6| == 6 && |p1| == 1
    ensures sts == [Ok, Ok, Err(PreallocatedWriteOverflow)]
    ensures region == p10 + p6 && free == 0
  {
    var b := new PreallocatedBuffer(Zeros(16));
    var st1 := b.Write(p10);
    OverwriteReplacesRange(Zeros(16), 0, p10);
    ghost var d1 := b.base.data;
    var st2 := b.Write(p6);
    OverwriteReplacesRange(d1, 10, p6);
    var st3 := b.Write(p1);
    sts, region, free := [st1, st2, st3], b.base.data, b.FreeSpace();
    assert region == region[..10] + region[10..16];
  }

  /** A buffer preallocated to 16 bytes by the corrected constructor takes
      10 and then 6 without growing; one more byte is a fault. */
  method PreallocatedOwningBuffer(p10: seq<bv8>, p6: seq<bv8>, p1: seq<bv8>)
    returns (sts: seq<Status>, capacity: nat)
    requires |p10| == 10 && |p6| == 6 && |p1| == 1
    ensures sts == [Ok, Ok, Fatal(PreallocatedGrowth)] && capacity == 16
  {
    var b := new OwningMemoryBuffer.Preallocated(16);
    ghost var s0 := b.State();
    WriteOutcomes(s0, p10);
    var st1 := b.WriteBytes(p10);
    ghost var s1 := b.State();
    WriteOutcomes(s1, p6);
    var st2 := b.WriteBytes(p6);
    ghost var s2 := b.State();
    WriteFailures(s2, p1);
    EnsureOutcomes(s2, s2.cursor.offset + |p1|);
    var st3 := b.WriteBytes(p1);
    sts, capacity := [st1, st2, st3], |b.vec|;
  }

  /** A view over 5 bytes: reading all 5 yields them and reaches the end;
      reading one more is an error. */
  method ReadPastEnd(bytes: seq<bv8>) returns (sts: seq<Status>, read: seq<bv8>, atEnd: bool)
    requires |bytes| == 5
    ensures sts == [Ok, Err(ReadOverflow)] && read == bytes && atEnd
  {
    var v := new ConstBuffer(Some(bytes));
    var dst := new bv8[5];
    var st1 := v.base.Read(dst, 5);
    atEnd := v.base.End();
    var one := new bv8[1];
    var st2 := v.base.Read(one, 1);
    sts, read := [st1, st2], dst[..];
  }

  /** Writing to a copy leaves the original as it was. */
  method CopyIsIndependent(p: seq<bv8>, q: seq<bv8>) returns (original: seq<bv8>, copy: seq<bv8>)
    ensures original == p && copy == p + q
  {
    var a := new OwningMemoryBuffer();
    var st := Append(a, p);
    var c := new OwningMemoryBuffer.Copy(a);
    st := Append(c, q);
    original, copy := a.base.data[..a.base.size], c.base.data[..c.base.size];
  }

  /** Moving from a buffer hands its bytes over and leaves it empty. */
  method MoveEmptiesSource(p: seq<bv8>) returns (source: seq<bv8>, target: seq<bv8>)
    ensures source == [] && target == p
  {
    var a := new OwningMemoryBuffer();
    var st := Append(a, p);
    var m := new OwningMemoryBuffer.Move(a);
    source, target := a.base.data[..a.base.size], m.base.data[..m.base.size];
  }
}
