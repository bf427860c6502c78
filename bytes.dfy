/** Byte regions, and the two ways the buffer layer changes one: growing a
    backing store with zero-filled bytes (a vector resize) and copying a
    payload over a range of it (a memcpy). */
module Bytes {

  function Min(a: nat, b: nat): nat { if a <= b then a else b }

  function Max(a: nat, b: nat): nat { if a >= b then a else b }

  /** `n` zero bytes. */
  function Zeros(n: nat): (r: seq<bv8>)
    ensures |r| == n
    ensures forall i :: 0 <= i < n ==> r[i] == 0
  {
    seq(n, _ => 0)
  }

  /** A backing store of `|v|` bytes resized to `n >= |v|` bytes: the old
      bytes stay in front and the new ones are value-initialised to zero. */
  function Resized(v: seq<bv8>, n: nat): (r: seq<bv8>)
    requires |v| <= n
    ensures |r| == n
    ensures r[..|v|] == v
    ensures forall i :: |v| <= i < n ==> r[i] == 0
  {
    seq(n, i requires 0 <= i < n => if i < |v| then v[i] else 0)
  }

  /** `s` with `bytes` copied over positions `at .. at + |bytes|`. */
  function Overwrite(s: seq<bv8>, at: nat, bytes: seq<bv8>): (r: seq<bv8>)
    requires at + |bytes| <= |s|
    ensures |r| == |s|
  {
    seq(|s|, i requires 0 <= i < |s| => if at <= i < at + |bytes| then bytes[i - at] else s[i])
  }

  /** The payload sits at `at .. at + |bytes|`, and the bytes before and
      after it are the old ones. */
  lemma OverwriteReplacesRange(s: seq<bv8>, at: nat, bytes: seq<bv8>)
    requires at + |bytes| <= |s|
    ensures var r := Overwrite(s, at, bytes);
            && r[at..at + |bytes|] == bytes
            && r[..at] == s[..at]
            && r[at + |bytes|..] == s[at + |bytes|..]
  {
    var r := Overwrite(s, at, bytes);
    assert r[at..at + |bytes|] == bytes;
    assert r[..at] == s[..at];
    assert r[at + |bytes|..] == s[at + |bytes|..];
  }

  /** A prefix is the shorter prefix followed by the slice after it. */
  lemma PrefixSplits(v: seq<bv8>, o: nat, m: nat)
    requires o + m <= |v|
    ensures v[..o + m] == v[..o] + v[o..o + m]
  {
  }

  lemma ConcatAssociates(a: seq<bv8>, b: seq<bv8>, c: seq<bv8>)
    ensures a + (b + c) == (a + b) + c
  {
  }
}
