/** Byte buffers that are rewritten in place. */
module Buffers {

  type Byte = x: int | 0 <= x < 256

  /** The bytes of all the pieces. */
  function Concat(pieces: seq<seq<Byte>>): seq<Byte> {
    if pieces == [] then [] else pieces[0] + Concat(pieces[1..])
  }

  /** memcpy of s to offset at */
  function Copied(a: seq<Byte>, at: nat, s: seq<Byte>): (b: seq<Byte>)
    requires at + |s| <= |a|
    ensures |b| == |a| && b[..at] == a[..at] && b[at..at + |s|] == s && b[at + |s|..] == a[at + |s|..]
  {
    a[..at] + s + a[at + |s|..]
  }

  /** memmove of n bytes */
  function Moved(a: seq<Byte>, to: nat, from: nat, n: nat): (b: seq<Byte>)
    requires to + n <= |a| && from + n <= |a|
    ensures |b| == |a| && b[..to] == a[..to] && b[to..to + n] == a[from..from + n] && b[to + n..] == a[to + n..]
  {
    Copied(a, to, a[from..from + n])
  }

  /** A buffer_t; its capacity is the length of bytes, of which the first len bytes are data. */
  class Buffer {
    var bytes: seq<Byte>
    var len: nat

    ghost predicate Valid()
      reads this
    {
      len <= |bytes|
    }

    ghost function Data(): seq<Byte>
      requires Valid()
      reads this
    {
      bytes[..len]
    }

    /** balloc */
    constructor (capacity: nat)
      ensures Valid() && len == 0 && |bytes| == capacity
    {
      bytes := seq(capacity, _ => 0);
      len := 0;
    }

    /** brealloc: room for n bytes, and for capacity bytes in any case */
    method Realloc(n: nat, capacity: nat)
      modifies `bytes
      ensures old(bytes) <= bytes
      ensures |bytes| == if old(|bytes|) >= n && old(|bytes|) >= capacity then old(|bytes|) else if n > capacity then n else capacity
    {
      var size := if n > capacity then n else capacity;
      if |bytes| < size {
        assert |seq(size - |bytes|, _ => 0 as Byte)| == size - |bytes|;
        var raw: seq<Byte> :| |raw| == size - |bytes|;
        bytes := bytes + raw;
      }
    }
  }
}
