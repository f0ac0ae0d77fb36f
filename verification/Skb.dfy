/** The socket buffer: one allocation with headroom, data and tailroom. */
module Skb {
  import opened Bytes

  class SkBuff {
    const mem: array<bv8>
    var data: nat
    var tail: nat

    ghost predicate Valid()
      reads this
    {
      data <= tail <= mem.Length
    }

    ghost function Contents(): bytes
      reads this, mem
      requires Valid()
    {
      mem[data..tail]
    }

    function Tailroom(): nat
      reads this
      requires Valid()
    {
      mem.Length - tail
    }

    /** The allocator adds 64 bytes to what is asked for. */
    constructor (size: nat)
      ensures Valid() && Contents() == [] && fresh(mem) && data == 0 && Tailroom() == size + 64
    {
      mem := new bv8[size + 64];
      data, tail := 0, 0;
    }

    /** Moves data and tail of an empty buffer to make headroom. */
    method Reserve(n: nat)
      requires Valid() && data == tail && n <= Tailroom()
      modifies this
      ensures Valid() && Contents() == [] && data == old(data) + n && Tailroom() == old(Tailroom()) - n
    {
      data, tail := data + n, tail + n;
    }

    /** Appends bytes. The buffer must have room: nothing checks it. */
    method Put(b: bytes)
      requires Valid() && |b| <= Tailroom()
      modifies this, mem
      ensures Valid() && Contents() == old(Contents()) + b && data == old(data) && Tailroom() == old(Tailroom()) - |b|
    {
      var start := tail;
      tail := tail + |b|;
      for i := 0 to |b|
        invariant mem[..start] == old(mem[..start])
        invariant mem[start..start + i] == b[..i]
        modifies mem
      {
        mem[start + i] := b[i];
      }
      assert mem[data..tail] == mem[data..start] + mem[start..tail];
      assert mem[data..start] == mem[..start][data..];
    }
  }
}
