/** The growable byte buffer of the generator: bytes are appended, and ranges overwritten in place. */
module Buffer {
  import opened Words
  import opened Emission

  class Bytecode {
    var items: seq<byte>

    constructor ()
      ensures items == []
    {
      items := [];
    }

    method WriteByte(b: byte)
      modifies this
      ensures items == old(items) + [b]
    {
      items := items + [b];
    }

    /** The `n` low bytes, most significant first. */
    method WriteBytes(bytes: int, n: nat)
      modifies this
      ensures items == old(items) + BigEndian(bytes, n)
    {
      hide ByteAt;
      var i := n;
      while i > 0
        invariant 0 <= i <= n
        invariant items + BigEndian(bytes, i) == old(items) + BigEndian(bytes, n)
      {
        i := i - 1;
        assert items + BigEndian(bytes, i + 1) == items + [ByteAt(bytes, i)] + BigEndian(bytes, i);
        WriteByte(ByteAt(bytes, i));
      }
    }

    /** The same bytes over those from `start` on. */
    method OverwriteBytes(start: nat, bytes: int, n: nat)
      requires start + n <= |items|
      modifies this
      ensures items == Overwrite(old(items), start, BigEndian(bytes, n))
    {
      hide ByteAt;
      var idx, i := start, n;
      ghost var was := items;
      while i > 0
        invariant 0 <= i <= n && idx == start + (n - i) && |items| == |was|
        invariant items[..idx] + BigEndian(bytes, i) == was[..start] + BigEndian(bytes, n)
        invariant items[idx..] == was[idx..]
      {
        i := i - 1;
        StoreStep(items, idx, ByteAt(bytes, i), BigEndian(bytes, i));
        assert was[idx + 1..] == was[idx..][1..];
        items := items[idx := ByteAt(bytes, i)];
        idx := idx + 1;
      }
      assert items == items[..idx] + items[idx..];
    }
  }

  lemma StoreStep(items: seq<byte>, idx: nat, b: byte, rest: seq<byte>)
    requires idx < |items|
    ensures items[idx := b][..idx + 1] + rest == items[..idx] + ([b] + rest)
    ensures items[idx := b][idx + 1..] == items[idx..][1..]
  {
  }
}
