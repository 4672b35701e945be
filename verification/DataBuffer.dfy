/** A byte buffer that owns its storage: `size` octets of `capacity` are in use. */
module DataBuffers {
  import opened Bytes

  const MAX_CAPACITY := 1000 * 1000 * 1000
  const INT32_MAX := 0x7FFF_FFFF

  class DataBuffer {
    var data: array<Byte>
    var size: int
    var capacity: int

    ghost predicate Valid()
      reads this
    {
      0 <= size <= capacity <= data.Length
    }

    /** The octets in use. */
    function Contents(): (s: seq<Byte>)
      requires Valid()
      reads this, data
      ensures |s| == size
    {
      data[..size]
    }

    constructor ()
      ensures Valid() && fresh(data) && Contents() == [] && capacity == 0
    {
      data, size, capacity := new Byte[0], 0, 0;
    }

    /** One octet more than the capacity is allocated, and terminated with zero. */
    constructor OfCapacity(n: int)
      ensures Valid() && fresh(data) && Contents() == []
      ensures capacity == if 0 < n <= MAX_CAPACITY then n else 0
    {
      data, size, capacity := new Byte[0], 0, 0;
      new;
      if 0 < n <= MAX_CAPACITY {
        data := new Byte[n + 1];
        data[n] := 0;
        capacity := n;
      }
    }

    /** Copies `bytes` into the storage from position `at`. */
    method CopyIn(at: nat, bytes: seq<Byte>)
      requires at + |bytes| <= data.Length
      modifies data
      ensures data[..at] == old(data[..at]) && data[at..at + |bytes|] == bytes
    {
      var i := 0;
      while i < |bytes|
        invariant 0 <= i <= |bytes|
        invariant data[..at] == old(data[..at]) && data[at..at + i] == bytes[..i]
      {
        data[at + i] := bytes[i];
        i := i + 1;
      }
    }

    /** Growing keeps the contents, shrinking below the capacity drops them, and an invalid size changes nothing. */
    method Resize(n: int)
      requires Valid()
      modifies this
      ensures Valid() && (data == old(data) || fresh(data))
      ensures !(0 < n <= MAX_CAPACITY) || n == old(capacity) ==>
                Contents() == old(Contents()) && capacity == old(capacity)
      ensures old(capacity) < n <= MAX_CAPACITY ==> Contents() == old(Contents()) && capacity == n
      ensures 0 < n <= MAX_CAPACITY && n < old(capacity) ==> Contents() == [] && capacity == n
    {
      if n <= 0 || n > MAX_CAPACITY {
        return;
      }
      if n > capacity {
        Reallocate(n);
      } else if n < capacity {
        data := new Byte[n];
        capacity, size := n, 0;
      }
    }

    /** Moves the contents to new storage of `n` octets. */
    method Reallocate(n: nat)
      requires Valid() && n >= size
      modifies this
      ensures Valid() && fresh(data) && data.Length == capacity == n
      ensures Contents() == old(Contents())
    {
      var contents := Contents();
      data := new Byte[n];
      capacity := n;
      CopyIn(0, contents);
      assert data[..size] == data[0..0 + |contents|];
    }

    /** Appends the first `dataLen` octets, in newly allocated storage when they do not fit. */
    method PushData(bytes: seq<Byte>, dataLen: int)
      requires Valid() && dataLen <= |bytes| && size + dataLen <= INT32_MAX
      modifies this, data
      ensures Valid() && (data == old(data) || fresh(data))
      ensures Contents() == old(Contents()) + (if dataLen > 0 then bytes[..dataLen] else [])
      ensures capacity == if old(size) + dataLen > old(capacity) then old(size) + dataLen else old(capacity)
    {
      if dataLen <= 0 {
        return;
      }
      if dataLen + size > capacity {
        Reallocate(size + dataLen);
      }
      CopyIn(size, bytes[..dataLen]);
      size := size + dataLen;
      assert data[..size] == data[..old(size)] + data[old(size)..size];
    }

    /** The first `dataLen` octets become the contents. */
    method ReplaceData(bytes: seq<Byte>, dataLen: int)
      requires Valid() && 0 <= dataLen <= |bytes|
      modifies this, data
      ensures Valid() && (data == old(data) || fresh(data))
      ensures Contents() == bytes[..dataLen]
      ensures capacity == if dataLen > old(capacity) then dataLen else old(capacity)
    {
      if dataLen > capacity {
        capacity := dataLen;
        data := new Byte[dataLen];
      }
      CopyIn(0, bytes[..dataLen]);
      size := dataLen;
      assert data[..size] == data[0..0 + dataLen];
    }

    method Append(bytes: seq<Byte>)
      requires Valid() && size + |bytes| <= INT32_MAX
      modifies this, data
      ensures Valid() && (data == old(data) || fresh(data))
      ensures Contents() == old(Contents()) + bytes
    {
      PushData(bytes, |bytes|);
    }
  }
}
