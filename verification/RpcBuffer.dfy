/** RIPCBuffer of ripcqccomponent/ipcbase/ripcclientchannel.cpp: the client's receive buffer. */
module RpcBuffers {
  import opened Wire

  const PAGE: nat := 4096

  /** The capacity append() settles on, in the 32-bit arithmetic of the source. */
  function Grown(capacity: u32, size: u32, len: u32): u32 {
    if capacity < (size + len) % U32 then PAGE * (1 + (size + len) % U32 / PAGE) % U32 else capacity
  }

  /** What may be appended without the 32-bit capacity wrapping. */
  predicate Fits(capacity: u32, size: u32, len: u32) {
    size + len <= capacity || size + len < U32 - PAGE
  }

  /** The bytes fit behind the old ones exactly if the capacity does not wrap. */
  lemma GrowthIff(capacity: u32, size: u32, len: u32)
    requires size <= capacity
    ensures size + len <= Grown(capacity, size, len) <==> Fits(capacity, size, len)
  {
    var total := size + len;
    if total < U32 {
      assert total % U32 == total;
      assert total == PAGE * (total / PAGE) + total % PAGE;
      if capacity < total && total < U32 - PAGE {
        assert PAGE * (1 + total / PAGE) < U32;
      } else if capacity < total {
        assert total / PAGE == U32 / PAGE - 1;
        assert PAGE * (1 + total / PAGE) == U32;
      }
    }
  }

  /** The first size for which the new capacity is 0. */
  lemma GrowthWraps()
    ensures Grown(8192, 8192, 0xFFFF_D000) == 0 && !Fits(8192, 8192, 0xFFFF_D000)
    ensures Grown(8192, 8192, 0xFFFF_CFFF) == 0xFFFF_F000 && Fits(8192, 8192, 0xFFFF_CFFF)
  {
  }

  /** What commit() leaves of the buffered bytes. */
  function Committed(s: seq<Byte>, len: nat): seq<Byte> {
    if len > |s| then [] else s[len..]
  }

  method CopyBytes(dst: array<Byte>, at: nat, src: seq<Byte>)
    requires at + |src| <= dst.Length
    modifies dst
    ensures dst[..] == old(dst[..at]) + src + old(dst[at + |src|..])
  {
    forall i | 0 <= i < |src| {
      dst[at + i] := src[i];
    }
  }

  class RpcBuffer {
    var pos: u32
    var size: u32
    var capacity: u32
    var d: array<Byte>

    ghost predicate Valid()
      reads this
    {
      pos <= size <= capacity == d.Length
    }

    /** The buffered bytes; those before `pos` have been read but not committed. */
    ghost function Data(): seq<Byte>
      reads this, d
      requires Valid()
    {
      d[..size]
    }

    /** The bytes the next read starts with. */
    ghost function Ahead(): seq<Byte>
      reads this, d
      requires Valid()
    {
      Data()[pos..]
    }

    constructor ()
      ensures Valid() && fresh(d) && Data() == [] && pos == 0 && capacity == 8192
    {
      pos, size, capacity := 0, 0, 8192;
      d := new Byte[8192](_ => 0);
    }

    method Append(data: seq<Byte>)
      requires Valid() && |data| < U32 && Fits(capacity, size, |data|)
      modifies this, d
      ensures Valid() && (d == old(d) || fresh(d))
      ensures Data() == old(Data()) + data && pos == old(pos)
      ensures capacity == Grown(old(capacity), old(size), |data|)
    {
      GrowthIff(capacity, size, |data|);
      if capacity < (size + |data|) % U32 {
        capacity := PAGE * (1 + (size + |data|) % U32 / PAGE) % U32;
        var bigger := new Byte[capacity](_ => 0);
        CopyBytes(bigger, 0, d[..size]);
        d := bigger;
        assert d[..size] == old(d[..size]);
      }
      assert d[..size] == old(d[..size]) && size + |data| <= d.Length;
      CopyBytes(d, size, data);
      assert d[..size + |data|] == old(d[..size]) + data;
      size := size + |data|;
    }

    /** The next `len` bytes start at `at`. */
    method Read(len: u32) returns (ok: bool, at: nat)
      requires Valid()
      modifies this`pos
      ensures Valid()
      ensures ok <==> old(pos) + len <= |Data()|
      ensures ok ==> at == old(pos) && old(Ahead()) == d[at..at + len] + Ahead()
      ensures pos == if ok then old(pos) + len else old(pos)
    {
      if (size - pos) % U32 < len {
        return false, 0;
      }
      at := pos;
      pos := pos + len;
      return true, at;
    }

    /** Everything read since the last commit is ahead again. */
    method Unread()
      requires Valid()
      modifies this`pos
      ensures Valid() && Data() == old(Data())
      ensures Ahead() == Data() == old(Data()[..pos] + Ahead())
      ensures pos == 0
    {
      pos := 0;
    }

    method Commit(len: u32)
      requires Valid()
      modifies this`pos, this`size, d
      ensures Valid() && pos == 0
      ensures Data() == Committed(old(Data()), len)
    {
      pos := 0;
      if len > size {
        forall i | 0 <= i < capacity {
          d[i] := 0;
        }
        size := 0;
      } else {
        forall i | 0 <= i < size - len {
          d[i] := d[len + i];
        }
        size := size - len;
      }
    }

    method Clear()
      requires Valid()
      modifies this`pos, this`size, d
      ensures Valid() && pos == 0 && Data() == []
    {
      size, pos := 0, 0;
      forall i | 0 <= i < capacity {
        d[i] := 0;
      }
    }
  }
}
