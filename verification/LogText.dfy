/**
 The growing text buffer of logger/floatingbuffer.cpp and the stream of logger/logstream.cpp over it.
 */
module LogText {
  import opened Digits

  const SMALL: nat := 1024
  const LARGE: nat := 0x10_0000          // 1 MiB
  const MAX_NUMERIC: nat := 32           // kMaxNumericSize

  /** What the buffer ever keeps of a text. */
  function Kept(s: string): string {
    if |s| <= LARGE then s else s[..LARGE]
  }

  /** The allocation after an append that finds `avail` characters free. */
  function Grown(alloc: nat, avail: nat, len: nat): nat {
    if avail > len || alloc >= LARGE then alloc
    else
      var wanted := if len >= 1024 then alloc + len else alloc + 1024;
      if wanted > LARGE then LARGE else wanted
  }

  /** A log as a value: its text and the size of its allocation. */
  datatype Log = Log(text: string, alloc: nat)

  predicate Sound(l: Log) {
    |l.text| <= l.alloc && SMALL <= l.alloc <= LARGE
  }

  function Appended(l: Log, s: string): Log
    requires Sound(l)
  {
    Log(Kept(l.text + s), Grown(l.alloc, l.alloc - |l.text|, |s|))
  }

  /** Numbers are printed in place and dropped if fewer than 32 characters are free. */
  function Printed(l: Log, s: string): Log
    requires Sound(l)
  {
    if l.alloc - |l.text| >= MAX_NUMERIC then l.(text := l.text + s) else l
  }

  class FloatingBuffer {
    var data: array<char>
    var cur: nat

    ghost predicate Valid()
      reads this
    {
      cur <= data.Length && SMALL <= data.Length <= LARGE
    }

    ghost function Abs(): (l: Log)
      reads this, data
      requires Valid()
      ensures Sound(l)
    {
      Log(data[..cur], data.Length)
    }

    /** The template parameter is brought into the supported range. */
    constructor (size: nat)
      ensures Valid() && fresh(data)
      ensures Abs() == Log("", if size < SMALL then SMALL else if size > LARGE then LARGE else size)
    {
      var alloc := if size < SMALL then SMALL else if size > LARGE then LARGE else size;
      data := new char[alloc](_ => NUL);
      cur := 0;
    }

    function Avail(): nat
      reads this
      requires Valid()
    {
      data.Length - cur
    }

    /** memcpy to the current position. */
    method Copy(buf: string)
      requires Valid() && |buf| <= Avail()
      modifies this`cur, data
      ensures Valid() && Abs() == old(Abs()).(text := old(Abs()).text + buf)
    {
      forall i | 0 <= i < |buf| {
        data[cur + i] := buf[i];
      }
      cur := cur + |buf|;
    }

    /** realloc, with the new part cleared. */
    method Reallocate(alloc: nat)
      requires Valid() && data.Length <= alloc <= LARGE
      modifies this`data
      ensures Valid() && fresh(data) && Abs() == old(Abs()).(alloc := alloc)
    {
      var bigger := new char[alloc](_ => NUL);
      forall i | 0 <= i < cur {
        bigger[i] := data[i];
      }
      data := bigger;
    }

    /** Grows by at least 1024 characters up to 1 MiB, and cuts what does not fit then. */
    method Append(buf: string)
      requires Valid()
      modifies this, data
      ensures Valid() && (data == old(data) || fresh(data))
      ensures Abs() == Appended(old(Abs()), buf)
    {
      var len := |buf|;
      if Avail() > len {
        Copy(buf);
      } else if data.Length < LARGE {
        var allocSize := data.Length;
        if len >= 1024 {
          allocSize := allocSize + len;
        } else {
          allocSize := allocSize + 1024;
        }
        if allocSize > LARGE {
          allocSize := LARGE;
        }
        Reallocate(allocSize);
        if len > data.Length - cur {
          KeptCut(data[..cur], buf, data.Length - cur);
          Copy(buf[..data.Length - cur]);
        } else {
          Copy(buf);
        }
      } else {
        KeptCut(data[..cur], buf, Avail());
        Copy(buf[..Avail()]);
      }
    }

    /** The `len` characters written behind the text become part of it. */
    method Add(len: nat)
      requires Valid() && len <= Avail()
      modifies this`cur
      ensures Valid() && Abs() == old(Abs()).(text := old(Abs()).text + data[old(cur)..old(cur) + len])
    {
      cur := cur + len;
    }

    method Reset()
      requires Valid()
      modifies this`cur
      ensures Valid() && Abs() == old(Abs()).(text := "")
    {
      cur := 0;
    }
  }

  lemma KeptCut(text: string, buf: string, room: nat)
    requires |text| + room == LARGE && room <= |buf|
    ensures Kept(text + buf) == text + buf[..room]
  {
  }

  lemma AddressWritten(data: string, text: string, number: string, before: string)
    requires before == text + "0x" && |before| + |number| <= |data| && data[..|before| + |number|] == before + number
    ensures data[|text|..|text| + (|number| + 2)] == "0x" + number
  {
    assert data[..|before| + |number|][|text|..] == "0x" + number;
  }

  class LogStream {
    const buffer: FloatingBuffer

    ghost predicate Valid()
      reads this, buffer
    {
      buffer.Valid()
    }

    ghost function Abs(): (l: Log)
      reads this, buffer, buffer.data
      requires Valid()
      ensures Sound(l)
    {
      buffer.Abs()
    }

    constructor ()
      ensures Valid() && Abs() == Log("", SMALL) && fresh(buffer) && fresh(buffer.data)
    {
      buffer := new FloatingBuffer(SMALL);
    }

    method Append(data: string)
      requires Valid()
      modifies buffer, buffer.data
      ensures Valid() && (buffer.data == old(buffer.data) || fresh(buffer.data))
      ensures Abs() == Appended(old(Abs()), data)
    {
      buffer.Append(data);
    }

    /** Every 64-bit integer fits behind the guard, terminator included. */
    method FormatInteger(v: int)
      requires Valid() && -0x8000_0000_0000_0000 <= v < 0x1_0000_0000_0000_0000
      modifies buffer`cur, buffer.data
      ensures Valid() && Abs() == Printed(old(Abs()), Text(v))
    {
      if buffer.Avail() >= MAX_NUMERIC {
        var len := Convert(buffer.data, buffer.cur, v);
        buffer.Add(len);
      }
    }

    method FormatAddress(v: nat)
      requires Valid() && v < 0x1_0000_0000_0000_0000
      modifies buffer`cur, buffer.data
      ensures Valid() && Abs() == Printed(old(Abs()), "0x" + Number(v, Sixteen))
    {
      if buffer.Avail() >= MAX_NUMERIC {
        ghost var text := buffer.data[..buffer.cur];
        buffer.data[buffer.cur] := '0';
        buffer.data[buffer.cur + 1] := 'x';
        ghost var before := buffer.data[..buffer.cur + 2];
        assert before == text + "0x";
        var len := ConvertHex(buffer.data, buffer.cur + 2, v);
        AddressWritten(buffer.data[..], text, Number(v, Sixteen), before);
        buffer.Add(len + 2);
      }
    }
  }

  // ---------------------------------------------------------------- whole logs

  lemma AppendedSound(l: Log, s: string)
    requires Sound(l)
    ensures Sound(Appended(l, s))
  {
  }

  function AppendAll(l: Log, pieces: seq<string>): Log
    requires Sound(l)
    decreases |pieces|
  {
    if pieces == [] then l else AppendedSound(l, pieces[0]); AppendAll(Appended(l, pieces[0]), pieces[1..])
  }

  function Whole(pieces: seq<string>): string {
    if pieces == [] then "" else pieces[0] + Whole(pieces[1..])
  }

  /** Any run of appends leaves the first min(total, 1 MiB) characters of what was appended. */
  lemma {:induction false} AppendsKeepThePrefix(l: Log, pieces: seq<string>)
    requires Sound(l)
    ensures var r := AppendAll(l, pieces).text;
            var all := l.text + Whole(pieces);
            |r| == (if |all| <= LARGE then |all| else LARGE) && r <= all
    decreases |pieces|
  {
    if pieces == [] {
      assert l.text + "" == l.text;
    } else {
      var m := Appended(l, pieces[0]);
      AppendedSound(l, pieces[0]);
      AppendsKeepThePrefix(m, pieces[1..]);
      var rest := Whole(pieces[1..]);
      assert l.text + Whole(pieces) == l.text + pieces[0] + rest;
      PrefixOfKept(AppendAll(m, pieces[1..]).text, l.text + pieces[0], rest);
    }
  }

  lemma PrefixOfKept(r: string, a: string, b: string)
    requires var all := Kept(a) + b; r <= all && |r| == (if |all| <= LARGE then |all| else LARGE)
    ensures var all := a + b; r <= all && |r| == (if |all| <= LARGE then |all| else LARGE)
  {
    if |a| > LARGE {
      assert r == a[..LARGE];
    }
  }

  /**
   An integer is added like any other text exactly if 32 characters are free, or the buffer is
   full at its largest size.  Otherwise it is dropped although the buffer might have grown.
   */
  lemma IntegerKeptIff(l: Log, v: int)
    requires Sound(l) && -0x8000_0000_0000_0000 <= v < 0x1_0000_0000_0000_0000
    ensures Printed(l, Text(v)).text == Kept(l.text + Text(v))
            <==> l.alloc - |l.text| >= MAX_NUMERIC || |l.text| == LARGE
    ensures Printed(l, Text(v)).text == l.text + Text(v) || Printed(l, Text(v)) == l
    ensures Sound(Printed(l, Text(v)))
  {
    TextFits(v);
  }

  /** A new stream holds 1000 characters, and then drops an integer. */
  lemma IntegerDropped(s: string)
    requires |s| == 1000
    ensures var l := Appended(Log("", SMALL), s); l.text == s && Printed(l, Text(7)) == l
  {
    assert "" + s == s;
  }

  /** How much may be written before the buffer grows again. */
  function Room(l: Log): int {
    l.alloc - |l.text|
  }

  /**
   Growing makes room.  Away from the largest size, an append that does not fit leaves the room it
   found, and the rest of 1024 characters if it is shorter than that; at the largest size it leaves
   what there is.  An append that fits only uses room up.
   */
  lemma RoomAfter(l: Log, s: string)
    requires Sound(l)
    ensures var r := Appended(l, s);
            && (|s| < Room(l) ==> r.alloc == l.alloc && Room(r) == Room(l) - |s|)
            && (Room(l) <= |s| && l.alloc + (if |s| < 1024 then 1024 else |s|) <= 0x10_0000 ==>
                  Room(r) == Room(l) + if |s| < 1024 then 1024 - |s| else 0)
            && (Room(l) <= |s| && l.alloc + (if |s| < 1024 then 1024 else |s|) > 0x10_0000 ==> r.alloc == 0x10_0000)
  {
  }

  /** So a number is kept right after a short append for which the buffer grew, away from the largest size. */
  lemma NumberAfterGrowth(l: Log, s: string, v: int)
    requires Sound(l) && -0x8000_0000_0000_0000 <= v < 0x1_0000_0000_0000_0000
    requires Room(l) <= |s| <= 992 && l.alloc + 1024 <= 0x10_0000
    ensures Printed(Appended(l, s), Text(v)).text == l.text + s + Text(v)
  {
    RoomAfter(l, s);
    AppendedSound(l, s);
    TextFits(v);
    assert l.text + s + Text(v) == (l.text + s) + Text(v);
  }
}
