/** The circular buffer in its own form: an object over a caller-supplied array. */
module CirqBuffer {
  import opened Basics
  import S = CirqSpec

  class CirqBuffer {
    const maxCnt: nat
    const dataSize: nat
    const buf: array<Byte>      // bufStart .. bufEnd
    var head: nat
    var tail: nat
    var currCnt: nat

    ghost function Ring(): S.Ring
      reads this, buf
    {
      S.Ring(maxCnt, dataSize, buf[..], head, tail, currCnt)
    }

    ghost predicate Valid()
      reads this, buf
    {
      S.Aligned(Ring())
    }

    constructor Init(buffer: array<Byte>, maxCnt: nat, dataSize: nat)
      requires 0 < dataSize && buffer.Length == dataSize * maxCnt
      ensures Valid() && buf == buffer && Ring() == S.InitRing(maxCnt, dataSize, buffer[..])
    {
      this.maxCnt, this.dataSize, buf := maxCnt, dataSize, buffer;
      head, tail, currCnt := 0, 0, 0;
      new;
      if 0 < maxCnt {
        S.OffsetsApart(0, maxCnt, dataSize);
        assert S.Offset(0, dataSize) == 0;
      }
    }

    /** The memory copy into the ring. */
    method CopyIn(at: nat, data: seq<Byte>)
      requires at + |data| <= buf.Length
      modifies buf
      ensures buf[..] == Overwrite(old(buf[..]), at, data)
    {
      var k := 0;
      while k < |data|
        invariant 0 <= k <= |data|
        invariant buf[..] == Overwrite(old(buf[..]), at, data[..k])
      {
        buf[at + k] := data[k];
        assert data[..k + 1] == data[..k] + [data[k]];
        k := k + 1;
      }
      assert data[..k] == data;
    }

    method Push(data: seq<Byte>) returns (rv: int)
      requires Valid() && |data| == dataSize
      modifies this, buf
      ensures Valid() && (Ring(), rv) == S.Push(old(Ring()), data)
    {
      if currCnt == maxCnt {
        return 1;
      }
      S.NextIsSlot(Ring(), head);
      CopyIn(head, data);
      head := head + dataSize;
      if head == buf.Length {
        head := 0;
      }
      currCnt := currCnt + 1;
      return 0;
    }

    /** 0 and the record, or 1 when empty. */
    method Pop() returns (rv: int, data: seq<Byte>)
      requires Valid()
      modifies this
      ensures Valid() && Ring() == S.Pop(old(Ring())).0
      ensures S.Pop(old(Ring())).1 == if rv == 0 then Some(data) else None
      ensures rv == 0 || rv == 1
    {
      if currCnt == 0 {
        return 1, [];
      }
      S.NextIsSlot(Ring(), tail);
      data := buf[tail..tail + dataSize];
      tail := tail + dataSize;
      if tail == buf.Length {
        tail := 0;
      }
      currCnt := currCnt - 1;
      rv := 0;
    }

    method PushLock() returns (at: Option<nat>)
      requires Valid()
      modifies this
      ensures Valid() && (Ring(), at) == S.PushLock(old(Ring()))
    {
      if currCnt == maxCnt {
        return None;
      }
      S.NextIsSlot(Ring(), head);
      at := Some(head);
      head := head + dataSize;
      if head == buf.Length {
        head := 0;
      }
    }

    method PopLock() returns (at: Option<nat>)
      requires Valid()
      modifies this
      ensures Valid() && (Ring(), at) == S.PopLock(old(Ring()))
    {
      if currCnt == 0 {
        return None;
      }
      S.NextIsSlot(Ring(), tail);
      at := Some(tail);
      tail := tail + dataSize;
      if tail == buf.Length {
        tail := 0;
      }
    }

    method PushRelease()
      modifies this`currCnt
      ensures Ring() == S.PushRelease(old(Ring()))
      ensures old(Valid() && currCnt < maxCnt < TWO32) ==> Valid()
    {
      currCnt := (currCnt + 1) % TWO32;
    }

    method PopRelease()
      modifies this`currCnt
      ensures Ring() == S.PopRelease(old(Ring()))
      ensures old(Valid() && 0 < currCnt && maxCnt < TWO32) ==> Valid()
    {
      currCnt := (currCnt - 1) % TWO32;
    }

    method Peek(offset: nat) returns (at: Option<nat>)
      ensures at == S.Peek(Ring(), offset)
    {
      if currCnt == 0 || offset > currCnt {
        return None;
      }
      var p: nat, i: nat := tail, 0;
      while i < offset
        invariant 0 <= i <= offset
        invariant S.Walk(Ring(), p, offset - i) == S.Walk(Ring(), tail, offset)
      {
        p := p + dataSize;
        if p == buf.Length {
          p := 0;
        }
        i := i + 1;
      }
      return Some(p);
    }
  }
}
