/** The slide-over buffer (sobuf.cpp, sobuf.h): a byte queue kept contiguous in
    a fixed array by sliding it back to the front when the tail is used up. */
module SlideOver {
  import opened Scp

  lemma SliceOfTail(a: array<Byte>, i: nat, len: nat)
    requires i + len <= a.Length
    ensures a[i..][..len] == a[i..i + len]
  {
  }

  lemma SliceExtended(a: array<Byte>, i: nat, j: nat, k: nat)
    requires i <= j <= k <= a.Length
    ensures a[i..j] + a[j..k] == a[i..k]
  {
  }

  class SOBuffer {
    const size: nat
    const buf: array<Byte>
    var bufpos: nat
    var buflen: nat

    ghost predicate Valid()
      reads this
    {
      && buf.Length == size
      && bufpos + buflen <= size
      && (buflen == 0 ==> bufpos == 0)
    }

    /** The queue the buffer stands for. */
    function Contents(): (s: seq<Byte>)
      reads this, buf
      requires Valid()
      ensures |s| == buflen
    {
      buf[bufpos..bufpos + buflen]
    }

    /** Room behind the write pointer, before any slide. */
    function TailRoom(): nat
      reads this
      requires Valid()
    {
      size - bufpos - buflen
    }

    /** What GetWriteLen will report. */
    function Room(): nat
      reads this
      requires Valid()
    {
      if TailRoom() > 0 then TailRoom() else size - buflen
    }

    /** Where GetWriteLen leaves the contents: it slides them to the front when
        there is no room behind them, and only then. */
    function Slid(): nat
      reads this
      requires Valid()
    {
      if TailRoom() > 0 then bufpos else 0
    }

    constructor (size: nat)
      ensures Valid() && fresh(buf) && this.size == size
      ensures Contents() == [] && bufpos == 0
    {
      this.size := size;
      buf := new Byte[size](_ => 0);
      bufpos, buflen := 0, 0;
    }

    method MarkRead(len: nat)
      requires Valid() && len <= buflen
      modifies this
      ensures Valid() && Contents() == old(Contents())[len..]
      ensures bufpos == if buflen == 0 then 0 else old(bufpos) + len
    {
      bufpos := bufpos + len;
      buflen := buflen - len;
      if buflen == 0 {
        bufpos := 0;
      }
    }

    /** memmove(m_buf, m_bufpos, m_buflen) */
    method SlideToFront()
      requires Valid()
      modifies this, buf
      ensures Valid() && bufpos == 0 && buflen == old(buflen)
      ensures Contents() == old(Contents())
      ensures buf[buflen..] == old(buf[buflen..])
    {
      for i := 0 to buflen
        modifies buf
        invariant forall k :: 0 <= k < i ==> buf[k] == old(buf[bufpos + k])
        invariant forall k :: i <= k < size ==> buf[k] == old(buf[k])
      {
        buf[i] := buf[bufpos + i];
      }
      bufpos := 0;
    }

    method GetWriteLen() returns (len: nat)
      requires Valid()
      modifies this, buf
      ensures Valid() && Contents() == old(Contents())
      ensures bufpos == old(Slid()) && buflen == old(buflen)
      ensures len == old(Room()) == TailRoom()
      ensures len == 0 <==> |Contents()| == size
      ensures buf[bufpos + buflen..] == old(buf[Slid() + buflen..])
    {
      len := size - bufpos - buflen;
      if len == 0 {
        SlideToFront();
        len := size - buflen;
      }
    }

    /** A caller copying bytes to GetWritePtr(). */
    method CopyIn(data: seq<Byte>)
      requires Valid() && |data| <= TailRoom()
      modifies buf
      ensures Valid() && Contents() == old(Contents())
      ensures buf[bufpos + buflen..bufpos + buflen + |data|] == data
    {
      var wp := bufpos + buflen;
      for i := 0 to |data|
        invariant forall k :: 0 <= k < i ==> buf[wp + k] == data[k]
        invariant forall k :: 0 <= k < wp ==> buf[k] == old(buf[k])
      {
        buf[wp + i] := data[i];
      }
    }

    /** The bytes taken are those found behind the contents, once they are where
        GetWriteLen leaves them. */
    method MarkWritten(len: nat)
      requires Valid() && len <= Room()
      modifies this, buf
      ensures Valid() && bufpos == old(Slid())
      ensures Contents() == old(Contents() + buf[Slid() + buflen..Slid() + buflen + len])
    {
      ghost var x := Slid() + buflen;
      SliceOfTail(buf, x, len);
      var room := GetWriteLen();
      assert len <= room;
      SliceOfTail(buf, x, len);
      SliceExtended(buf, bufpos, x, x + len);
      buflen := buflen + len;
    }

    /** Both together: bytes copied to the write pointer and marked written. */
    method Append(data: seq<Byte>)
      requires Valid() && |data| <= TailRoom()
      modifies this, buf
      ensures Valid() && Contents() == old(Contents()) + data
      ensures bufpos == old(Slid())
    {
      CopyIn(data);
      MarkWritten(|data|);
    }

    method Clear()
      requires Valid()
      modifies this
      ensures Valid() && Contents() == [] && bufpos == 0
    {
      MarkRead(buflen);
    }
  }
}
