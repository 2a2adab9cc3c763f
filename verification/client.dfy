/** A connected client's transmit side over its slide-over buffer (client.cpp). */
module ClientIo {
  import opened Scp
  import opened SlideOver

  class Client {
    const rxbuf: SOBuffer
    const txbuf: SOBuffer
    var connected: bool

    /** Every byte of every message Send said yes to, and every byte the socket
        took, since the connection was made. */
    ghost var accepted: seq<Byte>
    ghost var sent: seq<Byte>

    ghost predicate Shape()
      reads this, rxbuf, txbuf
    {
      && rxbuf.Valid() && txbuf.Valid()
      && rxbuf != txbuf && rxbuf.buf != txbuf.buf
    }

    /** Stream conservation: nothing accepted is lost, duplicated or reordered;
        it has been sent or it is buffered, until the client is dropped. */
    ghost predicate Valid()
      reads this, rxbuf, txbuf, txbuf.buf
    {
      Shape() && (connected ==> accepted == sent + txbuf.Contents())
    }

    constructor (bufsize: nat)
      ensures Valid() && connected && accepted == [] && sent == []
      ensures txbuf.size == rxbuf.size == bufsize && txbuf.Contents() == [] && txbuf.bufpos == 0
      ensures fresh(rxbuf) && fresh(txbuf) && fresh(rxbuf.buf) && fresh(txbuf.buf)
    {
      rxbuf := new SOBuffer(bufsize);
      txbuf := new SOBuffer(bufsize);
      connected, accepted, sent := true, [], [];
    }

    /** The buffer has as many bytes free, but not behind its contents, which
        slide to the front only once there is no room behind them at all. */
    predicate FreeButSplit(len: nat)
      reads this, txbuf
      requires txbuf.Valid()
    {
      0 < txbuf.TailRoom() < len <= txbuf.size - txbuf.buflen
    }

    /** A message is taken whole or not at all. It is refused when the buffer has
        not that many bytes free, or has them split. */
    method Send(buf: seq<Byte>) returns (ok: bool)
      requires Valid()
      modifies this`accepted, txbuf, txbuf.buf
      ensures Valid()
      ensures ok <==> |buf| <= old(txbuf.size - txbuf.buflen) && !old(FreeButSplit(|buf|))
      ensures txbuf.bufpos == old(txbuf.Slid())
      ensures txbuf.Contents() == old(txbuf.Contents()) + if ok then buf else []
      ensures accepted == old(accepted) + if ok then buf else []
    {
      var room := txbuf.GetWriteLen();
      if |buf| <= room {
        txbuf.Append(buf);
        assert connected ==> (sent + old(txbuf.Contents())) + buf == sent + (old(txbuf.Contents()) + buf);
        accepted := accepted + buf;
        return true;
      }
      return false;
    }

    /** n is what send() reports: bytes taken from the front, or an error. */
    method TransmitData(n: int) returns (ok: bool)
      requires Valid() && n <= |txbuf.Contents()|
      modifies this`sent, txbuf
      ensures Valid()
      ensures ok <==> old(txbuf.Contents()) != [] && n >= 0
      ensures ok ==> sent == old(sent + txbuf.Contents()[..n]) && txbuf.Contents() == old(txbuf.Contents())[n..]
      ensures !ok ==> sent == old(sent) && txbuf.Contents() == old(txbuf.Contents())
      ensures txbuf.bufpos == if txbuf.buflen == 0 then 0 else old(txbuf.bufpos) + if ok then n else 0
    {
      ok := false;
      if txbuf.buflen > 0 {
        if n >= 0 {
          ghost var s := txbuf.Contents();
          assert s == s[..n] + s[n..];
          txbuf.MarkRead(n);
          sent := sent + s[..n];
          ok := true;
        }
      }
    }

    method Drop()
      requires Valid()
      modifies this`connected, txbuf
      ensures Valid() && !connected && txbuf.Contents() == []
    {
      connected := false;
      txbuf.Clear();
    }
  }

  /** A message refused although the buffer has more than its length free: on a
      fresh connection with 512 bytes of buffer, 500 are accepted, the socket
      takes 400 of them, and 100 more are turned away with 412 free. */
  method RefusedWithRoom(first: seq<Byte>, second: seq<Byte>) returns (client: Client, taken: bool, ok: bool)
    requires |first| == 500 && |second| == 100
    ensures client.Valid() && client.accepted == first && client.sent == first[..400]
    ensures taken && !ok && client.txbuf.size - client.txbuf.buflen == 412
  {
    client := new Client(512);
    taken := client.Send(first);
    var _ := client.TransmitData(400);
    ok := client.Send(second);
  }
}
