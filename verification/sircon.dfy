/** The CSirCon object: fields updated in place, bytes in, bytes out, proved to
    be an endpoint fed by the parser (sircon.cpp, sircon.h). */
module SirCon {
  import opened Scp
  import opened Codec
  import opened Framer
  import opened SlideOver
  import E = Endpoint

  ghost predicate BufOk(m: E.Pending) { m.bytes == Encode(m.frame) }

  /** The frames a log hands to the serial port. */
  ghost function Transmitted(log: seq<E.Effect>): seq<Frame> {
    if log == [] then [] else Transmitted(log[..|log| - 1]) + FrameIn(log[|log| - 1])
  }

  function FrameIn(x: E.Effect): seq<Frame> {
    match x
    case TxFrame(_, f) => [f]
    case TxAck(f) => [f]
    case _ => []
  }

  lemma TransmittedSnoc(log: seq<E.Effect>, x: E.Effect)
    ensures Transmitted(log + [x]) == Transmitted(log) + FrameIn(x)
  {
    assert (log + [x])[..|log|] == log;
  }

  lemma {:induction false} WritesAreWire(writes: seq<seq<Byte>>, frames: seq<Frame>)
    requires |writes| == |frames|
    requires forall k :: 0 <= k < |writes| ==> writes[k] == Wire(Encode(frames[k]))
    ensures Flatten(writes) == WireAll(frames)
  {
    if writes != [] {
      WritesAreWire(writes[1..], frames[1..]);
    }
  }

  /** Port to port: what one object's log says it transmitted is what a receiver
      of its bytes hears, however those arrive. */
  lemma PortRoundTrip(writes: seq<seq<Byte>>, log: seq<E.Effect>, chunks: seq<seq<Byte>>)
    requires |writes| == |Transmitted(log)|
    requires forall k :: 0 <= k < |writes| ==> writes[k] == Wire(Encode(Transmitted(log)[k]))
    requires Flatten(chunks) == Flatten(writes)
    ensures FeedAllEvents(RX_INIT, chunks) == Accepts(Transmitted(log))
    ensures FeedAllState(RX_INIT, chunks) == RX_INIT
  {
    WritesAreWire(writes, Transmitted(log));
    WireRoundTrip(Transmitted(log), chunks);
  }

  function Receives(events: seq<RxEvent>): seq<E.Input> {
    seq(|events|, i requires 0 <= i < |events| => E.Receive(events[i]))
  }

  /** What one turn of the main loop feeds the endpoint: the fact that bytes
      arrived (or that none did for too long), then every parsed event. */
  function PassInputs(st: RxState, chunk: seq<Byte>, idle: bool): seq<E.Input> {
    Arrival(Unescape(st.esc, chunk) != [], idle) + Receives(FeedEvents(st, chunk))
  }

  function Arrival(any: bool, idle: bool): seq<E.Input> {
    if any then [E.BytesRead] else if idle then [E.IdleProbe] else []
  }

  /** A turn of the loop that reads nothing does nothing but probe, if it is time;
      one that reads something never does. */
  lemma ProbesExactly(st: RxState, chunk: seq<Byte>, idle: bool)
    requires Head(st.staged).Wait?
    ensures E.IdleProbe in PassInputs(st, chunk, idle) <==> idle && Unescape(st.esc, chunk) == []
    ensures Unescape(st.esc, chunk) == [] ==> PassInputs(st, chunk, idle) == if idle then [E.IdleProbe] else []
  {
    assert st.staged + [] == st.staged;
  }

  lemma {:induction false} RunCons(t: E.Turn, i: E.Input, rest: seq<E.Input>)
    ensures E.RunFrom(t, [i] + rest) == E.RunFrom(E.Extend(t, i), rest)
  {
    if rest == [] {
      assert [i] + rest == [] + [i];
      E.RunSnoc(t, [], i);
    } else {
      var init, last := rest[..|rest| - 1], rest[|rest| - 1];
      RunCons(t, i, init);
      assert [i] + rest == ([i] + init) + [last];
      E.RunSnoc(t, [i] + init, last);
    }
  }

  /** What the parser still has to report, seen from one report to the next. */
  lemma ParseStep(t: E.Turn, s: seq<Byte>)
    requires Head(s).Take?
    ensures var (x, n) := (Head(s).event, Head(s).count);
            && E.RunFrom(t, Receives(Events(s))) == E.RunFrom(E.Extend(t, E.Receive(x)), Receives(Events(s[n..])))
            && Residue(s) == Residue(s[n..])
  {
    var x, n := Head(s).event, Head(s).count;
    assert Receives(Events(s)) == [E.Receive(x)] + Receives(Events(s[n..]));
    RunCons(t, E.Receive(x), Receives(Events(s[n..])));
  }

  lemma HeadComplete(s: seq<Byte>)
    requires |s| >= HEADER_SIZE && s[0] == PKT_SENTINEL && ClaimedLength(s) <= |s|
    ensures var c := s[..ClaimedLength(s)];
            && |c| == ClaimedLength(c)
            && Head(s) == if ChecksumOk(c) then Take(Accept(Decode(c)), |c|) else Take(BadChecksum(c[3]), 1)
  {
  }

  lemma UnescapeUpto(before: seq<Byte>, esc: bool, raw: seq<Byte>, i: nat)
    requires i < |raw|
    ensures var st := EscState(esc, raw[..i]);
            && EscState(esc, raw[..i + 1]) == EscAfter(st, raw[i])
            && (before + Unescape(esc, raw[..i])) + UnescapeByte(st, raw[i])
               == before + Unescape(esc, raw[..i + 1])
  {
    assert raw[..i + 1] == raw[..i] + [raw[i]];
    UnescapeSnoc(esc, raw[..i], raw[i]);
    var out, o := Unescape(esc, raw[..i]), UnescapeByte(EscState(esc, raw[..i]), raw[i]);
    assert (before + out) + o == before + (out + o);
  }

  lemma SliceOfPrefix(a: array<Byte>, k: nat, lo: nat, hi: nat)
    requires lo <= hi <= k <= a.Length
    ensures a[..k][lo..hi] == a[lo..hi]
  {
  }

  lemma AppendedParts(before: seq<Byte>, out: seq<Byte>, now: seq<Byte>, pos: nat)
    requires now == before + out && pos <= |before|
    ensures now[pos..|before|] == before[pos..|before|] && now[|before|..|now|] == out
  {
  }

  lemma PassTurn(t: E.Turn, st: RxState, chunk: seq<Byte>, idle: bool, staged: seq<Byte>)
    requires staged == st.staged + Unescape(st.esc, chunk)
    ensures E.RunFrom(E.RunFrom(t, Arrival(Unescape(st.esc, chunk) != [], idle)), Receives(Events(staged)))
         == E.RunFrom(t, PassInputs(st, chunk, idle))
  {
    E.RunConcat(t, Arrival(Unescape(st.esc, chunk) != [], idle), Receives(Events(staged)));
  }

  /** What the serial port answers to a read: bytes it has, nothing in time, or
      an error. */
  datatype Port = Bytes(avail: seq<Byte>) | TimedOut | Failed
  {
    function Avail(): seq<Byte> { if Bytes? then avail else [] }
  }

  /** Whether the request for the signal strength, and it alone, was queued. */
  ghost predicate Probed(before: seq<E.Pending>, queue: seq<E.Pending>, probing: bool) {
    if probing then
      |queue| == |before| + 1 && queue[..|before|] == before && queue[|before|].frame.data == [0x40, 0x18]
    else queue == before
  }

  datatype Future = Promised(id: nat) | Already(result: ScResult)

  class CSirCon {
    const stagebuf: SOBuffer
    var inEsc: bool
    var busyTimer: nat
    var nextSeq: Byte
    var lastSeq: int
    var seqExpected: Byte
    var queue: seq<E.Pending>
    var linkAlive: bool
    var linkFailCnt: nat
    var shutdown: bool
    var promises: nat
    var writes: seq<seq<Byte>>

    ghost var log: seq<E.Effect>

    ghost predicate QueueOk()
      reads this`queue
    {
      forall i :: 0 <= i < |queue| ==> BufOk(queue[i])
    }

    ghost function State(): E.Endpoint
      reads this
      requires QueueOk()
    {
      E.Endpoint(nextSeq, promises, queue, lastSeq, seqExpected, busyTimer,
                 linkAlive, linkFailCnt, shutdown)
    }

    /** Where the endpoint is and what it has done so far. */
    ghost function Now(): E.Turn
      reads this
      requires QueueOk()
    {
      E.Turn(State(), log)
    }

    /** Every write to the serial port was the wire form of the frame the log
        says was transmitted then. */
    ghost predicate PortOk()
      reads this`writes, this`log
    {
      && |writes| == |Transmitted(log)|
      && forall k :: 0 <= k < |writes| ==> writes[k] == Wire(Encode(Transmitted(log)[k]))
    }

    ghost predicate LinkOk()
      reads this
    {
      QueueOk() && PortOk()
    }

    ghost function Rx(): RxState
      reads this, stagebuf, stagebuf.buf
      requires stagebuf.Valid()
    {
      RxState(inEsc, stagebuf.Contents())
    }

    /** The receiving half: between two turns of the main loop less than one
        largest frame is staged, so the buffer always has room to read into. */
    ghost predicate StagingOk()
      reads this, stagebuf, stagebuf.buf
    {
      && stagebuf.Valid() && stagebuf.size == SCP_STAGEBUFSIZE
      && |stagebuf.Contents()| < SCP_MAX_PKT
    }

    ghost predicate Valid()
      reads this, stagebuf, stagebuf.buf
    {
      LinkOk() && StagingOk()
    }

    constructor ()
      ensures Valid() && Now() == E.Turn(E.INIT, []) && Rx() == RX_INIT
      ensures fresh(stagebuf) && fresh(stagebuf.buf)
    {
      stagebuf := new SOBuffer(SCP_STAGEBUFSIZE);
      inEsc, busyTimer, nextSeq, lastSeq, seqExpected := false, 0, 0, -1, 0;
      queue, linkAlive, linkFailCnt, shutdown := [], false, 0, false;
      promises, writes := 0, [];
      log := [];
    }

    // ------------------------------------------------------------- transmit

    /** sent is what the port says it has sent: a count of bytes, or an error. */
    method Write(buf: seq<Byte>, sent: int) returns (ok: bool)
      requires |Wire(buf)| <= SCP_STAGEBUFSIZE
      modifies this`writes
      ensures writes == old(writes) + [Wire(buf)]
      ensures ok <==> sent == |Wire(buf)|
    {
      FitsWhole(buf, 0);
      var tmpbuf, n, used := EscapeFrame(buf);
      FitsWhole(buf, used);
      writes := writes + [tmpbuf[..n]];
      ok := sent == n;
    }

    method TransmitFrame(m: E.Pending, sent: int) returns (ok: bool)
      requires BufOk(m) && PortOk()
      modifies this`writes, this`log
      ensures PortOk() && log == old(log) + [E.TxFrame(m.id, m.frame)]
      ensures writes == old(writes) + [Wire(m.bytes)] && (ok <==> sent == |Wire(m.bytes)|)
    {
      EncodedFrameFits(m.frame);
      TransmittedSnoc(log, E.TxFrame(m.id, m.frame));
      ok := Write(m.bytes, sent);
      log := log + [E.TxFrame(m.id, m.frame)];
    }

    method ComposeACK(ack: Byte, flags: Byte) returns (buf: seq<Byte>)
      ensures buf == Encode(Frame(ack, flags, []))
    {
      buf := [PKT_SENTINEL, 3, 0, ack, flags, 0];
      var sum := ComputeChecksum(buf);
      ghost var f := Frame(ack, flags, []);
      assert Header(f) + f.data == buf;
      ChecksumUnique(buf, sum);
      buf := buf + [sum];
    }

    method SendACK(ack: Byte, flags: Byte, sent: int) returns (ok: bool)
      requires PortOk()
      modifies this`writes, this`log
      ensures PortOk() && log == old(log) + [E.TxAck(Frame(ack, flags, []))]
      ensures writes == old(writes) + [Wire(Encode(Frame(ack, flags, [])))]
      ensures ok <==> sent == |Wire(Encode(Frame(ack, flags, [])))|
    {
      TransmittedSnoc(log, E.TxAck(Frame(ack, flags, [])));
      EncodedFrameFits(Frame(ack, flags, []));
      var buf := ComposeACK(ack, flags);
      ok := Write(buf, sent);
      log := log + [E.TxAck(Frame(ack, flags, []))];
    }

    /** Anything that is not a transmission: a promise set, a dispatch. */
    ghost method Note(x: E.Effect)
      requires PortOk() && FrameIn(x) == []
      modifies this`log
      ensures PortOk() && log == old(log) + [x]
    {
      TransmittedSnoc(log, x);
      log := log + [x];
    }

    method ComposeFrame(data: Payload) returns (m: E.Pending)
      modifies this`nextSeq
      ensures BufOk(m) && m.retries == 0 && m.id == promises
      ensures m.frame == Frame(old(nextSeq), 0, data)
      ensures nextSeq == (old(nextSeq) + 1) % 0x100
    {
      var header := [PKT_SENTINEL, 3, 0, nextSeq, 0, |data|];
      var f := Frame(nextSeq, 0, data);
      var bytes := header;
      for i := 0 to |data|
        invariant bytes == header + data[..i]
      {
        bytes := bytes + [data[i]];
      }
      assert bytes == Header(f) + f.data;
      var sum := ComputeChecksum(bytes);
      ChecksumUnique(bytes, sum);
      EncodeWellFormed(f);
      m := E.Pending(promises, 0, f, bytes + [sum]);
      nextSeq := (nextSeq + 1) % 0x100;
    }

    /** Send returns the promise of the queued frame; without memory for the
        frame, one already set to NOMEMORY, and nothing has changed. */
    method Send(data: Payload, memory: bool) returns (promise: Future)
      requires LinkOk()
      modifies this`nextSeq, this`queue, this`promises, this`log
      ensures LinkOk()
      ensures promise == if memory then Promised(old(promises)) else Already(NOMEMORY)
      ensures State() == if memory then E.OnRequest(old(State()), data).ep else old(State())
      ensures log == old(log) + if memory then E.OnRequest(old(State()), data).out else []
    {
      if !memory {
        return Already(NOMEMORY);
      }
      var m := ComposeFrame(data);
      queue := queue + [m];
      promise := Promised(promises);
      promises := promises + 1;
      Note(E.Queued(promise.id, data));
    }

    // ---------------------------------------------------------------- timer

    method OnTimeout(m: E.Pending)
      requires PortOk()
      modifies this`linkAlive, this`linkFailCnt, this`shutdown, this`log
      ensures PortOk() && log == old(log) + [E.Resolve(m.id, TIMEOUT)]
      ensures !linkAlive && linkFailCnt == old(linkFailCnt) + 1
      ensures shutdown <==> old(shutdown) || linkFailCnt > SIRCON_MAX_LINK_FAILURES
    {
      Note(E.Resolve(m.id, TIMEOUT));
      linkAlive := false;
      linkFailCnt := linkFailCnt + 1;
      if linkFailCnt > SIRCON_MAX_LINK_FAILURES {
        shutdown := true;
      }
    }

    method GiveUp()
      requires LinkOk() && queue != []
      modifies this`queue, this`log, this`linkAlive, this`linkFailCnt, this`shutdown
      ensures LinkOk() && queue == old(queue)[1..]
      ensures log == old(log) + [E.Resolve(old(queue)[0].id, TIMEOUT)]
      ensures !linkAlive && linkFailCnt == old(linkFailCnt) + 1
      ensures shutdown <==> old(shutdown) || linkFailCnt > SIRCON_MAX_LINK_FAILURES
    {
      var m := queue[0];
      queue := queue[1..];
      OnTimeout(m);
    }

    method TransmitHead()
      requires LinkOk() && queue != []
      modifies this`queue, this`writes, this`log
      ensures LinkOk()
      ensures queue == [old(queue)[0].(retries := old(queue)[0].retries + 1)] + old(queue)[1..]
      ensures log == old(log) + [E.TxFrame(old(queue)[0].id, old(queue)[0].frame)]
    {
      var m := queue[0].(retries := queue[0].retries + 1);
      queue := [m] + queue[1..];
      var sent: int := *;
      var _ := TransmitFrame(m, sent);
    }

    method TimerProc()
      requires LinkOk()
      modifies this`busyTimer, this`queue, this`writes, this`log, this`linkAlive, this`linkFailCnt, this`shutdown
      ensures LinkOk()
      ensures State() == E.OnTick(old(State())).ep
      ensures log == old(log) + E.OnTick(old(State())).out
    {
      if busyTimer > 0 {
        busyTimer := busyTimer - 1;
        return;
      }
      if queue != [] {
        if queue[0].retries + 1 > SIRCON_MAX_RETRIES {
          GiveUp();
        } else {
          TransmitHead();
        }
      }
    }

    // -------------------------------------------------------------- receive

    method OnACK(m: E.Pending)
      requires PortOk()
      modifies this`log
      ensures PortOk() && log == old(log) + [E.Resolve(m.id, SUCCESS)]
    {
      Note(E.Resolve(m.id, SUCCESS));
    }

    ghost predicate ForHead(f: Frame)
      reads this`queue
    {
      queue != [] && f.seqno == queue[0].frame.seqno
    }

    /** The acknowledgement branch of the parse loop. For the head frame: flag 0x01
        has it sent again, flag 0x02 holds it back for a tick, neither settles it. */
    method HandleAck(f: Frame)
      requires LinkOk() && HasAck(f.flags)
      modifies this`busyTimer, this`queue, this`writes, this`log
      ensures LinkOk()
      ensures writes == old(writes) + if old(ForHead(f)) && f.flags % 2 == 1 then [Wire(old(queue)[0].bytes)] else []
      ensures busyTimer == if old(ForHead(f)) && f.flags % 2 == 0 && f.flags / 0x02 % 2 == 1 then 1 else old(busyTimer)
      ensures queue == if old(ForHead(f)) && f.flags % 2 == 0 && f.flags / 0x02 % 2 == 0 then old(queue)[1..] else old(queue)
      ensures State() == E.OnAckFrame(old(State()), f).ep
      ensures log == old(log) + E.OnAckFrame(old(State()), f).out
    {
      if queue != [] {
        var m, rest := queue[0], queue[1..];
        if f.seqno == m.frame.seqno {
          if HasChksum(f.flags) {
            var sent: int := *;
            var _ := TransmitFrame(m, sent);
          } else if HasBusy(f.flags) {
            busyTimer := BUSY_DELAY_COUNT;
          } else {
            OnACK(m);
            queue := rest;
          }
        }
      }
    }

    method AckAndDispatch(f: Frame)
      requires PortOk()
      modifies this`writes, this`log
      ensures PortOk()
      ensures log == old(log) + ([E.TxAck(E.AckFor(f.seqno))] + if f.seqno != lastSeq then [E.Dispatch(f.data)] else [])
      ensures writes == old(writes) + [Wire(Encode(Frame(f.seqno, 0x80, [])))]
    {
      var sent: int := *;
      var _ := SendACK(f.seqno, SF_ACK, sent);
      if f.seqno != lastSeq {
        Note(E.Dispatch(f.data));
      }
    }

    /** The data branch of the parse loop. */
    method HandleData(f: Frame)
      requires LinkOk() && !HasAck(f.flags)
      modifies this`busyTimer, this`writes, this`log, this`lastSeq, this`seqExpected
      ensures LinkOk()
      ensures writes == old(writes) + [Wire(Encode(Frame(f.seqno, 0x80, [])))] && busyTimer == 0 && lastSeq == f.seqno
      ensures State() == E.OnDataFrame(old(State()), f).ep
      ensures log == old(log) + E.OnDataFrame(old(State()), f).out
    {
      AckAndDispatch(f);
      lastSeq := f.seqno;
      seqExpected := (f.seqno + 1) % 0x100;
      busyTimer := 0;
    }

    method HandleBadChecksum(seqno: Byte)
      requires LinkOk()
      modifies this`writes, this`log
      ensures LinkOk()
      ensures State() == old(State())
      ensures log == old(log) + [E.TxAck(E.NakFor(seqno))]
      ensures writes == old(writes) + [Wire(Encode(Frame(seqno, 0x81, [])))]
    {
      var sent: int := *;
      var _ := SendACK(seqno, SF_ACK + SF_CHKSUM, sent);
    }

    /** The de-escaping switch of Read for one byte; the result goes to offset
        at of the staging array. */
    method ReadByte(b: Byte, at: nat) returns (at': nat)
      requires at < stagebuf.buf.Length
      modifies this`inEsc, stagebuf.buf
      ensures inEsc == EscAfter(old(inEsc), b)
      ensures at <= at' <= at + 1
      ensures stagebuf.buf[..at'] == old(stagebuf.buf[..at]) + UnescapeByte(old(inEsc), b)
    {
      at' := at;
      if b == ASCII_ESC {
        if inEsc {
          stagebuf.buf[at] := ASCII_ESC;
          at' := at + 1;
          inEsc := false;
        } else {
          inEsc := true;
        }
      } else if inEsc {
        if b == SENTINEL_ESC {
          stagebuf.buf[at] := PKT_SENTINEL;
          at' := at + 1;
        }
        inEsc := false;
      } else {
        stagebuf.buf[at] := b;
        at' := at + 1;
      }
    }

    /** The loop of Read over the bytes received. */
    method Destuff(avail: seq<Byte>, count: nat) returns (bytesread: nat)
      requires stagebuf.Valid() && count <= stagebuf.TailRoom() && count <= |avail|
      modifies this`inEsc, stagebuf.buf
      ensures inEsc == EscState(old(inEsc), avail[..count])
      ensures bytesread <= count
      ensures var wp := stagebuf.bufpos + stagebuf.buflen;
              stagebuf.buf[..wp + bytesread] == old(stagebuf.buf[..wp]) + Unescape(old(inEsc), avail[..count])
    {
      var wp := stagebuf.bufpos + stagebuf.buflen;
      var at := wp;
      ghost var before, esc := stagebuf.buf[..wp], inEsc;
      for i := 0 to count
        modifies this`inEsc, stagebuf.buf
        invariant wp <= at <= wp + i
        invariant inEsc == EscState(esc, avail[..i])
        invariant stagebuf.buf[..at] == before + Unescape(esc, avail[..i])
      {
        UnescapeUpto(before, esc, avail, i);
        at := ReadByte(avail[i], at);
      }
      bytesread := at - wp;
    }

    /** A frame that passed its checksum. */
    method HandleFrame(f: Frame)
      requires LinkOk()
      modifies this`busyTimer, this`queue, this`writes, this`log, this`lastSeq, this`seqExpected
      ensures LinkOk()
      ensures Now() == E.Extend(old(Now()), E.Receive(Accept(f)))
    {
      if HasAck(f.flags) {
        HandleAck(f);
      } else {
        HandleData(f);
      }
    }

    /** A complete candidate: act on it, or ask for it again and resynchronise. */
    method Judge(s: seq<Byte>) returns (count: nat, ghost x: RxEvent)
      requires LinkOk() && |s| >= HEADER_SIZE && |s| == ClaimedLength(s)
      modifies this`busyTimer, this`queue, this`writes, this`log, this`lastSeq, this`seqExpected
      ensures LinkOk()
      ensures count == if ChecksumOk(s) then |s| else 1
      ensures x == if ChecksumOk(s) then Accept(Decode(s)) else BadChecksum(s[3])
      ensures Now() == E.Extend(old(Now()), E.Receive(x))
    {
      var ok := ValidateChecksum(s);
      if ok {
        x := Accept(Decode(s));
        HandleFrame(Decode(s));
        count := |s|;
      } else {
        x := BadChecksum(s[3]);
        HandleBadChecksum(s[3]);
        count := 1;
      }
    }

    /** The body of the parse loop; Wait means it breaks out to read more. */
    method ParseOne() returns (more: bool, ghost look: Look)
      requires LinkOk() && stagebuf.Valid() && stagebuf.buflen >= HEADER_SIZE
      modifies this`busyTimer, this`queue, this`writes, this`log, this`lastSeq, this`seqExpected, stagebuf
      ensures LinkOk() && stagebuf.Valid()
      ensures look == Head(old(stagebuf.Contents())) && more == look.Take?
      ensures look.Wait? ==> Now() == old(Now()) && stagebuf.Contents() == old(stagebuf.Contents())
      ensures look.Take? ==> Now() == E.Extend(old(Now()), E.Receive(look.event))
      ensures look.Take? ==> stagebuf.Contents() == old(stagebuf.Contents())[look.count..]
    {
      var s := stagebuf.Contents();
      if s[0] != PKT_SENTINEL {
        E.SkipIsIdle(Now());
        stagebuf.MarkRead(1);
        return true, Take(Skip, 1);
      }
      var msglen := HEADER_SIZE + s[5] + 1;
      if msglen > stagebuf.buflen {
        return false, Wait;
      }
      HeadComplete(s);
      var count;
      ghost var x;
      count, x := Judge(s[..msglen]);
      stagebuf.MarkRead(count);
      return true, Take(x, count);
    }

    /** Parse all available messages. */
    method ParseStaged()
      requires LinkOk() && stagebuf.Valid()
      modifies this`busyTimer, this`queue, this`writes, this`log, this`lastSeq, this`seqExpected, stagebuf
      ensures LinkOk() && stagebuf.Valid()
      ensures stagebuf.Contents() == Residue(old(stagebuf.Contents()))
      ensures Now() == E.RunFrom(old(Now()), Receives(Events(old(stagebuf.Contents()))))
    {
      ghost var goal := E.RunFrom(Now(), Receives(Events(stagebuf.Contents())));
      ghost var left := Residue(stagebuf.Contents());
      var more := true;
      while more && stagebuf.buflen >= HEADER_SIZE
        invariant LinkOk() && stagebuf.Valid()
        invariant goal == E.RunFrom(Now(), Receives(Events(stagebuf.Contents())))
        invariant left == Residue(stagebuf.Contents())
        invariant !more ==> Head(stagebuf.Contents()).Wait?
        decreases stagebuf.buflen, more
      {
        ghost var t, s := Now(), stagebuf.Contents();
        if Head(s).Take? {
          ParseStep(t, s);
        }
        ghost var look;
        more, look := ParseOne();
      }
    }

    /** The same, seen from the queue the staging buffer stands for. */
    method DestuffBehind(avail: seq<Byte>, count: nat) returns (bytes: nat)
      requires stagebuf.Valid() && count <= stagebuf.TailRoom() && count <= |avail|
      modifies this`inEsc, stagebuf.buf
      ensures inEsc == EscState(old(inEsc), avail[..count])
      ensures bytes <= count
      ensures stagebuf.Contents() == old(stagebuf.Contents())
      ensures var wp := stagebuf.bufpos + stagebuf.buflen;
              stagebuf.buf[wp..wp + bytes] == Unescape(old(inEsc), avail[..count])
    {
      ghost var pos, wp := stagebuf.bufpos, stagebuf.bufpos + stagebuf.buflen;
      ghost var before := stagebuf.buf[..wp];
      SliceOfPrefix(stagebuf.buf, wp, pos, wp);
      bytes := Destuff(avail, count);
      ghost var now := stagebuf.buf[..wp + bytes];
      AppendedParts(before, Unescape(old(inEsc), avail[..count]), now, pos);
      SliceOfPrefix(stagebuf.buf, wp + bytes, pos, wp);
      SliceOfPrefix(stagebuf.buf, wp + bytes, wp, wp + bytes);
    }

    /** Receive at most maxlen of the bytes the port has and de-escape them
        straight to where the staging buffer is written next. Running out of time
        is no error. */
    method Read(port: Port, maxlen: nat) returns (ok: bool, taken: nat, bytes: nat)
      requires stagebuf.Valid() && maxlen <= stagebuf.TailRoom()
      modifies this`inEsc, stagebuf.buf
      ensures ok <==> !port.Failed?
      ensures taken == (if |port.Avail()| < maxlen then |port.Avail()| else maxlen)
      ensures inEsc == EscState(old(inEsc), port.Avail()[..taken])
      ensures bytes <= maxlen
      ensures stagebuf.Contents() == old(stagebuf.Contents())
      ensures var wp := stagebuf.bufpos + stagebuf.buflen;
              stagebuf.buf[wp..wp + bytes] == Unescape(old(inEsc), port.Avail()[..taken])
    {
      if !port.Bytes? {
        return port.TimedOut?, 0, 0;
      }
      ok := true;
      taken := if |port.avail| < maxlen then |port.avail| else maxlen;
      bytes := DestuffBehind(port.avail, taken);
    }

    /** The read at the head of the main loop. At least one byte is taken if any
        is there: the staging buffer never fills up. */
    method Stage(port: Port) returns (ok: bool, taken: nat, bytes: nat)
      requires StagingOk()
      modifies this`inEsc, stagebuf, stagebuf.buf
      ensures stagebuf.Valid() && (ok <==> !port.Failed?)
      ensures taken <= |port.Avail()| && (port.Avail() != [] ==> taken > 0)
      ensures inEsc == EscState(old(inEsc), port.Avail()[..taken])
      ensures stagebuf.Contents() == old(stagebuf.Contents()) + Unescape(old(inEsc), port.Avail()[..taken])
      ensures bytes == |Unescape(old(inEsc), port.Avail()[..taken])|
    {
      var room := stagebuf.GetWriteLen();
      assert room > 0;
      ok, taken, bytes := Read(port, room);
      if ok {
        stagebuf.MarkWritten(bytes);
      }
    }

    /** Bytes arrived: the link is alive. None for too long: probe it, if there is
        memory for a frame. */
    method NoteArrival(bytes: nat, idle: bool, memory: bool)
      requires LinkOk()
      modifies this`linkAlive, this`linkFailCnt, this`nextSeq, this`queue, this`promises, this`log
      ensures LinkOk()
      ensures linkAlive == (bytes > 0 || old(linkAlive))
      ensures Probed(old(queue), queue, bytes == 0 && idle && memory && old(linkAlive))
      ensures Now() == E.RunFrom(old(Now()), Arrival(bytes > 0, idle && memory))
    {
      ghost var t := Now();
      E.RunSnoc(t, [], if bytes > 0 then E.BytesRead else E.IdleProbe);
      assert [] + Arrival(bytes > 0, idle && memory) == Arrival(bytes > 0, idle && memory);
      if bytes > 0 {
        if !linkAlive {
          linkAlive := true;
          linkFailCnt := 0;
        }
      } else if idle {
        if linkAlive {
          var _ := Send(E.PROBE, memory);
        }
      }
    }

    method HandlePass(bytes: nat, idle: bool, memory: bool)
      requires LinkOk() && stagebuf.Valid()
      modifies this`linkAlive, this`linkFailCnt, this`nextSeq, this`queue, this`promises, this`log
      modifies this`busyTimer, this`writes, this`lastSeq, this`seqExpected, stagebuf
      ensures LinkOk() && stagebuf.Valid()
      ensures stagebuf.Contents() == Residue(old(stagebuf.Contents()))
      ensures Now() == E.RunFrom(E.RunFrom(old(Now()), Arrival(bytes > 0, idle && memory)),
                                 Receives(Events(old(stagebuf.Contents()))))
    {
      NoteArrival(bytes, idle, memory);
      ParseStaged();
    }

    /** One turn of the main loop; a port that fails ends it. */
    method RunPass(port: Port, idle: bool, memory: bool) returns (ok: bool, taken: nat)
      requires Valid() && !shutdown
      modifies this, stagebuf, stagebuf.buf
      ensures Valid() && (ok <==> !port.Failed?)
      ensures taken <= |port.Avail()| && (port.Avail() != [] ==> taken > 0)
      ensures ok ==> Rx() == FeedState(old(Rx()), port.Avail()[..taken])
      ensures ok ==> Now() == E.RunFrom(old(Now()), PassInputs(old(Rx()), port.Avail()[..taken], idle && memory))
      ensures !ok ==> taken == 0 && Rx() == old(Rx()) && Now() == old(Now())
    {
      ghost var st, t := Rx(), Now();
      var bytes;
      ok, taken, bytes := Stage(port);
      if ok {
        PassTurn(t, st, port.Avail()[..taken], idle && memory, stagebuf.Contents());
        HandlePass(bytes, idle, memory);
      }
    }

    /** Drops the queue; the promises in it are never set. */
    method OnExit() returns (dropped: seq<nat>)
      requires LinkOk()
      modifies this`queue
      ensures queue == [] && dropped == E.Abandoned(old(State()))
    {
      dropped := [];
      while queue != []
        invariant QueueOk()
        invariant dropped + E.Abandoned(State()) == E.Abandoned(old(State()))
      {
        dropped := dropped + [queue[0].id];
        queue := queue[1..];
      }
    }
  }
}
