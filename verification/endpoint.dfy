/** The stop-and-wait link endpoint as a state machine: what CSirCon does with a
    request from the application, a timer tick, a parsed frame (sircon.cpp). */
module Endpoint {
  import opened Scp
  import opened Codec
  import opened Framer

  /** A queued message buffer: the promise it carries, how often the timer has
      sent it, the frame, and the frame's composed bytes. */
  datatype Pending = Pending(id: nat, retries: nat, frame: Frame, bytes: seq<Byte>)

  datatype Endpoint = Endpoint(
    nextSeq: Byte,
    sent: nat,
    queue: seq<Pending>,
    lastSeq: int,
    seqExpected: Byte,
    busyTimer: nat,
    linkAlive: bool,
    linkFailCnt: nat,
    shutdown: bool)

  const INIT := Endpoint(0, 0, [], -1, 0, 0, false, 0, false)

  datatype Effect =
    | Queued(id: nat, data: Payload)
    | TxFrame(id: nat, frame: Frame)
    | TxAck(frame: Frame)
    | Resolve(id: nat, result: ScResult)
    | Dispatch(data: Payload)

  datatype Input =
    | Request(data: Payload)
    | Tick
    | Receive(event: RxEvent)
    | BytesRead
    | IdleProbe

  /** One atomic step: the state after it and what it did, in order. */
  datatype Turn = Turn(ep: Endpoint, out: seq<Effect>)

  /** GetRSSI(): MSG_GET, SCP_GET_RSSI */
  const PROBE: Payload := [0x40, 0x18]

  function OnRequest(e: Endpoint, data: Payload): Turn {
    var f := Frame(e.nextSeq, 0, data);
    var p := Pending(e.sent, 0, f, Encode(f));
    Turn(e.(nextSeq := (e.nextSeq + 1) % 0x100, sent := e.sent + 1, queue := e.queue + [p]),
         [Queued(e.sent, data)])
  }

  function OnTick(e: Endpoint): Turn {
    if e.busyTimer > 0 then Turn(e.(busyTimer := e.busyTimer - 1), [])
    else if e.queue == [] then Turn(e, [])
    else
      var head := e.queue[0];
      if head.retries + 1 > SIRCON_MAX_RETRIES then
        Turn(e.(queue := e.queue[1..], linkAlive := false, linkFailCnt := e.linkFailCnt + 1,
                shutdown := e.shutdown || e.linkFailCnt + 1 > SIRCON_MAX_LINK_FAILURES),
             [Resolve(head.id, TIMEOUT)])
      else
        Turn(e.(queue := [head.(retries := head.retries + 1)] + e.queue[1..]),
             [TxFrame(head.id, head.frame)])
  }

  predicate IsPositive(flags: Byte) { HasAck(flags) && !HasChksum(flags) && !HasBusy(flags) }
  predicate IsBusyNak(flags: Byte) { HasAck(flags) && !HasChksum(flags) && HasBusy(flags) }

  function OnAckFrame(e: Endpoint, f: Frame): Turn {
    if e.queue == [] || f.seqno != e.queue[0].frame.seqno then Turn(e, [])
    else
      var head := e.queue[0];
      if HasChksum(f.flags) then Turn(e, [TxFrame(head.id, head.frame)])
      else if HasBusy(f.flags) then Turn(e.(busyTimer := BUSY_DELAY_COUNT), [])
      else Turn(e.(queue := e.queue[1..]), [Resolve(head.id, SUCCESS)])
  }

  function AckFor(seqno: Byte): Frame { Frame(seqno, SF_ACK, []) }
  function NakFor(seqno: Byte): Frame { Frame(seqno, SF_ACK + SF_CHKSUM, []) }

  function OnDataFrame(e: Endpoint, f: Frame): Turn {
    Turn(e.(lastSeq := f.seqno, seqExpected := (f.seqno + 1) % 0x100, busyTimer := 0),
         [TxAck(AckFor(f.seqno))] + if f.seqno != e.lastSeq then [Dispatch(f.data)] else [])
  }

  function OnEvent(e: Endpoint, event: RxEvent): Turn {
    match event
    case Skip => Turn(e, [])
    case BadChecksum(seqno) => Turn(e, [TxAck(NakFor(seqno))])
    case Accept(f) => if HasAck(f.flags) then OnAckFrame(e, f) else OnDataFrame(e, f)
  }

  function Step(e: Endpoint, i: Input): Turn {
    match i
    case Request(data) => OnRequest(e, data)
    case Tick => OnTick(e)
    case Receive(event) => OnEvent(e, event)
    case BytesRead =>
      Turn(if e.linkAlive then e else e.(linkAlive := true, linkFailCnt := 0), [])
    case IdleProbe => if e.linkAlive then OnRequest(e, PROBE) else Turn(e, [])
  }

  /** A run, carried one step further. */
  function Extend(t: Turn, i: Input): Turn {
    Turn(Step(t.ep, i).ep, t.out + Step(t.ep, i).out)
  }

  /** A whole run: the state reached and everything done on the way. */
  function RunFrom(t: Turn, inputs: seq<Input>): Turn {
    if inputs == [] then t
    else Extend(RunFrom(t, inputs[..|inputs| - 1]), inputs[|inputs| - 1])
  }

  function Run(inputs: seq<Input>): Turn { RunFrom(Turn(INIT, []), inputs) }

  lemma SkipIsIdle(t: Turn)
    ensures Extend(t, Receive(Skip)) == t
  {
  }

  lemma RunSnoc(t: Turn, inputs: seq<Input>, i: Input)
    ensures RunFrom(t, inputs + [i]) == Extend(RunFrom(t, inputs), i)
  {
    assert (inputs + [i])[..|inputs|] == inputs;
  }

  lemma {:induction false} RunConcat(t: Turn, a: seq<Input>, b: seq<Input>)
    ensures RunFrom(RunFrom(t, a), b) == RunFrom(t, a + b)
  {
    if b == [] {
      assert a + b == a;
    } else {
      var init, last := b[..|b| - 1], b[|b| - 1];
      RunConcat(t, a, init);
      assert a + b == (a + init) + [last];
      RunSnoc(t, a + init, last);
    }
  }

  // ------------------------------------------------- what the log amounts to

  datatype Resolution = Resolution(id: nat, result: ScResult)

  datatype Hist = Hist(sent: seq<Payload>, results: seq<Resolution>, got: seq<Payload>)

  const NO_HIST := Hist([], [], [])

  function Record(h: Hist, x: Effect): Hist {
    match x
    case Queued(_, data) => h.(sent := h.sent + [data])
    case Resolve(id, r) => h.(results := h.results + [Resolution(id, r)])
    case Dispatch(data) => h.(got := h.got + [data])
    case TxFrame(_, _) => h
    case TxAck(_) => h
  }

  function RecordAll(h: Hist, log: seq<Effect>): Hist {
    if log == [] then h else Record(RecordAll(h, log[..|log| - 1]), log[|log| - 1])
  }

  lemma {:induction false} RecordConcat(h: Hist, a: seq<Effect>, b: seq<Effect>)
    ensures RecordAll(h, a + b) == RecordAll(RecordAll(h, a), b)
  {
    if b == [] {
      assert a + b == a;
    } else {
      assert (a + b)[..|a + b| - 1] == a + b[..|b| - 1];
      RecordConcat(h, a, b[..|b| - 1]);
    }
  }

  lemma RecordShort(h: Hist, x: Effect, y: Effect)
    ensures RecordAll(h, [x]) == Record(h, x)
    ensures RecordAll(h, [x, y]) == Record(Record(h, x), y)
  {
    assert [x][..0] == [];
    assert [x, y][..1] == [x];
  }

  /** Frame number id, as composed: 8-bit sequence number, no flags. */
  function FrameOf(sent: seq<Payload>, id: nat): Frame
    requires id < |sent|
  {
    Frame(id % 0x100, 0, sent[id])
  }

  ghost predicate QueueOk(queue: seq<Pending>, sent: seq<Payload>, first: nat) {
    && first + |queue| == |sent|
    && forall i :: 0 <= i < |queue| ==>
         && queue[i].id == first + i
         && queue[i].frame == FrameOf(sent, first + i)
         && queue[i].bytes == Encode(queue[i].frame)
         && queue[i].retries <= (if i == 0 then SIRCON_MAX_RETRIES else 0)
  }

  ghost predicate Inv(e: Endpoint, h: Hist) {
    && QueueOk(e.queue, h.sent, |h.results|)
    && (forall i :: 0 <= i < |h.results| ==> h.results[i].id == i)
    && e.sent == |h.sent| && e.nextSeq == e.sent % 0x100
    && e.busyTimer <= BUSY_DELAY_COUNT
    && (e.linkAlive ==> e.linkFailCnt == 0)
    && -1 <= e.lastSeq < 0x100
  }

  lemma RecordLast(h: Hist, x: Effect)
    ensures RecordAll(h, [x]) == Record(h, x)
  {
    RecordShort(h, x, x);
  }

  lemma QueueShift(queue: seq<Pending>, sent: seq<Payload>, first: nat)
    requires QueueOk(queue, sent, first) && queue != []
    ensures QueueOk(queue[1..], sent, first + 1)
  {
  }

  lemma QueueBump(queue: seq<Pending>, sent: seq<Payload>, first: nat)
    requires QueueOk(queue, sent, first) && queue != [] && queue[0].retries < SIRCON_MAX_RETRIES
    ensures QueueOk([queue[0].(retries := queue[0].retries + 1)] + queue[1..], sent, first)
  {
  }

  lemma QueueGrow(queue: seq<Pending>, sent: seq<Payload>, first: nat, data: Payload)
    requires QueueOk(queue, sent, first)
    ensures var f := Frame(|sent| % 0x100, 0, data);
            QueueOk(queue + [Pending(|sent|, 0, f, Encode(f))], sent + [data], first)
  {
  }

  lemma RequestKeepsInv(e: Endpoint, h: Hist, data: Payload)
    requires Inv(e, h)
    ensures var t := OnRequest(e, data); Inv(t.ep, RecordAll(h, t.out))
  {
    RecordLast(h, Queued(e.sent, data));
    QueueGrow(e.queue, h.sent, |h.results|, data);
  }

  lemma TickKeepsInv(e: Endpoint, h: Hist)
    requires Inv(e, h)
    ensures var t := OnTick(e); Inv(t.ep, RecordAll(h, t.out))
  {
    if e.busyTimer == 0 && e.queue != [] {
      var head := e.queue[0];
      if head.retries + 1 > SIRCON_MAX_RETRIES {
        RecordLast(h, Resolve(head.id, TIMEOUT));
        QueueShift(e.queue, h.sent, |h.results|);
      } else {
        RecordLast(h, TxFrame(head.id, head.frame));
        QueueBump(e.queue, h.sent, |h.results|);
      }
    }
  }

  lemma AckFrameKeepsInv(e: Endpoint, h: Hist, f: Frame)
    requires Inv(e, h)
    ensures var t := OnAckFrame(e, f); Inv(t.ep, RecordAll(h, t.out))
  {
    if e.queue != [] && f.seqno == e.queue[0].frame.seqno {
      var head := e.queue[0];
      RecordLast(h, TxFrame(head.id, head.frame));
      RecordLast(h, Resolve(head.id, SUCCESS));
      QueueShift(e.queue, h.sent, |h.results|);
    }
  }

  lemma DataFrameKeepsInv(e: Endpoint, h: Hist, f: Frame)
    requires Inv(e, h)
    ensures var t := OnDataFrame(e, f); Inv(t.ep, RecordAll(h, t.out))
  {
    var ack, d := TxAck(AckFor(f.seqno)), Dispatch(f.data);
    RecordShort(h, ack, d);
    assert [ack] + [d] == [ack, d];
    assert [ack] + [] == [ack];
  }

  lemma EventKeepsInv(e: Endpoint, h: Hist, event: RxEvent)
    requires Inv(e, h)
    ensures var t := OnEvent(e, event); Inv(t.ep, RecordAll(h, t.out))
  {
    match event
    case Skip =>
    case BadChecksum(seqno) =>
      RecordLast(h, TxAck(NakFor(seqno)));
    case Accept(f) =>
      if HasAck(f.flags) {
        AckFrameKeepsInv(e, h, f);
      } else {
        DataFrameKeepsInv(e, h, f);
      }
  }

  lemma StepKeepsInv(e: Endpoint, h: Hist, i: Input)
    requires Inv(e, h)
    ensures var t := Step(e, i); Inv(t.ep, RecordAll(h, t.out))
  {
    match i
    case Request(data) => RequestKeepsInv(e, h, data);
    case Tick => TickKeepsInv(e, h);
    case Receive(event) => EventKeepsInv(e, h, event);
    case BytesRead =>
    case IdleProbe => RequestKeepsInv(e, h, PROBE);
  }

  /** Over every run: the promises handed out are, in order, those resolved
      (once each, in order) followed by those still queued, with the frame of
      promise n carrying the n-th request under sequence number n mod 256; only
      the head of the queue has ever been transmitted, at most three times. */
  lemma {:induction false} PromiseConservation(inputs: seq<Input>)
    ensures Inv(Run(inputs).ep, RecordAll(NO_HIST, Run(inputs).out))
  {
    if inputs != [] {
      var before := Run(inputs[..|inputs| - 1]);
      PromiseConservation(inputs[..|inputs| - 1]);
      var i := inputs[|inputs| - 1];
      StepKeepsInv(before.ep, RecordAll(NO_HIST, before.out), i);
      RecordConcat(NO_HIST, before.out, Step(before.ep, i).out);
    }
  }

  /** OnExit drops the queue without setting a promise. */
  function Abandoned(e: Endpoint): seq<nat> {
    seq(|e.queue|, i requires 0 <= i < |e.queue| => e.queue[i].id)
  }

  function Upto(n: nat): seq<nat> { seq(n, i => i) }

  function ResolvedIds(rs: seq<Resolution>): seq<nat> {
    seq(|rs|, i requires 0 <= i < |rs| => rs[i].id)
  }

  /** At exit every promise ever handed out is accounted for once: resolved, or
      abandoned because its frame was still queued. */
  lemma ExitAccountsForEverything(inputs: seq<Input>)
    ensures var t := Run(inputs);
            ResolvedIds(RecordAll(NO_HIST, t.out).results) + Abandoned(t.ep) == Upto(t.ep.sent)
  {
    PromiseConservation(inputs);
  }

  // ------------------------------------------------------------ bounded wait

  function CountTicks(inputs: seq<Input>): nat {
    if inputs == [] then 0
    else CountTicks(inputs[..|inputs| - 1]) + if inputs[|inputs| - 1].Tick? then 1 else 0
  }

  predicate IsBusyInput(i: Input) {
    i.Receive? && i.event.Accept? && IsBusyNak(i.event.frame.flags)
  }

  function CountBusy(inputs: seq<Input>): nat {
    if inputs == [] then 0
    else CountBusy(inputs[..|inputs| - 1]) + if IsBusyInput(inputs[|inputs| - 1]) then 1 else 0
  }

  /** Ticks frame id may still have to wait: four for itself and for each frame
      ahead of it, less those the head has used, plus the busy back-off. */
  function TicksLeft(e: Endpoint, id: nat): int
    requires e.queue != []
  {
    4 * (id - e.queue[0].id + 1) - e.queue[0].retries + e.busyTimer
  }

  predicate Waiting(e: Endpoint, id: nat) {
    e.queue != [] && e.queue[0].id <= id < e.queue[0].id + |e.queue|
  }

  /** The endpoint is in a state its invariant allows, for some history. */
  ghost predicate Sound(e: Endpoint) { exists h :: Inv(e, h) }

  lemma StepSound(e: Endpoint, i: Input)
    requires Sound(e)
    ensures Sound(Step(e, i).ep) && e.sent <= Step(e, i).ep.sent
  {
    var h :| Inv(e, h);
    StepKeepsInv(e, h, i);
  }

  lemma TickTicksLeft(e: Endpoint, id: nat)
    requires Sound(e) && Waiting(OnTick(e).ep, id)
    ensures Waiting(e, id)
    ensures 1 <= TicksLeft(OnTick(e).ep, id) == TicksLeft(e, id) - 1
  {
    var h :| Inv(e, h);
  }

  lemma AckTicksLeft(e: Endpoint, f: Frame, id: nat)
    requires Sound(e) && Waiting(OnAckFrame(e, f).ep, id) && HasAck(f.flags)
    ensures Waiting(e, id)
    ensures 1 <= TicksLeft(OnAckFrame(e, f).ep, id) <= TicksLeft(e, id) + (if IsBusyNak(f.flags) then 1 else 0)
  {
    var h :| Inv(e, h);
  }

  /** One step: a tick brings every waiting frame one tick closer, and nothing
      but a busy NAK sets it back, and that by one tick at most. */
  lemma StepTicksLeft(e: Endpoint, i: Input, id: nat)
    requires Sound(e) && id < e.sent
    requires Waiting(Step(e, i).ep, id)
    ensures Waiting(e, id)
    ensures 1 <= TicksLeft(Step(e, i).ep, id)
              <= TicksLeft(e, id) - (if i.Tick? then 1 else 0) + (if IsBusyInput(i) then 1 else 0)
  {
    if i.Tick? {
      TickTicksLeft(e, id);
    } else if i.Receive? && i.event.Accept? && HasAck(i.event.frame.flags) {
      AckTicksLeft(e, i.event.frame, id);
    } else {
      var h :| Inv(e, h);
    }
  }

  lemma {:induction false} RunTicksLeft(e: Endpoint, inputs: seq<Input>, id: nat)
    requires Sound(e) && id < e.sent
    ensures var t := RunFrom(Turn(e, []), inputs).ep;
            && Sound(t)
            && e.sent <= t.sent
            && (Waiting(t, id) ==>
                  && Waiting(e, id)
                  && TicksLeft(t, id) + CountTicks(inputs) <= TicksLeft(e, id) + CountBusy(inputs))
  {
    if inputs != [] {
      var init, i := inputs[..|inputs| - 1], inputs[|inputs| - 1];
      RunTicksLeft(e, init, id);
      var t := RunFrom(Turn(e, []), init).ep;
      StepSound(t, i);
      if Waiting(Step(t, i).ep, id) {
        StepTicksLeft(t, i, id);
      }
    }
  }

  /** Bounded waiting: whatever else is requested, received or lost, a frame is
      resolved by the time the timer has fired TicksLeft times, plus once for
      every busy NAK received meanwhile. */
  lemma BoundedWait(e: Endpoint, inputs: seq<Input>, id: nat)
    requires Sound(e) && Waiting(e, id)
    requires CountTicks(inputs) >= TicksLeft(e, id) + CountBusy(inputs)
    ensures !Waiting(RunFrom(Turn(e, []), inputs).ep, id)
  {
    RunTicksLeft(e, inputs, id);
  }

  /** n queued frames are all resolved within 4n + busyTimer ticks, plus one for
      every busy NAK. */
  lemma BoundedDrain(e: Endpoint, inputs: seq<Input>)
    requires Sound(e)
    requires CountTicks(inputs) >= 4 * |e.queue| + e.busyTimer + CountBusy(inputs)
    ensures forall id :: 0 <= id < e.sent ==> !Waiting(RunFrom(Turn(e, []), inputs).ep, id)
  {
    var h :| Inv(e, h);
    forall id | 0 <= id < e.sent
      ensures !Waiting(RunFrom(Turn(e, []), inputs).ep, id)
    {
      if Waiting(e, id) {
        BoundedWait(e, inputs, id);
      } else {
        RunTicksLeft(e, inputs, id);
      }
    }
  }

  function Ticks(n: nat): seq<Input> { seq(n, _ => Tick) }

  /** The bound is exact: with the radio silent, the last queued frame is
      resolved on that very tick and not before. */
  lemma {:induction false} SilentRadioExactWait(e: Endpoint, n: nat)
    requires Sound(e) && e.queue != []
    ensures var t := RunFrom(Turn(e, []), Ticks(n)).ep;
            && t.sent == e.sent && Sound(t)
            && (Waiting(t, e.sent - 1) <==> n < TicksLeft(e, e.sent - 1))
            && (if n < TicksLeft(e, e.sent - 1) then TicksLeft(t, e.sent - 1) == TicksLeft(e, e.sent - 1) - n
                else t.queue == [])
  {
    var h :| Inv(e, h);
    if n > 0 {
      assert Ticks(n)[..n - 1] == Ticks(n - 1);
      SilentRadioExactWait(e, n - 1);
      var t := RunFrom(Turn(e, []), Ticks(n - 1)).ep;
      SilentTick(t);
    }
  }

  lemma SilentTick(t: Endpoint)
    requires Sound(t)
    ensures var u := OnTick(t).ep;
            && Sound(u) && u.sent == t.sent
            && (t.queue == [] ==> u.queue == [])
            && (t.queue != [] ==>
                  if TicksLeft(t, t.sent - 1) == 1 then u.queue == []
                  else Waiting(u, t.sent - 1) && TicksLeft(u, t.sent - 1) == TicksLeft(t, t.sent - 1) - 1)
  {
    var h :| Inv(t, h);
    TickKeepsInv(t, h);
  }

  // ---------------------------------------------------------------- back-off

  /** What a tick that works the queue puts out: the fourth visit to a frame gives
      it up, the first three send it. */
  function Worked(queue: seq<Pending>): seq<Effect> {
    if queue == [] then []
    else if queue[0].retries >= 3 then [Resolve(queue[0].id, TIMEOUT)]
    else [TxFrame(queue[0].id, queue[0].frame)]
  }

  function Ticked(e: Endpoint): Turn { Step(e, Tick) }

  /** A busy answer to the head frame (0x80 and 0x02 set, 0x01 not) puts nothing
      out and costs the frame exactly one tick, whatever the back-off was: the next
      tick passes without effect, the one after it works the queue. */
  lemma BusyHoldsBack(e: Endpoint, f: Frame)
    requires e.queue != [] && f.seqno == e.queue[0].frame.seqno
    requires f.flags / 0x80 % 2 == 1 && f.flags / 0x02 % 2 == 1 && f.flags % 2 == 0
    ensures var busy := Step(e, Receive(Accept(f)));
            var (idle, next) := (Ticked(busy.ep), Ticked(Ticked(busy.ep).ep));
            && busy.out == [] && idle.out == [] && idle.ep == e.(busyTimer := 0)
            && next.out == Worked(e.queue)
            && forall id :: TicksLeft(busy.ep, id) == TicksLeft(e, id) - e.busyTimer + 1
  {
  }

  /** Hearing data ends the wait: the next tick works the queue. It is acknowledged
      (0x80) before it is dispatched, and a repeated number only acknowledged. */
  lemma DataEndsWait(e: Endpoint, f: Frame)
    requires f.flags / 0x80 % 2 == 0
    ensures var t := Step(e, Receive(Accept(f)));
            && t.ep.queue == e.queue && Ticked(t.ep).out == Worked(e.queue)
            && t.out == [TxAck(Frame(f.seqno, 0x80, []))] + (if f.seqno == e.lastSeq then [] else [Dispatch(f.data)])
  {
  }

  /** How far one input moves frame id from its resolution: a tick brings it one
      closer; a busy answer to the head frame makes the back-off one tick, and data
      makes it none; a success saves what was left of the head frame's four. Nothing
      else makes any difference. */
  function Shift(e: Endpoint, i: Input): int {
    match i
    case Tick => -1
    case Receive(Accept(f)) =>
      if f.flags / 0x80 % 2 == 0 then 0 - e.busyTimer
      else if e.queue == [] || f.seqno != e.queue[0].frame.seqno || f.flags % 2 == 1 then 0
      else if f.flags / 0x02 % 2 == 1 then 1 - e.busyTimer
      else e.queue[0].retries - 4
    case _ => 0
  }

  lemma ExactTicksLeft(e: Endpoint, i: Input, id: nat)
    requires Sound(e) && Waiting(e, id) && Waiting(Step(e, i).ep, id)
    ensures TicksLeft(Step(e, i).ep, id) == TicksLeft(e, id) + Shift(e, i)
  {
    var h :| Inv(e, h);
  }

  /** That bytes came in revives a dead link and makes no other difference. */
  lemma BytesOnlyWake(e: Endpoint)
    ensures Step(e, BytesRead) == Turn(if e.linkAlive then e else e.(linkAlive := true, linkFailCnt := 0), [])
  {
  }

  /** An acknowledgement of anything but the head frame is ignored; a report of a
      bad checksum (0x01) has the head sent again at once, busy or not, and neither
      uses up a retry nor waits for the timer; the rest settles it. */
  lemma AnswersTaken(e: Endpoint, f: Frame)
    requires f.flags / 0x80 % 2 == 1
    ensures var t := Step(e, Receive(Accept(f)));
            if e.queue == [] || f.seqno != e.queue[0].frame.seqno then t == Turn(e, [])
            else if f.flags % 2 == 1 then t == Turn(e, [TxFrame(e.queue[0].id, e.queue[0].frame)])
            else if f.flags / 0x02 % 2 == 0 then t == Turn(e.(queue := e.queue[1..]), [Resolve(e.queue[0].id, SUCCESS)])
            else t.ep.queue == e.queue
  {
  }

  /** The number expected next is always the one after the last seen. */
  lemma {:induction false} ExpectsNext(inputs: seq<Input>)
    ensures var e := Run(inputs).ep; e.seqExpected == (e.lastSeq + 1) % 0x100
  {
    if inputs != [] {
      ExpectsNext(inputs[..|inputs| - 1]);
    }
  }

  // ----------------------------------------------------------- transmissions

  lemma PositiveAck(e: Endpoint)
    requires e.queue != []
    ensures OnAckFrame(e, AckFor(e.queue[0].frame.seqno))
         == Turn(e.(queue := e.queue[1..]), [Resolve(e.queue[0].id, SUCCESS)])
  {
  }

  predicate Sends(out: seq<Effect>, id: nat) {
    out != [] && out[0].TxFrame? && out[0].id == id
  }

  /** How often the timer has put frame id on the wire. */
  function TimerSends(inputs: seq<Input>, id: nat): nat {
    if inputs == [] then 0
    else
      var init, i := inputs[..|inputs| - 1], inputs[|inputs| - 1];
      TimerSends(init, id) + if i.Tick? && Sends(OnTick(Run(init).ep).out, id) then 1 else 0
  }

  /** What the history and the queue say about that number. */
  ghost predicate SendsOk(e: Endpoint, h: Hist, id: nat, n: nat)
    requires Inv(e, h)
  {
    if id < |h.results| then n == 3 || (h.results[id].result.SUCCESS? && n < 3)
    else if id < |h.sent| then n == e.queue[id - |h.results|].retries
    else n == 0
  }

  lemma DataFrameRecord(e: Endpoint, h: Hist, f: Frame)
    ensures var h' := RecordAll(h, OnDataFrame(e, f).out); h'.sent == h.sent && h'.results == h.results
  {
    var ack := TxAck(AckFor(f.seqno));
    RecordShort(h, ack, Dispatch(f.data));
    assert [ack] + [Dispatch(f.data)] == [ack, Dispatch(f.data)];
    assert [ack] + [] == [ack];
  }

  lemma SendsTick(e: Endpoint, h: Hist, id: nat, n: nat)
    requires Inv(e, h) && SendsOk(e, h, id, n)
    ensures var t := OnTick(e);
            Inv(t.ep, RecordAll(h, t.out))
            && SendsOk(t.ep, RecordAll(h, t.out), id, n + if Sends(t.out, id) then 1 else 0)
  {
    TickKeepsInv(e, h);
    if e.busyTimer == 0 && e.queue != [] {
      var head := e.queue[0];
      if head.retries + 1 > SIRCON_MAX_RETRIES {
        RecordLast(h, Resolve(head.id, TIMEOUT));
      } else {
        RecordLast(h, TxFrame(head.id, head.frame));
      }
    }
  }

  lemma SendsAck(e: Endpoint, h: Hist, f: Frame, id: nat, n: nat)
    requires Inv(e, h) && SendsOk(e, h, id, n)
    ensures var t := OnAckFrame(e, f);
            Inv(t.ep, RecordAll(h, t.out)) && SendsOk(t.ep, RecordAll(h, t.out), id, n)
  {
    AckFrameKeepsInv(e, h, f);
    if e.queue != [] {
      var head := e.queue[0];
      RecordLast(h, Resolve(head.id, SUCCESS));
      RecordLast(h, TxFrame(head.id, head.frame));
    }
  }

  /** The queue and the results unchanged, perhaps one more request. */
  lemma SendsKept(e: Endpoint, h: Hist, e': Endpoint, h': Hist, id: nat, n: nat)
    requires Inv(e, h) && SendsOk(e, h, id, n) && Inv(e', h')
    requires h'.results == h.results && h.sent <= h'.sent && e.queue <= e'.queue
    requires |h'.sent| <= |h.sent| + 1 && (|h'.sent| > |h.sent| ==> e'.queue[|e'.queue| - 1].retries == 0)
    ensures SendsOk(e', h', id, n)
  {
  }

  lemma SendsEvent(e: Endpoint, h: Hist, event: RxEvent, id: nat, n: nat)
    requires Inv(e, h) && SendsOk(e, h, id, n)
    ensures var t := OnEvent(e, event);
            Inv(t.ep, RecordAll(h, t.out)) && SendsOk(t.ep, RecordAll(h, t.out), id, n)
  {
    EventKeepsInv(e, h, event);
    match event
    case Skip =>
    case BadChecksum(seqno) => RecordLast(h, TxAck(NakFor(seqno)));
    case Accept(f) =>
      if HasAck(f.flags) {
        SendsAck(e, h, f, id, n);
      } else {
        DataFrameRecord(e, h, f);
        var t := OnDataFrame(e, f);
        SendsKept(e, h, t.ep, RecordAll(h, t.out), id, n);
      }
  }

  lemma SendsRequest(e: Endpoint, h: Hist, data: Payload, id: nat, n: nat)
    requires Inv(e, h) && SendsOk(e, h, id, n)
    ensures var t := OnRequest(e, data);
            Inv(t.ep, RecordAll(h, t.out)) && SendsOk(t.ep, RecordAll(h, t.out), id, n)
  {
    RequestKeepsInv(e, h, data);
    RecordLast(h, Queued(e.sent, data));
    var t := OnRequest(e, data);
    SendsKept(e, h, t.ep, RecordAll(h, t.out), id, n);
  }

  lemma SendsStep(e: Endpoint, h: Hist, i: Input, id: nat, n: nat)
    requires Inv(e, h) && SendsOk(e, h, id, n)
    ensures var t := Step(e, i);
            Inv(t.ep, RecordAll(h, t.out))
            && SendsOk(t.ep, RecordAll(h, t.out), id, n + if i.Tick? && Sends(OnTick(e).out, id) then 1 else 0)
  {
    match i
    case Tick => SendsTick(e, h, id, n);
    case Request(data) => SendsRequest(e, h, data, id, n);
    case IdleProbe =>
      if e.linkAlive {
        SendsRequest(e, h, PROBE, id, n);
      }
    case BytesRead => StepKeepsInv(e, h, i);
    case Receive(event) => SendsEvent(e, h, event, id, n);
  }

  /** A frame is given up only after the timer has sent it exactly three times;
      no frame is sent by the timer more often, and none before its turn. */
  lemma {:induction false} TransmissionCount(inputs: seq<Input>, id: nat)
    ensures var t := Run(inputs);
            Inv(t.ep, RecordAll(NO_HIST, t.out))
            && SendsOk(t.ep, RecordAll(NO_HIST, t.out), id, TimerSends(inputs, id))
  {
    if inputs != [] {
      var init, i := inputs[..|inputs| - 1], inputs[|inputs| - 1];
      var before := Run(init);
      TransmissionCount(init, id);
      SendsStep(before.ep, RecordAll(NO_HIST, before.out), i, id, TimerSends(init, id));
      RecordConcat(NO_HIST, before.out, Step(before.ep, i).out);
    }
  }

  // -------------------------------------------------------- link supervision

  predicate IsTimeout(x: Effect) { x.Resolve? && x.result.TIMEOUT? }

  /** Timeouts reported since bytes last arrived, read off the run itself. */
  function TimeoutsSinceRead(inputs: seq<Input>): nat {
    if inputs == [] then 0
    else
      var init, i := inputs[..|inputs| - 1], inputs[|inputs| - 1];
      var out := Step(Run(init).ep, i).out;
      if i.BytesRead? then 0
      else TimeoutsSinceRead(init) + if out != [] && IsTimeout(out[0]) then 1 else 0
  }

  lemma LinkStep(e: Endpoint, i: Input)
    ensures var (t, u) := (Step(e, i), Step(e, i).ep);
            && (if i.BytesRead? then
                  && u.linkAlive && u.shutdown == e.shutdown
                  && u.linkFailCnt == (if e.linkAlive then e.linkFailCnt else 0)
                else if t.out != [] && IsTimeout(t.out[0]) then
                  && !u.linkAlive && u.linkFailCnt == e.linkFailCnt + 1
                  && (u.shutdown <==> e.shutdown || u.linkFailCnt > SIRCON_MAX_LINK_FAILURES)
                else
                  u.linkAlive == e.linkAlive && u.linkFailCnt == e.linkFailCnt && u.shutdown == e.shutdown)
  {
  }

  /** The failure count is the number of timeouts since the last byte arrived,
      and the link counts as alive from a byte's arrival to the next timeout. */
  lemma {:induction false} LinkSupervision(inputs: seq<Input>)
    ensures var e := Run(inputs).ep;
            && e.linkFailCnt == TimeoutsSinceRead(inputs)
            && (e.linkAlive <==> BytesRead in inputs && TimeoutsSinceRead(inputs) == 0)
  {
    if inputs != [] {
      var init, i := inputs[..|inputs| - 1], inputs[|inputs| - 1];
      LinkSupervision(init);
      assert inputs == init + [i];
      assert BytesRead in inputs <==> BytesRead in init || i == BytesRead;
      LinkStep(Run(init).ep, i);
    }
  }

  /** After some prefix of the inputs, eleven timeouts stood in a row. */
  predicate EverDead(inputs: seq<Input>) {
    || TimeoutsSinceRead(inputs) >= 11
    || (inputs != [] && EverDead(inputs[..|inputs| - 1]))
  }

  /** Shutdown has been requested exactly if eleven timeouts, not ten, once came
      in a row with no byte received between them. */
  lemma {:induction false} LinkFailureShutdown(inputs: seq<Input>)
    ensures Run(inputs).ep.shutdown <==> EverDead(inputs)
  {
    if inputs != [] {
      var init, i := inputs[..|inputs| - 1], inputs[|inputs| - 1];
      LinkFailureShutdown(init);
      LinkSupervision(init);
      LinkSupervision(inputs);
      LinkStep(Run(init).ep, i);
    }
  }

  // --------------------------------------------------------------- keepalive

  /** Once bytes have come in, a silence makes the endpoint ask for the signal
      strength: the request goes to the end of the queue. */
  lemma ProbeAsked(inputs: seq<Input>)
    ensures var (t, u) := (Run(inputs), Run(inputs + [BytesRead, IdleProbe]));
            && u.out == t.out + [Queued(t.ep.sent, [0x40, 0x18])]
            && |u.ep.queue| == |t.ep.queue| + 1 && u.ep.queue[..|t.ep.queue|] == t.ep.queue
            && u.ep.queue[|t.ep.queue|].frame.data == [0x40, 0x18]
  {
    var t := Turn(INIT, []);
    assert inputs + [BytesRead, IdleProbe] == (inputs + [BytesRead]) + [IdleProbe];
    RunSnoc(t, inputs, BytesRead);
    RunSnoc(t, inputs + [BytesRead], IdleProbe);
    assert Run(inputs).out + [] == Run(inputs).out;
  }

  /** A link known to be dead is not probed. */
  lemma DeadNotProbed(e: Endpoint)
    requires !e.linkAlive
    ensures Step(e, IdleProbe) == Turn(e, [])
  {
  }

  /** Nothing at all comes from the radio. */
  predicate Silent(inputs: seq<Input>) { forall i :: i in inputs ==> !i.BytesRead? && !i.Receive? }

  lemma SilentStep(e: Endpoint, i: Input, id: nat)
    requires Sound(e) && id < e.sent && !i.BytesRead? && !i.Receive?
    requires Waiting(e, id) || !e.linkAlive
    ensures Waiting(Step(e, i).ep, id) || !Step(e, i).ep.linkAlive
  {
    var h :| Inv(e, h);
  }

  /** Without a byte from the radio a frame is still waiting or the link is known
      to be dead. */
  lemma {:induction false} SilentRun(e: Endpoint, inputs: seq<Input>, id: nat)
    requires Sound(e) && Waiting(e, id) && id < e.sent && Silent(inputs)
    ensures var t := RunFrom(Turn(e, []), inputs).ep; Waiting(t, id) || !t.linkAlive
  {
    if inputs != [] {
      var init := inputs[..|inputs| - 1];
      SilentRun(e, init, id);
      RunTicksLeft(e, init, id);
      assert inputs[|inputs| - 1] in inputs;
      SilentStep(RunFrom(Turn(e, []), init).ep, inputs[|inputs| - 1], id);
    }
  }

  /** So a live link that has fallen silent is found out: once the probe's ticks
      have passed without a byte, the link is no longer alive. */
  lemma SilenceFound(e: Endpoint, inputs: seq<Input>)
    requires Sound(e) && e.linkAlive && Silent(inputs)
    requires CountTicks(inputs) >= 4 * (|e.queue| + 1) + e.busyTimer
    ensures !RunFrom(Turn(Step(e, IdleProbe).ep, []), inputs).ep.linkAlive
  {
    var h :| Inv(e, h);
    var p, id := Step(e, IdleProbe).ep, e.sent;
    StepSound(e, IdleProbe);
    NeverBusy(inputs);
    SilentRun(p, inputs, id);
    BoundedWait(p, inputs, id);
  }

  lemma {:induction false} NeverBusy(inputs: seq<Input>)
    requires Silent(inputs)
    ensures CountBusy(inputs) == 0
  {
    if inputs != [] {
      assert inputs[|inputs| - 1] in inputs;
      NeverBusy(inputs[..|inputs| - 1]);
    }
  }
}
