/** What two endpoints achieve over a line that behaves: with whole frames on it,
    and until one side stops, deliveries and ticks alone bring every queued frame
    of both sides to SUCCESS, exactly unless a head frame has no hope left
    (sircon.cpp). */
module ArqLive {
  import opened Scp
  import opened Framer
  import opened Arq
  import E = Endpoint

  /** The head frame, if there is one, may still be sent by the timer. */
  predicate Ready(e: E.Endpoint) { e.queue != [] ==> e.queue[0].retries < SIRCON_MAX_RETRIES }

  ghost predicate OnlySuccess(rs: seq<E.Resolution>, rs': seq<E.Resolution>) {
    && |rs| <= |rs'| && rs'[..|rs|] == rs
    && forall k :: |rs| <= k < |rs'| ==> rs'[k].result.SUCCESS?
  }

  /** From s to s' nothing was requested and nothing was given up, so that no stop
      was asked for either; a head frame that follows a delivered one has all its retries. */
  ghost predicate Kept(s: Node, s': Node) {
    && s'.hist.sent == s.hist.sent
    && OnlySuccess(s.hist.results, s'.hist.results)
    && (Ready(s.ep) || |s.hist.results| < |s'.hist.results| ==> Ready(s'.ep))
    && s'.ep.shutdown == s.ep.shutdown
  }

  ghost predicate BothKept(n: Net, n': Net) { Kept(n.a, n'.a) && Kept(n.b, n'.b) }

  lemma KeptTwice(s: Node, s': Node, s'': Node)
    requires Kept(s, s') && Kept(s', s'')
    ensures Kept(s, s'')
  {
    var k := |s.hist.results|;
    assert s''.hist.results[..k] == s''.hist.results[..|s'.hist.results|][..k];
    forall j | k <= j < |s''.hist.results|
      ensures s''.hist.results[j].result.SUCCESS?
    {
      assert j < |s'.hist.results| ==> s'.hist.results[j] == s''.hist.results[..|s'.hist.results|][j];
    }
  }

  lemma KeptCalm(s: Node, s': Node)
    requires Kept(s, s')
    ensures TimeoutsInARow(s') <= TimeoutsInARow(s)
  {
    assert s'.hist.results[..|s'.hist.results|] == s'.hist.results;
  }

  /** Nothing on the line but frames. */
  ghost predicate Whole(ch: seq<Packet>) { forall p :: p in ch ==> p.Intact? }

  /** How many deliveries a frame can still cause: a data frame is answered, a
      checksum NAK brings a data frame. */
  function Weight(p: Packet): nat {
    match p
    case Damaged(_) => 0
    case Intact(f, _) => if !HasAck(f.flags) then 2 else if HasChksum(f.flags) then 3 else 1
  }

  function Load(ch: seq<Packet>): nat {
    if ch == [] then 0 else Load(ch[..|ch| - 1]) + Weight(ch[|ch| - 1])
  }

  lemma LoadSnoc(ch: seq<Packet>, p: Packet)
    ensures Load(ch + [p]) == Load(ch) + Weight(p)
  {
    assert (ch + [p])[..|ch|] == ch;
  }

  lemma {:induction false} LoadRest(ch: seq<Packet>)
    requires ch != []
    ensures Load(ch) == Weight(ch[0]) + Load(ch[1..])
  {
    if |ch| > 1 {
      var init, rest := ch[..|ch| - 1], ch[1..];
      LoadRest(init);
      assert rest[..|rest| - 1] == init[1..];
    } else {
      assert ch[..0] == [] && ch[1..] == [];
    }
  }

  // ------------------------------------------------ hearing the next frame

  /** The node as it parses the first frame on its line. */
  function Reading(e: End): End
    requires e.inp != []
  {
    End(Awake(e.node), e.out, e.inp[1..])
  }

  lemma HearData(e: End, f: Frame, id: int)
    ensures var e' := Do(e, E.OnDataFrame(e.node.ep, f), id);
            && Kept(e.node, e'.node) && e'.out == e.out + [Intact(E.AckFor(f.seqno), id)] && e'.inp == e.inp
            && e'.node.ep.queue == e.node.ep.queue
  {
    var t, ack := E.OnDataFrame(e.node.ep, f), E.AckFor(f.seqno);
    if f.seqno == e.node.ep.lastSeq {
      DoOne(e, t, id, E.TxAck(ack));
    } else {
      assert t.out == [E.TxAck(ack), E.Dispatch(f.data)];
      DoAckDispatch(e, t, id, ack, f.data);
    }
  }

  predicate ForHead(e: E.Endpoint, f: Frame) { e.queue != [] && f.seqno == e.queue[0].frame.seqno }

  lemma HearNak(e: End, f: Frame, id: int)
    requires E.Inv(e.node.ep, e.node.hist) && HasChksum(f.flags) && ForHead(e.node.ep, f)
    ensures var e', head := Do(e, E.OnAckFrame(e.node.ep, f), id), e.node.ep.queue[0];
            && e'.node == e.node && e'.inp == e.inp
            && e'.out == e.out + [Intact(head.frame, head.id)] && !HasAck(head.frame.flags)
  {
    var t, head := E.OnAckFrame(e.node.ep, f), e.node.ep.queue[0];
    assert head.frame == E.FrameOf(e.node.hist.sent, |e.node.hist.results|);
    DoOne(e, t, id, E.TxFrame(head.id, head.frame));
  }

  lemma HearSuccess(e: End, f: Frame, id: int)
    requires E.Inv(e.node.ep, e.node.hist) && E.IsPositive(f.flags) && ForHead(e.node.ep, f)
    ensures var e' := Do(e, E.OnAckFrame(e.node.ep, f), id);
            && Kept(e.node, e'.node) && e'.out == e.out && e'.inp == e.inp
            && |e.node.hist.results| < |e'.node.hist.results|
  {
    DoOne(e, E.OnAckFrame(e.node.ep, f), id, E.Resolve(e.node.ep.queue[0].id, SUCCESS));
    assert e.out + [] == e.out;
  }

  /** An acknowledgement of something else, or a busy one. */
  lemma HearInVain(e: End, f: Frame, id: int)
    requires !ForHead(e.node.ep, f) || (!HasChksum(f.flags) && HasBusy(f.flags))
    ensures var e' := Do(e, E.OnAckFrame(e.node.ep, f), id);
            && Kept(e.node, e'.node) && e'.out == e.out && e'.inp == e.inp
            && e'.node.ep.queue == e.node.ep.queue && e'.node.hist == e.node.hist
  {
    DoNothing(e, E.OnAckFrame(e.node.ep, f), id);
  }

  /** A delivery takes more off the line than it puts back. */
  lemma HearNext(e: End)
    requires E.Inv(e.node.ep, e.node.hist) && e.inp != [] && Whole(e.inp)
    ensures var e' := Local(e, Deliver);
            && Kept(e.node, e'.node) && (Whole(e.out) ==> Whole(e'.out)) && Whole(e'.inp)
            && Load(e'.out) + Load(e'.inp) < Load(e.out) + Load(e.inp)
  {
    LoadRest(e.inp);
    E.StepKeepsInv(e.node.ep, e.node.hist, E.BytesRead);
    HearFrame(Reading(e), e.inp[0].frame, e.inp[0].id);
  }

  lemma HearFrame(e: End, f: Frame, id: int)
    requires E.Inv(e.node.ep, e.node.hist)
    ensures var e' := Do(e, E.OnEvent(e.node.ep, Accept(f)), id);
            && Kept(e.node, e'.node) && (Whole(e.out) ==> Whole(e'.out)) && e'.inp == e.inp
            && Load(e'.out) < Load(e.out) + Weight(Intact(f, id))
  {
    if HasAck(f.flags) {
      HearAck(e, f, id);
    } else {
      HearData(e, f, id);
      LoadSnoc(e.out, Intact(E.AckFor(f.seqno), id));
    }
  }

  lemma HearAck(e: End, f: Frame, id: int)
    requires E.Inv(e.node.ep, e.node.hist) && HasAck(f.flags)
    ensures var e' := Do(e, E.OnAckFrame(e.node.ep, f), id);
            && Kept(e.node, e'.node) && (Whole(e.out) ==> Whole(e'.out)) && e'.inp == e.inp
            && Load(e'.out) < Load(e.out) + Weight(Intact(f, id))
  {
    if !ForHead(e.node.ep, f) || (!HasChksum(f.flags) && HasBusy(f.flags)) {
      HearInVain(e, f, id);
    } else if HasChksum(f.flags) {
      HearNak(e, f, id);
      KeptSelf(e.node, e.node);
      LoadSnoc(e.out, Intact(e.node.ep.queue[0].frame, e.node.ep.queue[0].id));
    } else {
      HearSuccess(e, f, id);
    }
  }

  lemma OneDelivery(n: Net, side: Side)
    requires Inv(n) && Calm(n, 254) && Whole(n.ab) && Whole(n.ba)
    requires if side.A? then n.ba != [] else n.ab != []
    ensures var m := Step(n, Event(side, Deliver));
            && Inv(m) && Calm(m, 254) && BothKept(n, m) && Whole(m.ab) && Whole(m.ba)
            && Load(m.ab) + Load(m.ba) < Load(n.ab) + Load(n.ba)
  {
    var x := Event(side, Deliver);
    StepKeeps(n, x);
    HearNext(if side.A? then ViewA(n) else ViewB(n));
    KeptSelf(n.a, n.a);
    KeptSelf(n.b, n.b);
    KeptCalm(n.a, Step(n, x).a);
    KeptCalm(n.b, Step(n, x).b);
  }

  lemma KeptSelf(s: Node, s': Node)
    requires s'.hist.sent == s.hist.sent && s'.hist.results == s.hist.results
    requires s'.ep.queue == s.ep.queue && s'.ep.shutdown == s.ep.shutdown
    ensures Kept(s, s')
  {
  }

  // ------------------------------------------------------------------- hope

  function ViewA(n: Net): End { End(n.a, n.ab, n.ba) }
  function ViewB(n: Net): End { End(n.b, n.ba, n.ab) }

  predicate Carries(p: Packet, seqno: Byte) { IsData(p) && p.frame.seqno == seqno }

  /** An acknowledgement that is acted on: positive, or asking for a resend. */
  predicate Answers(p: Packet, seqno: Byte) {
    p.Intact? && HasAck(p.frame.flags) && p.frame.seqno == seqno && (HasChksum(p.frame.flags) || !HasBusy(p.frame.flags))
  }

  /** A copy of the head frame is on its way, or an answer to one is coming back. */
  ghost predicate UnderWay(e: End)
    requires e.node.ep.queue != []
  {
    var seqno := e.node.ep.queue[0].frame.seqno;
    (exists p :: p in e.out && Carries(p, seqno)) || (exists p :: p in e.inp && Answers(p, seqno))
  }

  /** Nothing is queued, or the head frame has a retry left or is under way. */
  ghost predicate Hope(e: End) { Ready(e.node.ep) || UnderWay(e) }

  lemma RestOf(ch: seq<Packet>, p: Packet)
    requires p in ch && ch[0] != p
    ensures p in ch[1..]
  {
  }

  lemma OwnHope(e: End)
    requires E.Inv(e.node.ep, e.node.hist) && e.inp != [] && Whole(e.inp) && Hope(e)
    ensures var e' := Local(e, Deliver);
            Hope(e') || |e.node.hist.results| < |e'.node.hist.results|
  {
    var e1, p := Reading(e), e.inp[0];
    var f, id := p.frame, p.id;
    E.StepKeepsInv(e.node.ep, e.node.hist, E.BytesRead);
    if !HasAck(f.flags) {
      HearData(e1, f, id);
      assert Hope(End(e.node, e.out, e.inp[1..])) by { HopeWithout(e); }
      HopeMore(End(e.node, e.out, e.inp[1..]), Local(e, Deliver), Intact(E.AckFor(f.seqno), id));
    } else if !ForHead(e1.node.ep, f) || (!HasChksum(f.flags) && HasBusy(f.flags)) {
      HearInVain(e1, f, id);
      HopeWithout(e);
    } else if HasChksum(f.flags) {
      HearNak(e1, f, id);
      var head := e.node.ep.queue[0];
      assert Carries(Intact(head.frame, head.id), head.frame.seqno);
      assert Intact(head.frame, head.id) in Local(e, Deliver).out;
    } else {
      HearSuccess(e1, f, id);
    }
  }

  /** A packet that is no answer for the head is not missed. */
  lemma HopeWithout(e: End)
    requires Hope(e) && e.inp != []
    requires e.node.ep.queue != [] ==> !Answers(e.inp[0], e.node.ep.queue[0].frame.seqno)
    ensures Hope(End(e.node, e.out, e.inp[1..]))
  {
    if !Ready(e.node.ep) {
      var seqno := e.node.ep.queue[0].frame.seqno;
      if q :| q in e.inp && Answers(q, seqno) {
        RestOf(e.inp, q);
      }
    }
  }

  lemma HopeMore(e: End, e': End, p: Packet)
    requires Hope(e) && e'.node.ep.queue == e.node.ep.queue && e'.inp == e.inp && e'.out == e.out + [p]
    ensures Hope(e')
  {
  }

  /** A copy that is taken off the line leaves its answer there. */
  lemma CopyAnswered(e: End, seqno: Byte)
    requires e.inp != [] && Carries(e.inp[0], seqno)
    ensures exists q :: q in Local(e, Deliver).out && Answers(q, seqno)
  {
    var p, ack := e.inp[0], Intact(E.AckFor(seqno), e.inp[0].id);
    HearData(Reading(e), p.frame, p.id);
    assert ack in Local(e, Deliver).out && Answers(ack, seqno);
  }

  lemma OutGrows(e: End, q: Packet)
    requires e.inp != [] && Whole(e.inp) && q in e.out
    ensures q in Local(e, Deliver).out
  {
  }

  lemma PeerHope(e: End, y: Node)
    requires e.inp != [] && Whole(e.inp) && Hope(End(y, e.inp, e.out))
    ensures Hope(End(y, Local(e, Deliver).inp, Local(e, Deliver).out))
  {
    if !Ready(y.ep) {
      var seqno := y.ep.queue[0].frame.seqno;
      if q :| q in e.out && Answers(q, seqno) {
        OutGrows(e, q);
      } else if Carries(e.inp[0], seqno) {
        CopyAnswered(e, seqno);
      } else {
        var q :| q in e.inp && Carries(q, seqno);
        RestOf(e.inp, q);
      }
    }
  }

  /** The queue has moved on, or its head still has hope. */
  ghost predicate StillHope(s: Node, e: End) { Hope(e) || |s.hist.results| < |e.node.hist.results| }

  lemma DeliveryHope(n: Net, side: Side)
    requires Inv(n) && Calm(n, 254) && Whole(n.ab) && Whole(n.ba) && Hope(ViewA(n)) && Hope(ViewB(n))
    requires if side.A? then n.ba != [] else n.ab != []
    ensures var m := Step(n, Event(side, Deliver));
            StillHope(n.a, ViewA(m)) && StillHope(n.b, ViewB(m))
  {
    match side
    case A =>
      OwnHope(ViewA(n));
      PeerHope(ViewA(n), n.b);
    case B =>
      OwnHope(ViewB(n));
      PeerHope(ViewB(n), n.a);
  }

  // ------------------------------------------------------ emptying the line

  /** The line loses, damages and invents nothing, and nobody asks for more. */
  predicate Lossless(xs: seq<Event>) { forall x :: x in xs ==> x.action.Deliver? || x.action.Tick? }

  lemma RunSnoc(n: Net, xs: seq<Event>, x: Event)
    ensures RunFrom(n, xs + [x]) == Step(RunFrom(n, xs), x)
  {
    assert (xs + [x])[..|xs|] == xs;
  }

  lemma KeptBoth(n: Net, n': Net, n'': Net)
    requires BothKept(n, n') && BothKept(n', n'')
    ensures BothKept(n, n'')
  {
    KeptTwice(n.a, n'.a, n''.a);
    KeptTwice(n.b, n'.b, n''.b);
  }

  /** What a schedule has reached, on the way from n. */
  ghost predicate Leads(n: Net, xs: seq<Event>, m: Net) {
    RunFrom(n, xs) == m && Lossless(xs) && Inv(m) && Calm(m, 254) && BothKept(n, m)
  }

  lemma LeadsOn(n: Net, xs: seq<Event>, m: Net, x: Event) returns (ys: seq<Event>)
    requires Leads(n, xs, m) && (x.action.Deliver? || x.action.Tick?)
    requires Inv(Step(m, x)) && Calm(Step(m, x), 254) && BothKept(n, Step(m, x))
    ensures Leads(n, ys, Step(m, x))
  {
    ys := xs + [x];
    RunSnoc(n, xs, x);
  }

  /** Deliveries alone empty both lines and use up no hope. */
  lemma EmptyLine(n: Net) returns (xs: seq<Event>, m: Net)
    requires Inv(n) && Calm(n, 254) && Whole(n.ab) && Whole(n.ba) && Hope(ViewA(n)) && Hope(ViewB(n))
    ensures Leads(n, xs, m) && m.ab == [] && m.ba == [] && Ready(m.a.ep) && Ready(m.b.ep)
  {
    xs, m := [], n;
    KeptSelf(n.a, n.a);
    KeptSelf(n.b, n.b);
    while m.ab != [] || m.ba != []
      invariant Leads(n, xs, m) && Whole(m.ab) && Whole(m.ba) && Hope(ViewA(m)) && Hope(ViewB(m))
      decreases Load(m.ab) + Load(m.ba)
    {
      var side := if m.ab != [] then B else A;
      OneDelivery(m, side);
      DeliveryHope(m, side);
      KeptBoth(n, m, Step(m, Event(side, Deliver)));
      xs := LeadsOn(n, xs, m, Event(side, Deliver));
      m := Step(m, Event(side, Deliver));
    }
  }

  // ------------------------------------------------------- one side's queue

  lemma BackOffTick(n: Net)
    requires Inv(n) && Calm(n, 254) && n.ab == [] && n.ba == [] && n.a.ep.busyTimer > 0
    ensures var m := Step(n, Event(A, Tick));
            && Inv(m) && Calm(m, 254) && BothKept(n, m) && m.ab == [] && m.ba == []
            && m.a.ep == n.a.ep.(busyTimer := n.a.ep.busyTimer - 1)
  {
    var x := Event(A, Tick);
    StepKeeps(n, x);
    DoNothing(End(n.a, n.ab, n.ba), E.OnTick(n.a.ep), 0);
    KeptSelf(n.a, Step(n, x).a);
    KeptSelf(n.b, n.b);
  }

  /** Tick, delivery, delivery. */
  function Exchange(n: Net): Net {
    Step(Step(Step(n, Event(A, Tick)), Event(B, Deliver)), Event(A, Deliver))
  }

  lemma OneExchange(n: Net)
    requires Inv(n) && Calm(n, 254) && n.ab == [] && n.ba == []
    requires n.a.ep.queue != [] && n.a.ep.busyTimer == 0 && Ready(n.a.ep)
    ensures var m := Exchange(n);
            && Inv(m) && Calm(m, 254) && BothKept(n, m) && m.ab == [] && m.ba == []
            && |m.a.ep.queue| < |n.a.ep.queue|
  {
    TickOnlySends(n);
    TwoDeliveries(Step(n, Event(A, Tick)));
    QueueShrinks(n.a, Exchange(n).a);
  }

  lemma TickOnlySends(n: Net)
    requires Inv(n) && Calm(n, 254) && n.ab == [] && n.ba == []
    requires n.a.ep.queue != [] && n.a.ep.busyTimer == 0 && Ready(n.a.ep)
    ensures var m := Step(n, Event(A, Tick));
            InFlight(m) && m.a.hist == n.a.hist && m.a.ep.shutdown == n.a.ep.shutdown && m.b == n.b
  {
    var head := n.a.ep.queue[0];
    TickSends(n);
    DoOne(End(n.a, n.ab, n.ba), E.OnTick(n.a.ep), 0, E.TxFrame(head.id, head.frame));
  }

  lemma TwoDeliveries(n: Net)
    requires InFlight(n)
    ensures var m := Step(Step(n, Event(B, Deliver)), Event(A, Deliver));
            && Inv(m) && Calm(m, 254) && BothKept(n, m) && m.ab == [] && m.ba == []
            && |m.a.hist.results| == |n.a.hist.results| + 1
  {
    ExchangeCompletes(n);
    OneDelivery(n, B);
    AckReturns(n);
    OneDelivery(Step(n, Event(B, Deliver)), A);
    KeptBoth(n, Step(n, Event(B, Deliver)), Step(Step(n, Event(B, Deliver)), Event(A, Deliver)));
  }

  lemma QueueShrinks(s: Node, s': Node)
    requires E.Inv(s.ep, s.hist) && E.Inv(s'.ep, s'.hist)
    requires s'.hist.sent == s.hist.sent && |s'.hist.results| == |s.hist.results| + 1
    ensures |s'.ep.queue| == |s.ep.queue| - 1
  {
  }

  lemma LeadsToExchange(n: Net, xs: seq<Event>, m: Net) returns (ys: seq<Event>)
    requires Leads(n, xs, m) && m.ab == [] && m.ba == []
    requires m.a.ep.queue != [] && m.a.ep.busyTimer == 0 && Ready(m.a.ep)
    ensures Leads(n, ys, Exchange(m))
  {
    OneExchange(m);
    KeptBoth(n, m, Exchange(m));
    var y1 := xs + [Event(A, Tick)];
    var y2 := y1 + [Event(B, Deliver)];
    ys := y2 + [Event(A, Deliver)];
    RunSnoc(n, xs, Event(A, Tick));
    RunSnoc(n, y1, Event(B, Deliver));
    RunSnoc(n, y2, Event(A, Deliver));
  }

  /** Nobody's request means nobody's queue grows. */
  lemma QueueStaysEmpty(n: Net, n': Net)
    requires Inv(n) && Inv(n') && Kept(n.b, n'.b)
    ensures n.b.ep.queue == [] ==> n'.b.ep.queue == []
  {
  }

  /** Frame after frame, a empties its queue. */
  lemma EmptyQueue(n: Net, ys: seq<Event>, n': Net) returns (xs: seq<Event>, m: Net)
    requires Leads(n, ys, n') && n'.ab == [] && n'.ba == [] && Ready(n'.a.ep) && Ready(n'.b.ep)
    ensures Leads(n, xs, m) && m.ab == [] && m.ba == [] && m.a.ep.queue == [] && Ready(m.b.ep)
    ensures n'.b.ep.queue == [] ==> m.b.ep.queue == []
  {
    xs, m := ys, n';
    while m.a.ep.queue != []
      invariant Leads(n, xs, m) && m.ab == [] && m.ba == [] && Ready(m.a.ep) && Ready(m.b.ep)
      invariant n'.b.ep.queue == [] ==> m.b.ep.queue == []
      decreases |m.a.ep.queue|, m.a.ep.busyTimer
    {
      if m.a.ep.busyTimer > 0 {
        BackOffTick(m);
        KeptBoth(n, m, Step(m, Event(A, Tick)));
        QueueStaysEmpty(m, Step(m, Event(A, Tick)));
        xs := LeadsOn(n, xs, m, Event(A, Tick));
        m := Step(m, Event(A, Tick));
      } else {
        OneExchange(m);
        QueueStaysEmpty(m, Exchange(m));
        xs := LeadsToExchange(n, xs, m);
        m := Exchange(m);
      }
    }
  }

  // ------------------------------------------------------------- both sides

  function Mirror(n: Net): Net { Net(n.b, n.a, n.ba, n.ab) }

  function Opposite(x: Event): Event { Event(if x.side.A? then B else A, x.action) }

  function Mirrored(xs: seq<Event>): seq<Event> {
    if xs == [] then [] else Mirrored(xs[..|xs| - 1]) + [Opposite(xs[|xs| - 1])]
  }

  lemma {:induction false} MirroredRun(n: Net, xs: seq<Event>)
    ensures RunFrom(Mirror(n), Mirrored(xs)) == Mirror(RunFrom(n, xs))
    ensures Lossless(xs) ==> Lossless(Mirrored(xs))
  {
    if xs != [] {
      var init, x := xs[..|xs| - 1], xs[|xs| - 1];
      MirroredRun(n, init);
      RunSnoc(Mirror(n), Mirrored(init), Opposite(x));
    }
  }

  lemma LeadsMirrored(n: Net, xs: seq<Event>, m: Net)
    requires Leads(Mirror(n), xs, m)
    ensures Leads(n, Mirrored(xs), Mirror(m))
  {
    MirroredRun(Mirror(n), xs);
  }

  /** Neither side has stopped. */
  predicate Running(n: Net) { !n.a.ep.shutdown && !n.b.ep.shutdown }

  /** Lines and queues empty, every promise resolved since n with SUCCESS, and
      neither side stopped on the way. */
  ghost predicate AllDelivered(n: Net, m: Net) {
    && m.ab == [] && m.ba == [] && m.a.ep.queue == [] && m.b.ep.queue == []
    && BothKept(n, m) && Running(m)
  }

  /** From any calm state of two running sides with whole frames on the lines, if
      neither head frame has lost all hope, some schedule of deliveries and ticks
      empties lines and queues; every frame of either side that was requested and
      not resolved ends in SUCCESS, and what is reported is true. */
  lemma EverythingDelivered(n: Net) returns (xs: seq<Event>)
    requires Inv(n) && Calm(n, 254) && Running(n) && Whole(n.ab) && Whole(n.ba)
    requires Hope(ViewA(n)) && Hope(ViewB(n))
    ensures Lossless(xs)
    ensures var m := RunFrom(n, xs);
            && AllDelivered(n, m) && Inv(m) && Safe(m)
            && |m.a.hist.results| == |n.a.hist.sent| && |m.b.hist.results| == |n.b.hist.sent|
  {
    var m;
    xs, m := EmptyLine(n);
    xs, m := EmptyQueue(n, xs, m);
    LeadsMirrored(Mirror(n), xs, m);
    xs, m := EmptyQueue(Mirror(n), Mirrored(xs), Mirror(m));
    LeadsMirrored(n, xs, m);
    xs := Mirrored(xs);
    InvIsSafe(Mirror(m));
  }

  // ------------------------------------------------- a head frame given up

  ghost predicate DataQueued(queue: seq<E.Pending>) { forall p :: p in queue ==> !HasAck(p.frame.flags) }

  ghost predicate NoneCarries(ch: seq<Packet>, seqno: Byte) { forall p :: p in ch ==> !Carries(p, seqno) }
  ghost predicate NoneAnswers(ch: seq<Packet>, seqno: Byte) { forall p :: p in ch ==> !Answers(p, seqno) }

  ghost predicate Hopeless(e: End) {
    && !Ready(e.node.ep)
    && NoneCarries(e.out, e.node.ep.queue[0].frame.seqno) && NoneAnswers(e.inp, e.node.ep.queue[0].frame.seqno)
  }

  lemma HopelessExactly(e: End)
    ensures Hopeless(e) <==> !Hope(e)
  {
  }

  /** a's head frame, the first unresolved one, has no hope. */
  ghost predicate Doomed(m: Net, results: seq<E.Resolution>) {
    && m.a.hist.results == results && Hopeless(ViewA(m))
    && Whole(m.ab) && Whole(m.ba) && DataQueued(m.b.ep.queue)
  }

  /** The frame after the given results was not a success. */
  ghost predicate GaveUp(m: Net, results: seq<E.Resolution>) {
    |results| < |m.a.hist.results| && !m.a.hist.results[|results|].result.SUCCESS?
  }

  /** Results are never taken back, nor is a stop. */
  ghost predicate Grows(s: Node, s': Node) {
    && |s.hist.results| <= |s'.hist.results| && s'.hist.results[..|s.hist.results|] == s.hist.results
    && (s.ep.shutdown ==> s'.ep.shutdown)
  }

  lemma {:induction false} RecordGrows(h: E.Hist, log: seq<E.Effect>)
    ensures var h' := E.RecordAll(h, log);
            |h.results| <= |h'.results| && h'.results[..|h.results|] == h.results
  {
    if log != [] {
      RecordGrows(h, log[..|log| - 1]);
    }
  }

  lemma {:induction false} HeedGrows(e: End, es: seq<RxEvent>)
    ensures Grows(e.node, Heed(e, es).node)
  {
    if es != [] {
      HeedGrows(e, es[..|es| - 1]);
      var e' := Heed(e, es[..|es| - 1]);
      RecordGrows(e'.node.hist, E.OnEvent(e'.node.ep, es[|es| - 1]).out);
    }
  }

  lemma LocalGrows(e: End, x: Action)
    requires x.Deliver? || x.Tick?
    ensures Grows(e.node, Local(e, x).node)
  {
    if x.Tick? {
      RecordGrows(e.node.hist, E.OnTick(e.node.ep).out);
    } else if e.inp != [] {
      var e' := Reading(e);
      match e.inp[0]
      case Intact(f, id) => RecordGrows(e'.node.hist, E.OnEvent(e'.node.ep, Accept(f)).out);
      case Damaged(es) => HeedGrows(e', es);
    }
  }

  lemma StepGrows(n: Net, x: Event)
    requires x.action.Deliver? || x.action.Tick?
    ensures Grows(n.a, Step(n, x).a) && Grows(n.b, Step(n, x).b)
  {
    LocalGrows(if x.side.A? then ViewA(n) else ViewB(n), x.action);
  }

  lemma {:induction false} RunGrows(n: Net, xs: seq<Event>)
    requires Lossless(xs) && Running(RunFrom(n, xs))
    ensures Running(n)
  {
    if xs != [] {
      assert xs[|xs| - 1] in xs;
      StepGrows(RunFrom(n, xs[..|xs| - 1]), xs[|xs| - 1]);
      RunGrows(n, xs[..|xs| - 1]);
    }
  }

  /** The other side answers no frame of which no copy reaches it. */
  lemma PeerIsNoHelp(e: End, seqno: Byte, x: Action)
    requires x.Deliver? || x.Tick?
    requires Whole(e.inp) && Whole(e.out) && DataQueued(e.node.ep.queue)
    requires NoneCarries(e.inp, seqno) && NoneAnswers(e.out, seqno)
    ensures var e' := Local(e, x);
            && Whole(e'.inp) && Whole(e'.out) && DataQueued(e'.node.ep.queue)
            && NoneCarries(e'.inp, seqno) && NoneAnswers(e'.out, seqno)
  {
    if x.Tick? {
      SendsData(e, E.OnTick(e.node.ep), 0, seqno);
    } else if e.inp != [] {
      PeerHears(e, seqno);
    }
  }

  lemma PeerHears(e: End, seqno: Byte)
    requires e.inp != [] && e.inp[0].Intact? && !Carries(e.inp[0], seqno)
    requires Whole(e.out) && DataQueued(e.node.ep.queue) && NoneAnswers(e.out, seqno)
    ensures var e' := Local(e, Deliver);
            Whole(e'.out) && DataQueued(e'.node.ep.queue) && NoneAnswers(e'.out, seqno) && e'.inp == e.inp[1..]
  {
    var e1, f, id := Reading(e), e.inp[0].frame, e.inp[0].id;
    if HasAck(f.flags) {
      SendsData(e1, E.OnAckFrame(e1.node.ep, f), id, seqno);
    } else {
      HearData(e1, f, id);
    }
  }

  lemma SendsData(e: End, t: E.Turn, id: int, seqno: Byte)
    requires NoneAnswers(e.out, seqno) && Whole(e.out)
    requires t.out == [] || (|t.out| == 1 && !t.out[0].Dispatch?)
    requires t.out != [] ==> forall p :: p in PacketOf(t.out[0], id) ==> IsData(p)
    ensures NoneAnswers(Do(e, t, id).out, seqno) && Whole(Do(e, t, id).out) && Do(e, t, id).inp == e.inp
  {
    if t.out == [] {
      DoNothing(e, t, id);
    } else {
      DoOne(e, t, id, t.out[0]);
    }
  }

  lemma DoomedHears(e: End)
    requires Hopeless(e) && Whole(e.inp) && Whole(e.out) && e.inp != []
    ensures var e' := Local(e, Deliver);
            && e'.node.hist.results == e.node.hist.results && Hopeless(e')
            && Whole(e'.out) && Whole(e'.inp)
  {
    var e1, f, id := Reading(e), e.inp[0].frame, e.inp[0].id;
    assert !Answers(e.inp[0], e.node.ep.queue[0].frame.seqno);
    if HasAck(f.flags) {
      HearInVain(e1, f, id);
    } else {
      HearData(e1, f, id);
    }
  }

  lemma DoomedTicks(e: End)
    requires !Ready(e.node.ep)
    ensures var e' := Local(e, Tick);
            && e'.inp == e.inp
            && (|| e'.node.hist.results == e.node.hist.results + [E.Resolution(e.node.ep.queue[0].id, TIMEOUT)]
                || (&& e'.node.hist.results == e.node.hist.results && e'.node.ep.queue == e.node.ep.queue
                    && e'.out == e.out))
  {
    var t := E.OnTick(e.node.ep);
    if e.node.ep.busyTimer > 0 {
      DoNothing(e, t, 0);
    } else {
      DoOne(e, t, 0, E.Resolve(e.node.ep.queue[0].id, TIMEOUT));
    }
  }

  lemma DoomedStep(m: Net, results: seq<E.Resolution>, x: Event)
    requires Doomed(m, results) && (x.action.Deliver? || x.action.Tick?)
    ensures Doomed(Step(m, x), results) || GaveUp(Step(m, x), results)
  {
    match x.side
    case B => PeerIsNoHelp(ViewB(m), m.a.ep.queue[0].frame.seqno, x.action);
    case A =>
      if x.action.Tick? {
        DoomedTicks(ViewA(m));
      } else if m.ba != [] {
        DoomedHears(ViewA(m));
      }
  }

  lemma {:induction false} DoomedRun(n: Net, xs: seq<Event>)
    requires Doomed(n, n.a.hist.results) && Lossless(xs)
    ensures Doomed(RunFrom(n, xs), n.a.hist.results) || GaveUp(RunFrom(n, xs), n.a.hist.results)
  {
    if xs != [] {
      var init, x := xs[..|xs| - 1], xs[|xs| - 1];
      assert x in xs;
      DoomedRun(n, init);
      var m := RunFrom(n, init);
      if Doomed(m, n.a.hist.results) {
        DoomedStep(m, n.a.hist.results, x);
      } else {
        StepGrows(m, x);
        assert m.a.hist.results[|n.a.hist.results|] == Step(m, x).a.hist.results[|n.a.hist.results|];
      }
    }
  }

  ghost predicate CanDeliverAll(n: Net) { exists xs :: Lossless(xs) && AllDelivered(n, RunFrom(n, xs)) }

  lemma RequestsAreData(e: E.Endpoint, h: E.Hist)
    requires E.Inv(e, h)
    ensures DataQueued(e.queue)
  {
    forall i | 0 <= i < |e.queue|
      ensures !HasAck(e.queue[i].frame.flags)
    {
      assert e.queue[i].frame == E.FrameOf(h.sent, |h.results| + i);
    }
  }

  lemma NeverDelivered(n: Net, xs: seq<Event>)
    requires Inv(n) && Whole(n.ab) && Whole(n.ba) && Lossless(xs) && !Hope(ViewA(n))
    ensures !AllDelivered(n, RunFrom(n, xs))
  {
    RequestsAreData(n.b.ep, n.b.hist);
    HopelessExactly(ViewA(n));
    DoomedRun(n, xs);
  }

  lemma NeedsHope(n: Net)
    requires Inv(n) && Whole(n.ab) && Whole(n.ba) && CanDeliverAll(n)
    ensures Running(n) && Hope(ViewA(n))
  {
    var xs :| Lossless(xs) && AllDelivered(n, RunFrom(n, xs));
    RunGrows(n, xs);
    if !Hope(ViewA(n)) {
      NeverDelivered(n, xs);
    }
  }

  lemma CanDeliverMirrored(n: Net)
    requires CanDeliverAll(n)
    ensures CanDeliverAll(Mirror(n))
  {
    var xs :| Lossless(xs) && AllDelivered(n, RunFrom(n, xs));
    MirroredRun(n, xs);
    assert AllDelivered(Mirror(n), RunFrom(Mirror(n), Mirrored(xs)));
  }

  /** With whole frames on the lines, everything queued can still be delivered if
      and only if both sides run and each head frame has a retry left, or a copy
      of it or an answer is under way. */
  lemma DeliverableExactly(n: Net)
    requires Inv(n) && Calm(n, 254) && Whole(n.ab) && Whole(n.ba)
    ensures CanDeliverAll(n) <==> Running(n) && Hope(ViewA(n)) && Hope(ViewB(n))
  {
    if Running(n) && Hope(ViewA(n)) && Hope(ViewB(n)) {
      var xs := EverythingDelivered(n);
    }
    if CanDeliverAll(n) {
      NeedsHope(n);
      CanDeliverMirrored(n);
      NeedsHope(Mirror(n));
    }
  }
}
