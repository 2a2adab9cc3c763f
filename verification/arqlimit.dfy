/** Both hypotheses of ReliableDelivery are exact. With one timeout more than 254
    in a row the 8-bit sequence number comes round again; and one frame hidden in
    damaged bytes is dispatched though nobody sent it (sircon.cpp). */
module ArqLimit {
  import opened Scp
  import opened Codec
  import opened Framer
  import opened Arq
  import Stream
  import E = Endpoint

  /** Every run within the bound on consecutive timeouts is safe; hidden says
      whether runs count in which damaged bytes hide a frame. */
  ghost predicate SafeUpTo(bound: nat, hidden: bool) {
    forall xs :: CalmRun(xs, bound) && (hidden || HonestRun(xs)) ==> Safe(Run(xs))
  }

  lemma RunSnoc(xs: seq<Event>, x: Event, bound: nat)
    requires CalmRun(xs, bound) && Calm(Step(Run(xs), x), bound)
    ensures Run(xs + [x]) == Step(Run(xs), x) && CalmRun(xs + [x], bound)
    ensures HonestRun(xs) && Honest(x) ==> HonestRun(xs + [x])
  {
    assert (xs + [x])[..|xs|] == xs;
  }

  /** The same for known states. */
  lemma Go(xs: seq<Event>, x: Event, n: Net, n': Net) returns (ys: seq<Event>)
    requires Run(xs) == n && CalmRun(xs, 255) && HonestRun(xs)
    requires Step(n, x) == n' && Calm(n', 255) && Honest(x)
    ensures Run(ys) == n' && CalmRun(ys, 255) && HonestRun(ys)
  {
    RunSnoc(xs, x, 255);
    ys := xs + [x];
  }

  lemma {:induction false} CalmWeaken(xs: seq<Event>, small: nat, large: nat)
    requires CalmRun(xs, small) && small <= large
    ensures CalmRun(xs, large)
  {
    if xs != [] {
      CalmWeaken(xs[..|xs| - 1], small, large);
    }
  }

  // ------------------------------------------- a run that goes wrong at 255

  function Blank(n: nat): seq<Payload> { seq(n, _ => []) }

  function F(id: nat): Frame { Frame(id % 0x100, 0, []) }

  /** Frame 0 succeeded, the m frames after it timed out. */
  function Results(m: nat): seq<E.Resolution> {
    seq(m + 1, i requires 0 <= i <= m => E.Resolution(i, if i == 0 then SUCCESS else TIMEOUT))
  }

  const PEER := Node(E.Endpoint(0, 0, [], 0, 1, 0, true, 0, false), E.Hist([], [], [[]]), [0])

  function Link(sent: nat, queue: seq<E.Pending>, failures: nat): E.Endpoint {
    E.Endpoint(sent % 0x100, sent, queue, -1, 0, 0, failures == 0, failures, false)
  }

  /** m frames lost in a row, the sender idle, both channels empty. */
  function Stuck(m: nat): Net {
    Net(Node(Link(m + 1, [], 0), E.Hist(Blank(m + 1), Results(m), []), []), PEER, [], [])
  }

  function Head(m: nat, r: nat): E.Pending { E.Pending(m + 1, r, F(m + 1), Encode(F(m + 1))) }

  /** The next frame queued and sent r times, every copy lost or in ab. */
  function Trying(m: nat, r: nat, ab: seq<Packet>): Net {
    Net(Node(Link(m + 2, [Head(m, r)], 0), E.Hist(Blank(m + 2), Results(m), []), []), PEER, ab, [])
  }

  /** That frame given up. */
  function GivenUp(m: nat, ba: seq<Packet>): Net {
    Net(Node(Link(m + 2, [], 1), E.Hist(Blank(m + 2), Results(m + 1), []), []), PEER, [], ba)
  }

  lemma {:induction false} LastOkResults(m: nat)
    ensures LastOk(Results(m)) == 0
  {
    if m > 0 {
      assert Results(m)[..m] == Results(m - 1);
      LastOkResults(m - 1);
    } else {
      assert Results(0) == [E.Resolution(0, SUCCESS)];
    }
  }

  lemma AskNext(m: nat)
    ensures Step(Stuck(m), Event(A, Request([]))) == Trying(m, 0, [])
  {
    var s := Stuck(m).a;
    var x := E.Queued(m + 1, []);
    E.RecordLast(s.hist, x);
    EmitOne(x, 0);
    assert Blank(m + 1) + [[]] == Blank(m + 2);
    assert [] + [Head(m, 0)] == [Head(m, 0)];
  }

  lemma SendAgain(m: nat, r: nat)
    requires r < 3
    ensures Step(Trying(m, r, []), Event(A, Tick)) == Trying(m, r + 1, [Intact(F(m + 1), m + 1)])
  {
    var s := Trying(m, r, []).a;
    var x := E.TxFrame(m + 1, F(m + 1));
    E.RecordLast(s.hist, x);
    EmitOne(x, 0);
  }

  lemma LoseIt(n: Net, p: Packet)
    requires n.ab == [p]
    ensures Step(n, Event(A, Tamper(Lose(0)))) == n.(ab := [])
  {
  }

  lemma GiveUp(m: nat)
    ensures Step(Trying(m, 3, []), Event(A, Tick)) == GivenUp(m, [])
  {
    var s := Trying(m, 3, []).a;
    var x := E.Resolve(m + 1, TIMEOUT);
    E.RecordLast(s.hist, x);
    EmitOne(x, 0);
    assert Results(m) + [E.Resolution(m + 1, TIMEOUT)] == Results(m + 1);
  }

  const NOISE: seq<RxEvent> := [BadChecksum(0)]

  /** A burst of noise from the radio shows the link to be alive. */
  lemma Crackle(m: nat)
    ensures Step(GivenUp(m, []), Event(B, Tamper(Noise(0, NOISE)))) == GivenUp(m, [Damaged(NOISE)])
    ensures Step(GivenUp(m, [Damaged(NOISE)]), Event(A, Deliver)) == Stuck(m + 1).(ab := [Intact(E.NakFor(0), -1)])
  {
    HeedReport(End(Awake(GivenUp(m, []).a), [], []), 0);
  }

  lemma CalmStates(m: nat, ch: seq<Packet>, r: nat)
    requires m <= 255
    ensures Calm(Stuck(m).(ab := ch), 255) && Calm(Trying(m, r, ch), 255)
    ensures m < 255 ==> Calm(GivenUp(m, ch), 255)
  {
    LastOkResults(m);
    LastOkResults(m + 1);
  }

  /** Send the queued frame once more, into a channel that loses it. */
  lemma TryOnce(m: nat, r: nat, xs: seq<Event>) returns (ys: seq<Event>)
    requires m <= 255 && r < 3
    requires Run(xs) == Trying(m, r, []) && CalmRun(xs, 255) && HonestRun(xs)
    ensures Run(ys) == Trying(m, r + 1, []) && CalmRun(ys, 255) && HonestRun(ys)
  {
    var p := Intact(F(m + 1), m + 1);
    SendAgain(m, r);
    CalmStates(m, [p], r + 1);
    ys := Go(xs, Event(A, Tick), Trying(m, r, []), Trying(m, r + 1, [p]));
    LoseIt(Trying(m, r + 1, [p]), p);
    CalmStates(m, [], r + 1);
    ys := Go(ys, Event(A, Tamper(Lose(0))), Trying(m, r + 1, [p]), Trying(m, r + 1, []));
  }

  lemma Ask(m: nat, xs: seq<Event>) returns (ys: seq<Event>)
    requires m <= 255
    requires Run(xs) == Stuck(m) && CalmRun(xs, 255) && HonestRun(xs)
    ensures Run(ys) == Trying(m, 0, []) && CalmRun(ys, 255) && HonestRun(ys)
  {
    AskNext(m);
    CalmStates(m, [], 0);
    ys := Go(xs, Event(A, Request([])), Stuck(m), Trying(m, 0, []));
  }

  lemma Abandon(m: nat, xs: seq<Event>) returns (ys: seq<Event>)
    requires m < 255
    requires Run(xs) == Trying(m, 3, []) && CalmRun(xs, 255) && HonestRun(xs)
    ensures Run(ys) == Stuck(m + 1) && CalmRun(ys, 255) && HonestRun(ys)
  {
    GiveUp(m);
    CalmStates(m, [], 0);
    ys := Go(xs, Event(A, Tick), Trying(m, 3, []), GivenUp(m, []));
    Crackle(m);
    CalmStates(m, [Damaged(NOISE)], 0);
    ys := Go(ys, Event(B, Tamper(Noise(0, NOISE))), GivenUp(m, []), GivenUp(m, [Damaged(NOISE)]));
    var p := Intact(E.NakFor(0), -1);
    CalmStates(m + 1, [p], 0);
    ys := Go(ys, Event(A, Deliver), GivenUp(m, [Damaged(NOISE)]), Stuck(m + 1).(ab := [p]));
    LoseIt(Stuck(m + 1).(ab := [p]), p);
    CalmStates(m + 1, [], 0);
    ys := Go(ys, Event(A, Tamper(Lose(0))), Stuck(m + 1).(ab := [p]), Stuck(m + 1));
  }

  lemma LoseOne(m: nat, xs: seq<Event>) returns (ys: seq<Event>)
    requires m < 255
    requires Run(xs) == Stuck(m) && CalmRun(xs, 255) && HonestRun(xs)
    ensures Run(ys) == Stuck(m + 1) && CalmRun(ys, 255) && HonestRun(ys)
  {
    ys := Ask(m, xs);
    ys := TryOnce(m, 0, ys);
    ys := TryOnce(m, 1, ys);
    ys := TryOnce(m, 2, ys);
    ys := Abandon(m, ys);
  }

  // ----------------------------------------------------- how it gets started

  /** The first frame a sends. */
  function First(data: Payload): Frame { Frame(0, 0, data) }

  function Asked(data: Payload, retries: nat): E.Pending { E.Pending(0, retries, First(data), Encode(First(data))) }

  /** Its request made, and nothing acknowledged yet. */
  function Opening(data: Payload, retries: nat, b: Node, ab: seq<Packet>, ba: seq<Packet>): Net {
    Net(Node(E.INIT.(nextSeq := 1, sent := 1, queue := [Asked(data, retries)]), E.Hist([data], [], []), []), b, ab, ba)
  }

  lemma OpenRequest(data: Payload)
    ensures Step(INIT, Event(A, Request(data))) == Opening(data, 0, START, [], [])
  {
    DoOne(End(START, [], []), E.OnRequest(E.INIT, data), 0, E.Queued(0, data));
    assert [] + [Asked(data, 0)] == [Asked(data, 0)];
    assert [] + [data] == [data];
  }

  lemma OpenSend(data: Payload)
    ensures Step(Opening(data, 0, START, [], []), Event(A, Tick)) == Opening(data, 1, START, [Intact(First(data), 0)], [])
  {
    var s := Opening(data, 0, START, [], []).a;
    DoOne(End(s, [], []), E.OnTick(s.ep), 0, E.TxFrame(0, First(data)));
  }

  lemma OpenReceive()
    ensures Step(Opening([], 1, START, [Intact(F(0), 0)], []), Event(B, Deliver))
         == Opening([], 1, PEER, [], [Intact(E.AckFor(0), 0)])
  {
    var r := Awake(START);
    var ack := E.TxAck(E.AckFor(0));
    assert E.OnDataFrame(r.ep, F(0)).out == [ack, E.Dispatch([])];
    DoAckDispatch(End(r, [], []), E.OnDataFrame(r.ep, F(0)), 0, E.AckFor(0), []);
  }

  lemma StuckAtFirst()
    ensures Stuck(0) == Net(Node(Link(1, [], 0), E.Hist([[]], [E.Resolution(0, SUCCESS)], []), []), PEER, [], [])
  {
    assert [[]] == Blank(1);
    assert [E.Resolution(0, SUCCESS)] == Results(0);
  }

  lemma ConfirmFirst(s: Node, queue: seq<E.Pending>)
    requires s.ep == Link(1, queue, 0) && queue == [Asked([], 1)]
    ensures Do(End(s, [], []), E.OnAckFrame(s.ep, E.AckFor(0)), 0)
         == End(Node(Link(1, [], 0), s.hist.(results := s.hist.results + [E.Resolution(0, SUCCESS)]), s.gotIds), [], [])
  {
    E.PositiveAck(s.ep);
    DoOne(End(s, [], []), E.OnAckFrame(s.ep, E.AckFor(0)), 0, E.Resolve(0, SUCCESS));
  }

  lemma OpenConfirm()
    ensures Step(Opening([], 1, PEER, [], [Intact(E.AckFor(0), 0)]), Event(A, Deliver)) == Stuck(0)
  {
    var n := Opening([], 1, PEER, [], [Intact(E.AckFor(0), 0)]);
    DeliverA(n, Intact(E.AckFor(0), 0));
    ConfirmFirst(Awake(n.a), n.a.ep.queue);
    StuckAtFirst();
  }

  lemma Open() returns (xs: seq<Event>)
    ensures Run(xs) == Stuck(0) && CalmRun(xs, 255) && HonestRun(xs)
  {
    xs := [];
    OpenRequest([]);
    RunSnoc(xs, Event(A, Request([])), 255);
    xs := xs + [Event(A, Request([]))];
    OpenSend([]);
    RunSnoc(xs, Event(A, Tick), 255);
    xs := xs + [Event(A, Tick)];
    OpenReceive();
    RunSnoc(xs, Event(B, Deliver), 255);
    xs := xs + [Event(B, Deliver)];
    OpenConfirm();
    CalmStates(0, [], 0);
    RunSnoc(xs, Event(A, Deliver), 255);
    xs := xs + [Event(A, Deliver)];
  }

  lemma {:induction false} LoseMany(m: nat) returns (xs: seq<Event>)
    requires m <= 255
    ensures Run(xs) == Stuck(m) && CalmRun(xs, 255) && HonestRun(xs)
    decreases m
  {
    if m == 0 {
      xs := Open();
    } else {
      xs := LoseMany(m - 1);
      xs := LoseOne(m - 1, xs);
    }
  }

  // -------------------------------------------------------- the last 3 steps

  /** Frame m + 1 reported delivered. */
  function Misreported(m: nat): Net {
    Net(Node(Link(m + 2, [], 0), E.Hist(Blank(m + 2), Results(m) + [E.Resolution(m + 1, SUCCESS)], []), []), PEER, [], [])
  }

  function Answered(m: nat): Net {
    Trying(m, 1, []).(ba := [Intact(E.AckFor(0), m + 1)])
  }

  /** Sequence numbers are back where they were at the last delivery. */
  lemma TakenForDuplicate(m: nat)
    requires (m + 1) % 0x100 == 0
    ensures Step(Trying(m, 1, [Intact(F(m + 1), m + 1)]), Event(B, Deliver)) == Answered(m)
  {
    var ack := E.TxAck(E.AckFor(0));
    assert Awake(PEER) == PEER && F(m + 1) == Frame(0, 0, []);
    DeliverB(Trying(m, 1, [Intact(F(m + 1), m + 1)]), Intact(F(m + 1), m + 1));
    assert E.OnDataFrame(PEER.ep, F(m + 1)) == E.Turn(PEER.ep, [ack]);
    DoOne(End(PEER, [], []), E.OnDataFrame(PEER.ep, F(m + 1)), m + 1, ack);
  }

  lemma ReportedSuccess(m: nat)
    requires (m + 1) % 0x100 == 0
    ensures Step(Answered(m), Event(A, Deliver)) == Misreported(m)
  {
    var s := Trying(m, 1, []).a;
    assert Awake(s) == s;
    DeliverA(Answered(m), Intact(E.AckFor(0), m + 1));
    E.PositiveAck(s.ep);
    DoOne(End(s, [], []), E.OnAckFrame(s.ep, E.AckFor(0)), m + 1, E.Resolve(m + 1, SUCCESS));
  }

  lemma NotDelivered(m: nat)
    ensures !Safe(Misreported(m)) && Calm(Misreported(m), 255)
  {
    var n := Misreported(m);
    var rs := n.a.hist.results;
    assert rs[0] == E.Resolution(0, SUCCESS) && rs[m + 1] == E.Resolution(m + 1, SUCCESS);
    forall ids: seq<int> | |ids| == 1
      ensures !Confirmed(ids, rs)
    {
    }
  }

  lemma LastRound(m: nat, xs: seq<Event>) returns (ys: seq<Event>)
    requires m <= 255 && (m + 1) % 0x100 == 0
    requires Run(xs) == Trying(m, 0, []) && CalmRun(xs, 255) && HonestRun(xs)
    ensures Run(ys) == Misreported(m) && CalmRun(ys, 255) && HonestRun(ys)
  {
    var p := Intact(F(m + 1), m + 1);
    SendAgain(m, 0);
    CalmStates(m, [p], 1);
    ys := Go(xs, Event(A, Tick), Trying(m, 0, []), Trying(m, 1, [p]));
    TakenForDuplicate(m);
    CalmStates(m, [], 1);
    ys := Go(ys, Event(B, Deliver), Trying(m, 1, [p]), Answered(m));
    ReportedSuccess(m);
    NotDelivered(m);
    ys := Go(ys, Event(A, Deliver), Answered(m), Misreported(m));
  }

  /** A run with 255 timeouts in a row and never more, and no frame hidden in
      damage, after which a frame is reported delivered that the other side took
      for a duplicate and dropped. */
  lemma WrapAround() returns (xs: seq<Event>)
    ensures CalmRun(xs, 255) && HonestRun(xs) && !Safe(Run(xs))
  {
    var m: nat :| m == 255;
    xs := LoseMany(m);
    xs := Ask(m, xs);
    xs := LastRound(m, xs);
    NotDelivered(m);
  }

  // ---------------------------------------------- a frame hidden in a payload

  const HIDDEN := Frame(1, 0, [])

  /** b once it has heeded a damaged carrier of the hidden frame. */
  lemma HeedHidden()
    ensures var e := Heed(End(Awake(START), [], []), Stream.HiddenReports(0, HIDDEN));
            e.node.hist.got == [[]] && e.node.hist.results == []
  {
    var e := End(Awake(START), [], []);
    var es := Stream.DamageReports(0, 6);
    HeedDamage(e, 0, 6);
    var e' := Heed(e, es);
    assert es + [Accept(HIDDEN)] == Stream.HiddenReports(0, HIDDEN);
    assert (es + [Accept(HIDDEN)])[..|es|] == es;
    var t := E.OnEvent(e'.node.ep, Accept(HIDDEN));
    assert t.out == [E.TxAck(E.AckFor(1)), E.Dispatch([])];
    DoAckDispatch(e', t, -1, E.AckFor(1), []);
  }

  /** a's only frame lost, and the given reports in its place. */
  function DamageRun(data: Payload, reports: seq<RxEvent>): seq<Event> {
    [Event(A, Request(data)), Event(A, Tick), Event(A, Tamper(Lose(0))),
     Event(A, Tamper(Noise(0, reports))), Event(B, Deliver)]
  }

  lemma DamageRunParts(data: Payload, reports: seq<RxEvent>)
    ensures DamageRun(data, reports)
         == [Event(A, Request(data)), Event(A, Tick)]
            + [Event(A, Tamper(Lose(0))), Event(A, Tamper(Noise(0, reports)))] + [Event(B, Deliver)]
  {
  }

  lemma SendFirst(data: Payload) returns (xs: seq<Event>)
    ensures xs == [Event(A, Request(data)), Event(A, Tick)]
    ensures Run(xs) == Opening(data, 1, START, [Intact(First(data), 0)], []) && CalmRun(xs, 0)
  {
    xs := [];
    OpenRequest(data);
    xs := Quietly(xs, Event(A, Request(data)), INIT, Opening(data, 0, START, [], []));
    OpenSend(data);
    xs := Quietly(xs, Event(A, Tick), Opening(data, 0, START, [], []),
                  Opening(data, 1, START, [Intact(First(data), 0)], []));
  }

  lemma DamageFirst(n: Net, p: Packet, reports: seq<RxEvent>, xs: seq<Event>) returns (ys: seq<Event>)
    requires Run(xs) == n && CalmRun(xs, 0) && n.ab == [p]
    requires n.a.hist.results == [] && n.b.hist.results == []
    ensures ys == xs + [Event(A, Tamper(Lose(0))), Event(A, Tamper(Noise(0, reports)))]
    ensures Run(ys) == n.(ab := [Damaged(reports)]) && CalmRun(ys, 0)
  {
    LoseIt(n, p);
    ys := Quietly(xs, Event(A, Tamper(Lose(0))), n, n.(ab := []));
    ys := Quietly(ys, Event(A, Tamper(Noise(0, reports))), n.(ab := []), n.(ab := [Damaged(reports)]));
  }

  lemma HiddenRun(data: Payload) returns (xs: seq<Event>)
    requires data != []
    ensures xs == DamageRun(data, Stream.HiddenReports(0, HIDDEN))
    ensures CalmRun(xs, 0) && !Safe(Run(xs))
  {
    var reports := Stream.HiddenReports(0, HIDDEN);
    xs := SendFirst(data);
    var n := Opening(data, 1, START, [Intact(First(data), 0)], []);
    xs := DamageFirst(n, Intact(First(data), 0), reports, xs);
    HeedHidden();
    HearHidden(n.(ab := [Damaged(reports)]));
    xs := Quietly(xs, Event(B, Deliver), n.(ab := [Damaged(reports)]), Step(n.(ab := [Damaged(reports)]), Event(B, Deliver)));
    NeverAsked(Run(xs), data);
    DamageRunParts(data, reports);
  }

  lemma HearHidden(n: Net)
    requires n.ab == [Damaged(Stream.HiddenReports(0, HIDDEN))] && n.ba == [] && n.b == START
    ensures var m := Step(n, Event(B, Deliver));
            m.a == n.a && m.b == Heed(End(Awake(START), [], []), Stream.HiddenReports(0, HIDDEN)).node
  {
    assert n.ab[1..] == [];
  }

  lemma NeverAsked(n: Net, data: Payload)
    requires n.a.hist.sent == [data] && data != [] && n.b.hist.got == [[]]
    ensures !Safe(n)
  {
    forall ids
      ensures !Names(ids, n.a.hist.sent, n.b.hist.got)
    {
      assert |ids| == 1 && 0 <= ids[0] < 1 ==> n.b.hist.got[0] != n.a.hist.sent[ids[0]];
    }
  }

  /** A run without a single timeout: a's only frame is hit in one byte, which
      the checksum notices, and b dispatches a payload it finds in the frame's
      data, which a never asked to send. */
  lemma HiddenDispatched(b: Byte, tail: seq<Byte>) returns (xs: seq<Event>)
    requires b != 3 && b != PKT_SENTINEL
    ensures var es := Events(Encode(Stream.Carrier(0, HIDDEN))[1 := b] + tail);
            |es| >= 7 && xs == DamageRun(Encode(HIDDEN), es[..7])
    ensures CalmRun(xs, 0) && !Safe(Run(xs))
  {
    EncodeWellFormed(HIDDEN);
    Stream.HiddenFrame(0, HIDDEN, b, tail);
    Stream.AllSkips(5);
    xs := HiddenRun(Encode(HIDDEN));
  }

  /** One more step of a run in which neither side has had an answer or given up. */
  lemma Quietly(xs: seq<Event>, x: Event, n: Net, n': Net) returns (ys: seq<Event>)
    requires Run(xs) == n && CalmRun(xs, 0) && Step(n, x) == n'
    requires n'.a.hist.results == [] && n'.b.hist.results == []
    ensures ys == xs + [x] && Run(ys) == n' && CalmRun(ys, 0)
  {
    RunSnoc(xs, x, 0);
    ys := xs + [x];
  }

  /** Runs are safe up to a given number of consecutive timeouts exactly if that
      number is at most 254 and no frame is hidden in damaged bytes. */
  lemma ExactTolerance(bound: nat, hidden: bool)
    ensures SafeUpTo(bound, hidden) <==> bound <= 254 && !hidden
  {
    if hidden {
      var xs := HiddenDispatched(4, []);
      CalmWeaken(xs, 0, bound);
    } else if bound <= 254 {
      forall xs | CalmRun(xs, bound) && HonestRun(xs)
        ensures Safe(Run(xs))
      {
        CalmWeaken(xs, bound, 254);
        ReliableDelivery(xs);
      }
    } else {
      var xs := WrapAround();
      CalmWeaken(xs, 255, bound);
    }
  }
}
