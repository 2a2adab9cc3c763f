/** Two CSirCon objects joined by two lines of bytes, on which anything may happen
    to any byte; and how every such run is one of two endpoints over packets, so
    that what is proved there holds of the bytes (sircon.cpp). */
module Wired {
  import opened Scp
  import opened Codec
  import opened Framer
  import opened SirCon
  import opened Arq
  import E = Endpoint
  import Stream

  /** One object: what it has done so far, and every byte it has read. */
  datatype Station = Station(now: E.Turn, read: seq<Byte>)

  function Rx(s: Station): RxState { FeedState(RX_INIT, s.read) }
  function Heard(s: Station): seq<Frame> { Accepted(FeedEvents(RX_INIT, s.read)) }
  ghost function Spoken(s: Station): seq<Frame> { Transmitted(s.now.out) }

  /** Both objects, and the bytes on their way from one to the other. */
  datatype Wires = Wires(a: Station, b: Station, ab: seq<Byte>, ba: seq<Byte>)

  const NEW := Station(E.Turn(E.INIT, []), [])
  const SILENT := Wires(NEW, NEW, [], [])

  /** Damage puts any bytes in the place of any others on the outgoing line. */
  datatype Act =
    | Ask(data: Payload)
    | Clock
    | Idle
    | Read(count: nat)
    | Damage(from: nat, to: nat, bytes: seq<Byte>)

  datatype Move = Move(side: Side, act: Act)

  /** One side's view: its object, its outgoing and its incoming line. */
  datatype Desk = Desk(me: Station, out: seq<Byte>, inp: seq<Byte>)

  /** The endpoint takes some inputs, and the port what it transmits. */
  ghost function Feed(d: Desk, inputs: seq<E.Input>): Desk {
    var t := E.RunFrom(E.Turn(d.me.now.ep, []), inputs);
    Desk(d.me.(now := E.Turn(t.ep, d.me.now.out + t.out)), d.out + WireAll(Transmitted(t.out)), d.inp)
  }

  ghost function Intake(d: Desk, count: nat): Desk
    requires count <= |d.inp|
  {
    var e := Feed(d, PassInputs(Rx(d.me), d.inp[..count], false));
    Desk(e.me.(read := d.me.read + d.inp[..count]), e.out, d.inp[count..])
  }

  function Splice(ch: seq<Byte>, from: nat, to: nat, bytes: seq<Byte>): seq<Byte> {
    if from <= to <= |ch| then ch[..from] + bytes + ch[to..] else ch
  }

  ghost function Perform(d: Desk, act: Act): Desk {
    match act
    case Ask(data) => Feed(d, [E.Request(data)])
    case Clock => Feed(d, [E.Tick])
    case Idle => Feed(d, [E.IdleProbe])
    case Read(count) => if count <= |d.inp| then Intake(d, count) else d
    case Damage(from, to, bytes) => d.(out := Splice(d.out, from, to, bytes))
  }

  ghost function Next(l: Wires, m: Move): Wires {
    match m.side
    case A => var d := Perform(Desk(l.a, l.ab, l.ba), m.act); Wires(d.me, l.b, d.out, d.inp)
    case B => var d := Perform(Desk(l.b, l.ba, l.ab), m.act); Wires(l.a, d.me, d.inp, d.out)
  }

  ghost function After(l: Wires, ms: seq<Move>): Wires {
    if ms == [] then l else Next(After(l, ms[..|ms| - 1]), ms[|ms| - 1])
  }

  /** What damage can do: whatever is on a line, any bytes at all can come to stand
      there in one move, or in the place of any stretch of it; the stations and the
      other line notice nothing. */
  lemma AnyDamage(l: Wires, from: nat, to: nat, bytes: seq<Byte>)
    requires from <= to <= |l.ab|
    ensures Next(l, Move(A, Damage(from, to, bytes))) == l.(ab := l.ab[..from] + bytes + l.ab[to..])
    ensures Next(l, Move(A, Damage(0, |l.ab|, bytes))) == l.(ab := bytes)
    ensures from <= to <= |l.ba| ==>
              Next(l, Move(B, Damage(from, to, bytes))) == l.(ba := l.ba[..from] + bytes + l.ba[to..])
    ensures Next(l, Move(B, Damage(0, |l.ba|, bytes))) == l.(ba := bytes)
  {
    assert [] + bytes + l.ab[|l.ab|..] == bytes;
    assert [] + bytes + l.ba[|l.ba|..] == bytes;
  }

  /** The same endpoint steps, whatever was logged before them: this is the state
      and the log that the object's own methods promise. */
  lemma {:induction false} FeedIsRun(ep: E.Endpoint, log: seq<E.Effect>, inputs: seq<E.Input>)
    ensures var t := E.RunFrom(E.Turn(ep, []), inputs);
            E.RunFrom(E.Turn(ep, log), inputs) == E.Turn(t.ep, log + t.out)
  {
    if inputs == [] {
      assert log + [] == log;
    } else {
      var init := inputs[..|inputs| - 1];
      FeedIsRun(ep, log, init);
      var t := E.RunFrom(E.Turn(ep, []), init);
      LogMore(log, t.out, E.Step(t.ep, inputs[|inputs| - 1]).out);
    }
  }

  lemma LogMore(a: seq<E.Effect>, b: seq<E.Effect>, c: seq<E.Effect>)
    ensures (a + b) + c == a + (b + c)
  {
  }

  lemma {:induction false} TransmittedConcat(a: seq<E.Effect>, b: seq<E.Effect>)
    ensures Transmitted(a + b) == Transmitted(a) + Transmitted(b)
  {
    if b == [] {
      assert a + b == a;
      assert Transmitted(a) + [] == Transmitted(a);
    } else {
      var init := b[..|b| - 1];
      TransmittedConcat(a, init);
      assert (a + b)[..|a + b| - 1] == a + init;
      FramesMore(Transmitted(a), Transmitted(init), FrameIn(b[|b| - 1]));
    }
  }

  lemma FramesMore(a: seq<Frame>, b: seq<Frame>, c: seq<Frame>)
    ensures (a + b) + c == a + (b + c)
  {
  }

  /** Each move is what the object's own method promises: Send, TimerProc, a turn of
      the main loop without bytes when it is time to probe, and one with some. */
  lemma MoveIsMethod(d: Desk, act: Act)
    ensures var (s, e) := (d.me.now, Perform(d, act));
            match act
            case Ask(data) => e.me.now == E.Extend(s, E.Request(data))
            case Clock => e.me.now == E.Extend(s, E.Tick)
            case Idle => e.me.now == E.RunFrom(s, PassInputs(Rx(d.me), [], true))
            case Read(count) => count <= |d.inp| ==>
              && e.me.now == E.RunFrom(s, PassInputs(Rx(d.me), d.inp[..count], false))
              && Rx(e.me) == FeedState(Rx(d.me), d.inp[..count]) && e.inp == d.inp[count..]
            case Damage(_, _, _) => e.me == d.me
  {
    match act
    case Ask(data) => ExtendIsFeed(d.me.now, E.Request(data));
    case Clock => ExtendIsFeed(d.me.now, E.Tick);
    case Idle =>
      ExtendIsFeed(d.me.now, E.IdleProbe);
      ProbesExactly(Rx(d.me), [], true);
    case Read(count) =>
      if count <= |d.inp| {
        FeedIsRun(d.me.now.ep, d.me.now.out, PassInputs(Rx(d.me), d.inp[..count], false));
        FeedConcat(RX_INIT, d.me.read, d.inp[..count]);
      }
    case Damage(_, _, _) =>
  }

  lemma ExtendIsFeed(s: E.Turn, i: E.Input)
    ensures E.RunFrom(s, [i]) == E.Extend(s, i)
    ensures var t := E.RunFrom(E.Turn(s.ep, []), [i]); E.Extend(s, i) == E.Turn(t.ep, s.out + t.out)
  {
    assert [i][..0] == [];
    FeedIsRun(s.ep, s.out, [i]);
  }

  // ------------------------------------------- what was heard of what was said

  /** The frames heard are among those spoken, in the same order. */
  ghost predicate Drawn(heard: seq<Frame>, spoken: seq<Frame>) {
    exists ids: seq<int> :: Increasing(ids) && |ids| == |heard|
      && forall k :: 0 <= k < |ids| ==> 0 <= ids[k] < |spoken| && heard[k] == spoken[ids[k]]
  }

  /** The first place from p on where f was spoken, or the end. */
  function Find(spoken: seq<Frame>, f: Frame, p: nat): (q: nat)
    requires p <= |spoken|
    ensures p <= q <= |spoken|
    ensures q < |spoken| ==> spoken[q] == f
    ensures forall k :: p <= k < q ==> spoken[k] != f
    decreases |spoken| - p
  {
    if p == |spoken| || spoken[p] == f then p else Find(spoken, f, p + 1)
  }

  /** How much of what was spoken must have been for all this to be heard; more
      than there is, if it cannot have been. */
  function Upto(heard: seq<Frame>, spoken: seq<Frame>): (p: nat)
    ensures p <= |spoken| + 1
  {
    if heard == [] then 0
    else
      var p := Upto(heard[..|heard| - 1], spoken);
      if p > |spoken| then p else Find(spoken, heard[|heard| - 1], p) + 1
  }

  lemma {:induction false} DrawnUpto(heard: seq<Frame>, spoken: seq<Frame>, ids: seq<int>)
    requires Increasing(ids) && |ids| == |heard|
    requires forall k :: 0 <= k < |ids| ==> 0 <= ids[k] < |spoken| && heard[k] == spoken[ids[k]]
    ensures Upto(heard, spoken) <= Last(ids) + 1 <= |spoken|
  {
    if heard != [] {
      var n := |heard| - 1;
      DrawnUpto(heard[..n], spoken, ids[..n]);
      assert Last(ids[..n]) < ids[n];
    }
  }

  lemma UptoSnoc(heard: seq<Frame>, f: Frame, spoken: seq<Frame>)
    ensures var p := Upto(heard, spoken);
            Upto(heard + [f], spoken) == if p > |spoken| then p else Find(spoken, f, p) + 1
  {
    assert (heard + [f])[..|heard|] == heard;
  }

  lemma {:induction false} UptoPrefix(heard: seq<Frame>, more: seq<Frame>, spoken: seq<Frame>)
    requires Upto(heard + more, spoken) <= |spoken|
    ensures Upto(heard, spoken) <= |spoken|
    decreases |more|
  {
    if more == [] {
      assert heard + more == heard;
    } else {
      var init := more[..|more| - 1];
      assert (heard + more)[..|heard + more| - 1] == heard + init;
      UptoPrefix(heard, init, spoken);
    }
  }

  lemma {:induction false} FindLater(spoken: seq<Frame>, more: seq<Frame>, f: Frame, p: nat)
    requires p <= |spoken| && Find(spoken, f, p) < |spoken|
    ensures Find(spoken + more, f, p) == Find(spoken, f, p)
    decreases |spoken| - p
  {
    if spoken[p] != f {
      FindLater(spoken, more, f, p + 1);
    }
  }

  /** Saying more changes nothing about what has been heard. */
  lemma {:induction false} UptoLater(heard: seq<Frame>, spoken: seq<Frame>, more: seq<Frame>)
    requires Upto(heard, spoken) <= |spoken|
    ensures Upto(heard, spoken + more) == Upto(heard, spoken)
  {
    if heard != [] {
      var n := |heard| - 1;
      UptoLater(heard[..n], spoken, more);
      FindLater(spoken, more, heard[n], Upto(heard[..n], spoken));
    }
  }

  /** What may still be heard. */
  function Unheard(spoken: seq<Frame>, heard: seq<Frame>): seq<Frame>
    requires Upto(heard, spoken) <= |spoken|
  {
    spoken[Upto(heard, spoken)..]
  }

  /** The packets on a line are these frames. */
  ghost predicate InTransit(ch: seq<Packet>, fs: seq<Frame>) {
    |ch| == |fs| && forall k :: 0 <= k < |ch| ==> ch[k].Intact? && ch[k].frame == fs[k]
  }

  lemma {:induction false} EmitInTransit(out: seq<E.Effect>, id: int)
    ensures InTransit(Arq.Emit(out, id), Transmitted(out))
  {
    if out != [] {
      EmitInTransit(out[..|out| - 1], id);
    }
  }

  // ----------------------------------------------------- speaker and listener

  /** What matters of a station to the other one. */
  datatype Talk = Talk(now: E.Turn, heard: seq<Frame>)

  function Said(me: Talk, t: E.Turn): Talk { me.(now := E.Turn(t.ep, me.now.out + t.out)) }

  function Hears(me: Talk, x: RxEvent): Talk {
    Said(me, E.OnEvent(me.now.ep, x)).(heard := me.heard + if x.Accept? then [x.frame] else [])
  }

  function HistOf(t: Talk): E.Hist { E.RecordAll(E.NO_HIST, t.now.out) }

  predicate CalmTalk(t: Talk) { TimeoutsInARow(Node(t.now.ep, HistOf(t), [])) <= 254 }

  ghost predicate Plays(t: Talk, v: Node) { v.ep == t.now.ep && v.hist == HistOf(t) }

  /** The channel holds what may still be heard. */
  ghost predicate Awaited(ch: seq<Packet>, spoken: seq<Frame>, heard: seq<Frame>) {
    Upto(heard, spoken) <= |spoken| && InTransit(ch, Unheard(spoken, heard))
  }

  ghost predicate OnLine(s: Talk, r: Talk, ch: seq<Packet>) { Awaited(ch, Transmitted(s.now.out), r.heard) }

  /** A node and its peer play two stations, over channels that hold the frames
      that may still be heard. */
  ghost predicate Match(me: Talk, peer: Talk, e: End, y: Node) {
    Plays(me, e.node) && Plays(peer, y) && OnLine(me, peer, e.out) && OnLine(peer, me, e.inp)
  }

  function Joined(side: Side, e: End, y: Node): Net {
    match side
    case A => Net(e.node, y, e.out, e.inp)
    case B => Net(y, e.node, e.inp, e.out)
  }

  function Other(side: Side): Side { if side.A? then B else A }

  /** A run that stays within the hypotheses of ReliableDelivery. */
  ghost predicate Reaches(xs: seq<Event>, n: Net) { Run(xs) == n && CalmRun(xs, 254) && HonestRun(xs) }

  lemma ReachesNext(xs: seq<Event>, n: Net, x: Event, n': Net) returns (ys: seq<Event>)
    requires Reaches(xs, n) && Honest(x) && Step(n, x) == n' && Calm(n', 254)
    ensures Reaches(ys, n')
  {
    ys := xs + [x];
    assert ys[..|xs|] == xs;
  }

  lemma ActOn(xs: seq<Event>, side: Side, e: End, y: Node, x: Action) returns (ys: seq<Event>)
    requires Reaches(xs, Joined(side, e, y)) && !x.Tamper?
    requires TimeoutsInARow(Local(e, x).node) <= 254
    ensures Reaches(ys, Joined(side, Local(e, x), y))
  {
    ys := ReachesNext(xs, Joined(side, e, y), Event(side, x), Joined(side, Local(e, x), y));
  }

  lemma TamperWith(xs: seq<Event>, side: Side, e: End, y: Node, edit: Edit) returns (ys: seq<Event>)
    requires Reaches(xs, Joined(side, e, y)) && (edit.Noise? ==> Quiet(edit.reports))
    ensures Reaches(ys, Joined(side, e.(inp := Apply(e.inp, edit)), y))
  {
    ys := ReachesNext(xs, Joined(side, e, y), Event(Other(side), Tamper(edit)), Joined(side, e.(inp := Apply(e.inp, edit)), y));
  }

  // ------------------------------------------------------------ saying something

  lemma SaidPlays(me: Talk, e: End, t: E.Turn, id: int)
    requires Plays(me, e.node)
    ensures Plays(Said(me, t), Do(e, t, id).node)
  {
    E.RecordConcat(E.NO_HIST, me.now.out, t.out);
  }

  lemma SaidOnLine(me: Talk, peer: Talk, e: End, t: E.Turn, id: int)
    requires OnLine(me, peer, e.out)
    ensures OnLine(Said(me, t), peer, Do(e, t, id).out)
  {
    var spoken := Transmitted(me.now.out);
    TransmittedConcat(me.now.out, t.out);
    UptoLater(peer.heard, spoken, Transmitted(t.out));
    EmitInTransit(t.out, id);
    MoreInTransit(e.out, spoken, Upto(peer.heard, spoken), Arq.Emit(t.out, id), Transmitted(t.out));
  }

  lemma MoreInTransit(ch: seq<Packet>, fs: seq<Frame>, p: nat, more: seq<Packet>, fs': seq<Frame>)
    requires p <= |fs| && InTransit(ch, fs[p..]) && InTransit(more, fs')
    ensures InTransit(ch + more, (fs + fs')[p..])
  {
    assert (fs + fs')[p..] == fs[p..] + fs';
  }

  lemma SaidMatch(me: Talk, peer: Talk, e: End, y: Node, t: E.Turn, id: int)
    requires Match(me, peer, e, y)
    ensures Match(Said(me, t), peer, Do(e, t, id), y)
  {
    SaidPlays(me, e, t, id);
    SaidOnLine(me, peer, e, t, id);
  }

  function ActionFor(i: E.Input): Action
    requires i.Request? || i.Tick? || i.IdleProbe?
  {
    if i.Request? then Request(i.data) else if i.Tick? then Tick else Probe
  }

  lemma LocalIsStep(e: End, i: E.Input)
    requires i.Request? || i.Tick? || i.IdleProbe?
    ensures Local(e, ActionFor(i)) == Do(e, E.Step(e.node.ep, i), 0)
  {
  }

  /** A request, a tick or a probe is the same step of the node. */
  lemma InputMatched(side: Side, me: Talk, peer: Talk, e: End, y: Node, xs: seq<Event>, i: E.Input)
      returns (ys: seq<Event>, e': End)
    requires Match(me, peer, e, y) && Reaches(xs, Joined(side, e, y))
    requires (i.Request? || i.Tick? || i.IdleProbe?) && CalmTalk(Said(me, E.Step(me.now.ep, i)))
    ensures Reaches(ys, Joined(side, e', y)) && Match(Said(me, E.Step(me.now.ep, i)), peer, e', y)
  {
    e' := Do(e, E.Step(e.node.ep, i), 0);
    SaidMatch(me, peer, e, y, E.Step(me.now.ep, i), 0);
    LocalIsStep(e, i);
    ys := ActOn(xs, side, e, y, ActionFor(i));
  }

  // ----------------------------------------------------------- hearing something

  lemma NoiseHeard(side: Side, e: End, y: Node, xs: seq<Event>, es: seq<RxEvent>) returns (ys: seq<Event>)
    requires Reaches(xs, Joined(side, e, y)) && Quiet(es)
    requires TimeoutsInARow(Heed(e.(node := Awake(e.node)), es).node) <= 254
    ensures Reaches(ys, Joined(side, Heed(e.(node := Awake(e.node)), es), y))
  {
    var e1 := e.(inp := [Damaged(es)] + e.inp);
    assert Apply(e.inp, Noise(0, es)) == e1.inp;
    ys := TamperWith(xs, side, e, y, Noise(0, es));
    assert e1.inp[1..] == e.inp;
    ys := ActOn(ys, side, e1, y, Deliver);
  }

  /** Bytes came in. */
  lemma AwakeMatched(side: Side, me: Talk, peer: Talk, e: End, y: Node, xs: seq<Event>)
      returns (ys: seq<Event>, e': End)
    requires Match(me, peer, e, y) && Reaches(xs, Joined(side, e, y))
    ensures Reaches(ys, Joined(side, e', y)) && Match(Said(me, E.Step(me.now.ep, E.BytesRead)), peer, e', y)
  {
    e' := e.(node := Awake(e.node));
    assert me.now.out + [] == me.now.out;
    ys := NoiseHeard(side, e, y, xs, []);
  }

  lemma HeedSingle(e: End, x: RxEvent)
    ensures Heed(e, [x]) == Do(e, E.OnEvent(e.node.ep, x), -1)
  {
    assert [x][..0] == [];
  }

  lemma ReportMatched(side: Side, me: Talk, peer: Talk, e: End, y: Node, xs: seq<Event>, x: RxEvent)
      returns (ys: seq<Event>, e': End)
    requires Match(me, peer, e, y) && Reaches(xs, Joined(side, e, y))
    requires !x.Accept? && me.now.ep.linkAlive && CalmTalk(Hears(me, x))
    ensures Reaches(ys, Joined(side, e', y)) && Match(Hears(me, x), peer, e', y)
  {
    e' := Do(e, E.OnEvent(e.node.ep, x), -1);
    assert me.heard + [] == me.heard;
    HeedSingle(e, x);
    SaidMatch(me, peer, e, y, E.OnEvent(me.now.ep, x), -1);
    assert Awake(e.node) == e.node;
    ys := NoiseHeard(side, e, y, xs, [x]);
  }

  lemma {:induction false} LoseFirst(side: Side, e: End, y: Node, xs: seq<Event>, k: nat) returns (ys: seq<Event>)
    requires Reaches(xs, Joined(side, e, y)) && k <= |e.inp|
    ensures Reaches(ys, Joined(side, e.(inp := e.inp[k..]), y))
    decreases k
  {
    if k == 0 {
      ys := xs;
      assert e.inp[0..] == e.inp;
    } else {
      var e1 := e.(inp := e.inp[1..]);
      assert Apply(e.inp, Lose(0)) == e1.inp;
      ys := TamperWith(xs, side, e, y, Lose(0));
      ys := LoseFirst(side, e1, y, ys, k - 1);
      assert e1.inp[k - 1..] == e.inp[k..];
    }
  }

  lemma DeliverFrame(side: Side, e: End, y: Node, xs: seq<Event>, f: Frame, id: int) returns (ys: seq<Event>)
    requires e.inp != [] && e.inp[0] == Intact(f, id) && Reaches(xs, Joined(side, e, y)) && e.node.ep.linkAlive
    requires TimeoutsInARow(Do(e.(inp := e.inp[1..]), E.OnEvent(e.node.ep, Accept(f)), id).node) <= 254
    ensures Reaches(ys, Joined(side, Do(e.(inp := e.inp[1..]), E.OnEvent(e.node.ep, Accept(f)), id), y))
  {
    assert Awake(e.node) == e.node;
    ys := ActOn(xs, side, e, y, Deliver);
  }

  /** How many frames are passed over for the next one heard. */
  function Skipped(spoken: seq<Frame>, heard: seq<Frame>, f: Frame): nat
    requires Upto(heard, spoken) <= |spoken|
  {
    Find(spoken, f, Upto(heard, spoken)) - Upto(heard, spoken)
  }

  lemma HeardNext(ch: seq<Packet>, spoken: seq<Frame>, heard: seq<Frame>, f: Frame)
    requires Awaited(ch, spoken, heard) && Upto(heard + [f], spoken) <= |spoken|
    ensures var skip := Skipped(spoken, heard, f);
            && skip < |ch| && ch[skip].Intact? && ch[skip].frame == f
            && Awaited(ch[skip + 1..], spoken, heard + [f])
  {
    UptoSnoc(heard, f, spoken);
    var p := Upto(heard, spoken);
    RestInTransit(ch, spoken, p, Find(spoken, f, p));
  }

  lemma RestInTransit(ch: seq<Packet>, fs: seq<Frame>, p: nat, q: nat)
    requires p <= q < |fs| && InTransit(ch, fs[p..])
    ensures q - p < |ch| && ch[q - p].Intact? && ch[q - p].frame == fs[q]
    ensures InTransit(ch[q - p + 1..], fs[q + 1..])
  {
  }

  /** The frames spoken before the one heard are lost, and that one is delivered. */
  lemma FrameMatched(side: Side, me: Talk, peer: Talk, e: End, y: Node, xs: seq<Event>, f: Frame)
      returns (ys: seq<Event>, e': End)
    requires Match(me, peer, e, y) && Reaches(xs, Joined(side, e, y))
    requires me.now.ep.linkAlive && CalmTalk(Hears(me, Accept(f)))
    requires Upto(me.heard + [f], Transmitted(peer.now.out)) <= |Transmitted(peer.now.out)|
    ensures Reaches(ys, Joined(side, e', y)) && Match(Hears(me, Accept(f)), peer, e', y)
  {
    var spoken, t := Transmitted(peer.now.out), E.OnEvent(me.now.ep, Accept(f));
    var skip := Skipped(spoken, me.heard, f);
    HeardNext(e.inp, spoken, me.heard, f);
    ys := LoseFirst(side, e, y, xs, skip);
    var e1, id := e.(inp := e.inp[skip + 1..]), e.inp[skip].id;
    assert e.inp[skip..][1..] == e1.inp;
    e' := Do(e1, t, id);
    SaidPlays(me, e1, t, id);
    SaidOnLine(me, peer, e1, t, id);
    ys := DeliverFrame(side, e.(inp := e.inp[skip..]), y, ys, f, id);
  }

  // ---------------------------------------------------- hearing a whole read

  function Silence(h: E.Hist): int { |h.results| - 1 - LastOk(h.results) }

  predicate GivesUp(out: seq<E.Effect>) { exists x :: x in out && x.Resolve? && !x.result.SUCCESS? }

  lemma {:induction false} RecordCalm(h: E.Hist, out: seq<E.Effect>)
    requires !GivesUp(out)
    ensures Silence(E.RecordAll(h, out)) <= Silence(h)
  {
    if out != [] {
      var init, x := out[..|out| - 1], out[|out| - 1];
      assert x in out;
      RecordCalm(h, init);
      var rs := E.RecordAll(h, init).results;
      if x.Resolve? {
        assert (rs + [E.Resolution(x.id, x.result)])[|rs|].result.SUCCESS?;
      }
    }
  }

  /** Parsing gives nothing up. */
  lemma HearingCalm(me: Talk, x: RxEvent)
    requires CalmTalk(me)
    ensures CalmTalk(Hears(me, x)) && Hears(me, x).now.ep.linkAlive == me.now.ep.linkAlive
  {
    var out := E.OnEvent(me.now.ep, x).out;
    RecordCalm(HistOf(me), out);
    E.RecordConcat(E.NO_HIST, me.now.out, out);
  }

  lemma AcceptedSnoc(es: seq<RxEvent>, x: RxEvent)
    ensures Accepted(es + [x]) == Accepted(es) + if x.Accept? then [x.frame] else []
  {
    Stream.AcceptedConcat(es, [x]);
  }

  function HearsAll(me: Talk, es: seq<RxEvent>): Talk {
    if es == [] then me else Hears(HearsAll(me, es[..|es| - 1]), es[|es| - 1])
  }

  lemma EventMatched(side: Side, me: Talk, peer: Talk, e: End, y: Node, xs: seq<Event>, x: RxEvent)
      returns (ys: seq<Event>, e': End)
    requires Match(me, peer, e, y) && Reaches(xs, Joined(side, e, y)) && me.now.ep.linkAlive && CalmTalk(me)
    requires Upto(Hears(me, x).heard, Transmitted(peer.now.out)) <= |Transmitted(peer.now.out)|
    ensures Reaches(ys, Joined(side, e', y)) && Match(Hears(me, x), peer, e', y)
    ensures Hears(me, x).now.ep.linkAlive && CalmTalk(Hears(me, x))
  {
    HearingCalm(me, x);
    if x.Accept? {
      ys, e' := FrameMatched(side, me, peer, e, y, xs, x.frame);
    } else {
      ys, e' := ReportMatched(side, me, peer, e, y, xs, x);
    }
  }

  lemma {:induction false} EventsMatched(side: Side, me: Talk, peer: Talk, e: End, y: Node, xs: seq<Event>, es: seq<RxEvent>)
      returns (ys: seq<Event>, e': End)
    requires Match(me, peer, e, y) && Reaches(xs, Joined(side, e, y)) && me.now.ep.linkAlive && CalmTalk(me)
    requires Upto(HearsAll(me, es).heard, Transmitted(peer.now.out)) <= |Transmitted(peer.now.out)|
    ensures Reaches(ys, Joined(side, e', y)) && Match(HearsAll(me, es), peer, e', y)
    ensures HearsAll(me, es).now.ep.linkAlive && CalmTalk(HearsAll(me, es))
    decreases |es|
  {
    if es == [] {
      ys, e' := xs, e;
    } else {
      var init, x := es[..|es| - 1], es[|es| - 1];
      var m := HearsAll(me, init);
      UptoPrefix(m.heard, if x.Accept? then [x.frame] else [], Transmitted(peer.now.out));
      ys, e' := EventsMatched(side, me, peer, e, y, xs, init);
      ys, e' := EventMatched(side, m, peer, e', y, ys, x);
    }
  }

  lemma ReceivesSnoc(es: seq<RxEvent>, x: RxEvent)
    ensures Receives(es + [x]) == Receives(es) + [E.Receive(x)]
  {
  }

  /** That is what the endpoint does with the events, and what is accepted. */
  lemma {:induction false} HearsAllIs(me: Talk, es: seq<RxEvent>)
    ensures HearsAll(me, es) == Talk(E.RunFrom(me.now, Receives(es)), me.heard + Accepted(es))
  {
    if es == [] {
      assert me.heard + [] == me.heard;
      assert Receives(es) == [];
    } else {
      var init, x := es[..|es| - 1], es[|es| - 1];
      HearsAllIs(me, init);
      assert es == init + [x];
      ReceivesSnoc(init, x);
      E.RunSnoc(me.now, Receives(init), E.Receive(x));
      AcceptedSnoc(init, x);
      FramesMore(me.heard, Accepted(init), if x.Accept? then [x.frame] else []);
    }
  }

  // ------------------------------------------------------- every byte-level run

  function TalkOf(s: Station): Talk { Talk(s.now, Heard(s)) }

  lemma HeardMore(read: seq<Byte>, chunk: seq<Byte>)
    ensures var (st, st') := (FeedState(RX_INIT, read), FeedState(RX_INIT, read + chunk));
            && Accepted(FeedEvents(RX_INIT, read + chunk)) == Accepted(FeedEvents(RX_INIT, read)) + Accepted(FeedEvents(st, chunk))
            && st' == FeedState(st, chunk)
  {
    FeedConcat(RX_INIT, read, chunk);
    Stream.AcceptedConcat(FeedEvents(RX_INIT, read), FeedEvents(FeedState(RX_INIT, read), chunk));
  }

  lemma FeedOne(d: Desk, i: E.Input)
    ensures TalkOf(Feed(d, [i]).me) == Said(TalkOf(d.me), E.Step(d.me.now.ep, i))
  {
    var t := E.Turn(d.me.now.ep, []);
    E.RunSnoc(t, [], i);
    assert [] + [i] == [i] && [] + E.Step(t.ep, i).out == E.Step(t.ep, i).out;
  }

  lemma FeedPass(now: E.Turn, es: seq<RxEvent>, heard: seq<Frame>)
    ensures var me := Said(Talk(now, heard), E.Step(now.ep, E.BytesRead));
            var t := E.RunFrom(E.Turn(now.ep, []), [E.BytesRead] + Receives(es));
            HearsAll(me, es) == Talk(E.Turn(t.ep, now.out + t.out), heard + Accepted(es))
  {
    var me := Said(Talk(now, heard), E.Step(now.ep, E.BytesRead));
    HearsAllIs(me, es);
    RunCons(now, E.BytesRead, Receives(es));
    FeedIsRun(now.ep, now.out, [E.BytesRead] + Receives(es));
  }

  lemma NothingRead(st: RxState, chunk: seq<Byte>)
    requires Unescape(st.esc, chunk) == [] && Head(st.staged).Wait?
    ensures FeedEvents(st, chunk) == [] && PassInputs(st, chunk, false) == []
  {
    assert st.staged + [] == st.staged;
  }

  /** A read, as the endpoint takes it. */
  lemma IntakeIsHearing(d: Desk, count: nat)
    requires count <= |d.inp|
    ensures var (st, chunk, me) := (Rx(d.me), d.inp[..count], TalkOf(d.me));
            TalkOf(Intake(d, count).me)
              == if Unescape(st.esc, chunk) == [] then me
                 else HearsAll(Said(me, E.Step(me.now.ep, E.BytesRead)), FeedEvents(st, chunk))
  {
    var st, chunk := Rx(d.me), d.inp[..count];
    HeardMore(d.me.read, chunk);
    if Unescape(st.esc, chunk) == [] {
      NothingRead(st, chunk);
      assert d.me.now.out + [] == d.me.now.out && Heard(d.me) + [] == Heard(d.me);
    } else {
      FeedPass(d.me.now, FeedEvents(st, chunk), Heard(d.me));
    }
  }

  lemma AwakeCalm(me: Talk)
    requires CalmTalk(me)
    ensures var me' := Said(me, E.Step(me.now.ep, E.BytesRead)); me'.now.ep.linkAlive && CalmTalk(me')
  {
    assert me.now.out + [] == me.now.out;
  }

  lemma IntakeMatched(side: Side, d: Desk, peer: Talk, e: End, y: Node, xs: seq<Event>, count: nat)
      returns (ys: seq<Event>, e': End)
    requires Match(TalkOf(d.me), peer, e, y) && Reaches(xs, Joined(side, e, y)) && CalmTalk(TalkOf(d.me))
    requires count <= |d.inp|
    requires Upto(Heard(Intake(d, count).me), Transmitted(peer.now.out)) <= |Transmitted(peer.now.out)|
    ensures Reaches(ys, Joined(side, e', y)) && Match(TalkOf(Intake(d, count).me), peer, e', y)
  {
    var st, chunk, me := Rx(d.me), d.inp[..count], TalkOf(d.me);
    IntakeIsHearing(d, count);
    if Unescape(st.esc, chunk) == [] {
      ys, e' := xs, e;
    } else {
      AwakeCalm(me);
      ys, e' := AwakeMatched(side, me, peer, e, y, xs);
      ys, e' := EventsMatched(side, Said(me, E.Step(me.now.ep, E.BytesRead)), peer, e', y, ys, FeedEvents(st, chunk));
    }
  }

  lemma PerformMatched(side: Side, d: Desk, peer: Talk, e: End, y: Node, xs: seq<Event>, act: Act)
      returns (ys: seq<Event>, e': End)
    requires Match(TalkOf(d.me), peer, e, y) && Reaches(xs, Joined(side, e, y)) && CalmTalk(TalkOf(d.me))
    requires CalmTalk(TalkOf(Perform(d, act).me))
    requires Upto(Heard(Perform(d, act).me), Transmitted(peer.now.out)) <= |Transmitted(peer.now.out)|
    ensures Reaches(ys, Joined(side, e', y)) && Match(TalkOf(Perform(d, act).me), peer, e', y)
  {
    ys, e' := xs, e;
    match act
    case Damage(_, _, _) =>
    case Read(count) =>
      if count <= |d.inp| {
        ys, e' := IntakeMatched(side, d, peer, e, y, xs, count);
      }
    case Ask(data) =>
      FeedOne(d, E.Request(data));
      ys, e' := InputMatched(side, TalkOf(d.me), peer, e, y, xs, E.Request(data));
    case Clock =>
      FeedOne(d, E.Tick);
      ys, e' := InputMatched(side, TalkOf(d.me), peer, e, y, xs, E.Tick);
    case Idle =>
      FeedOne(d, E.IdleProbe);
      ys, e' := InputMatched(side, TalkOf(d.me), peer, e, y, xs, E.IdleProbe);
  }

  ghost predicate Matched(l: Wires, n: Net) { Match(TalkOf(l.a), TalkOf(l.b), End(n.a, n.ab, n.ba), n.b) }

  ghost predicate Calmly(l: Wires) { CalmTalk(TalkOf(l.a)) && CalmTalk(TalkOf(l.b)) }

  /** Neither side has heard a frame the other did not send it, nor out of order,
      nor more often than sent. */
  ghost predicate Genuine(l: Wires) { Drawn(Heard(l.b), Spoken(l.a)) && Drawn(Heard(l.a), Spoken(l.b)) }

  /** Nowhere along the run were there more than 254 timeouts in a row, or was a
      frame heard that was not sent. */
  ghost predicate GoodRun(ms: seq<Move>) {
    var l := After(SILENT, ms);
    Calmly(l) && Genuine(l) && (ms != [] ==> GoodRun(ms[..|ms| - 1]))
  }

  lemma GenuineUpto(heard: seq<Frame>, spoken: seq<Frame>)
    requires Drawn(heard, spoken)
    ensures Upto(heard, spoken) <= |spoken|
  {
    var ids: seq<int> :| Increasing(ids) && |ids| == |heard|
      && forall k :: 0 <= k < |ids| ==> 0 <= ids[k] < |spoken| && heard[k] == spoken[ids[k]];
    DrawnUpto(heard, spoken, ids);
  }

  lemma MoveMatched(l: Wires, n: Net, xs: seq<Event>, m: Move) returns (ys: seq<Event>, n': Net)
    requires Matched(l, n) && Reaches(xs, n) && Calmly(l) && Calmly(Next(l, m)) && Genuine(Next(l, m))
    ensures Matched(Next(l, m), n') && Reaches(ys, n')
  {
    var l' := Next(l, m);
    match m.side
    case A =>
      GenuineUpto(Heard(l'.a), Spoken(l.b));
      var e;
      ys, e := PerformMatched(A, Desk(l.a, l.ab, l.ba), TalkOf(l.b), End(n.a, n.ab, n.ba), n.b, xs, m.act);
      n' := Joined(A, e, n.b);
    case B =>
      GenuineUpto(Heard(l'.b), Spoken(l.a));
      var e;
      ys, e := PerformMatched(B, Desk(l.b, l.ba, l.ab), TalkOf(l.a), End(n.b, n.ba, n.ab), n.a, xs, m.act);
      n' := Joined(B, e, n.a);
  }

  /** Every run over bytes is matched by a run over packets with the same
      requests, results and dispatches. */
  lemma {:induction false} RunMatched(ms: seq<Move>) returns (xs: seq<Event>, n: Net)
    requires GoodRun(ms)
    ensures Matched(After(SILENT, ms), n) && Reaches(xs, n)
    decreases |ms|
  {
    if ms == [] {
      xs, n := [], INIT;
      assert Heard(NEW) == [];
    } else {
      var init := ms[..|ms| - 1];
      xs, n := RunMatched(init);
      xs, n := MoveMatched(After(SILENT, init), n, xs, ms[|ms| - 1]);
    }
  }

  function NodeOf(s: Station): Node { Node(s.now.ep, E.RecordAll(E.NO_HIST, s.now.out), []) }

  /** So over lines of bytes, whatever is lost, added or changed on them, as long
      as no more than 254 timeouts come in a row and no frame is heard that was
      not sent: payloads are dispatched in order, without duplicates, and every
      SUCCESS is true, in both directions. */
  lemma ReliableBytes(ms: seq<Move>)
    requires GoodRun(ms)
    ensures var l := After(SILENT, ms);
            Faithful(NodeOf(l.a), NodeOf(l.b)) && Faithful(NodeOf(l.b), NodeOf(l.a))
  {
    var xs, n := RunMatched(ms);
    ReliableDelivery(xs);
  }

  // ------------------------------------------------- when what is heard was sent

  lemma DrawnPrefix(heard: seq<Frame>, more: seq<Frame>, spoken: seq<Frame>)
    requires Drawn(heard + more, spoken)
    ensures Drawn(heard, spoken)
  {
    var ids: seq<int> :| Increasing(ids) && |ids| == |heard + more|
      && forall k :: 0 <= k < |ids| ==> 0 <= ids[k] < |spoken| && (heard + more)[k] == spoken[ids[k]];
    var few := ids[..|heard|];
    assert forall k :: 0 <= k < |few| ==> 0 <= few[k] < |spoken| && heard[k] == (heard + more)[k] == spoken[few[k]];
  }

  lemma DrawnWhole(spoken: seq<Frame>)
    ensures Drawn(spoken, spoken)
  {
    var ids: seq<int> := seq(|spoken|, i => i);
    assert Increasing(ids);
  }

  lemma {:induction false} WireAllConcat(a: seq<Frame>, b: seq<Frame>)
    ensures WireAll(a + b) == WireAll(a) + WireAll(b)
  {
    if a == [] {
      assert a + b == b;
    } else {
      assert (a + b)[1..] == a[1..] + b;
      WireAllConcat(a[1..], b);
    }
  }

  /** Everything said and not yet read is on the line, untouched. */
  ghost predicate Flowing(s: Station, r: Station, ch: seq<Byte>) { r.read + ch == WireAll(Spoken(s)) }

  lemma FeedFlows(d: Desk, inputs: seq<E.Input>, peer: Station)
    requires Flowing(d.me, peer, d.out)
    ensures Flowing(Feed(d, inputs).me, peer, Feed(d, inputs).out)
  {
    var t := E.RunFrom(E.Turn(d.me.now.ep, []), inputs);
    TransmittedConcat(d.me.now.out, t.out);
    WireAllConcat(Spoken(d.me), Transmitted(t.out));
    BytesMore(peer.read, d.out, WireAll(Transmitted(t.out)));
  }

  lemma BytesMore(a: seq<Byte>, b: seq<Byte>, c: seq<Byte>)
    ensures (a + b) + c == a + (b + c)
  {
  }

  lemma IntakeFlows(d: Desk, peer: Station, count: nat)
    requires count <= |d.inp| && Flowing(d.me, peer, d.out) && Flowing(peer, d.me, d.inp)
    ensures Flowing(Intake(d, count).me, peer, Intake(d, count).out) && Flowing(peer, Intake(d, count).me, Intake(d, count).inp)
  {
    FeedFlows(d, PassInputs(Rx(d.me), d.inp[..count], false), peer);
    ReadOn(d.me.read, d.inp, count);
  }

  lemma ReadOn(read: seq<Byte>, inp: seq<Byte>, count: nat)
    requires count <= |inp|
    ensures (read + inp[..count]) + inp[count..] == read + inp
  {
    assert inp == inp[..count] + inp[count..];
  }

  lemma PerformFlows(d: Desk, peer: Station, act: Act)
    requires Flowing(d.me, peer, d.out) && Flowing(peer, d.me, d.inp) && !act.Damage?
    ensures var e := Perform(d, act);
            Flowing(e.me, peer, e.out) && Flowing(peer, e.me, e.inp)
  {
    match act
    case Ask(data) => FeedFlows(d, [E.Request(data)], peer);
    case Clock => FeedFlows(d, [E.Tick], peer);
    case Idle => FeedFlows(d, [E.IdleProbe], peer);
    case Read(count) =>
      if count <= |d.inp| {
        IntakeFlows(d, peer, count);
      }
    case Damage(_, _, _) =>
  }

  predicate Undamaged(ms: seq<Move>) { forall m :: m in ms ==> !m.act.Damage? }

  lemma {:induction false} RunFlows(ms: seq<Move>)
    requires Undamaged(ms)
    ensures var l := After(SILENT, ms); Flowing(l.a, l.b, l.ab) && Flowing(l.b, l.a, l.ba)
  {
    if ms != [] {
      var init, m := ms[..|ms| - 1], ms[|ms| - 1];
      RunFlows(init);
      var l := After(SILENT, init);
      match m.side
      case A => PerformFlows(Desk(l.a, l.ab, l.ba), l.b, m.act);
      case B => PerformFlows(Desk(l.b, l.ba, l.ab), l.a, m.act);
    }
  }

  lemma {:induction false} AcceptsAccepted(fs: seq<Frame>)
    ensures Accepted(Accepts(fs)) == fs
  {
    if fs != [] {
      AcceptsAccepted(fs[1..]);
      Stream.AcceptedCons(Accept(fs[0]), Accepts(fs[1..]));
    }
  }

  lemma FlowingIsGenuine(s: Station, r: Station, ch: seq<Byte>)
    requires Flowing(s, r, ch)
    ensures Drawn(Heard(r), Spoken(s))
  {
    var spoken := Spoken(s);
    HeardMore(r.read, ch);
    UnescapeWireAll(spoken);
    assert [] + EncodeAll(spoken) == EncodeAll(spoken);
    DrainEncodeAll(spoken);
    AcceptsAccepted(spoken);
    DrawnWhole(spoken);
    DrawnPrefix(Heard(r), Accepted(FeedEvents(Rx(r), ch)), spoken);
  }

  /** Over undamaged lines, however the bytes are cut into reads, nothing is ever
      heard that was not sent. */
  lemma UndamagedIsGenuine(ms: seq<Move>)
    requires Undamaged(ms)
    ensures Genuine(After(SILENT, ms))
  {
    RunFlows(ms);
    var l := After(SILENT, ms);
    FlowingIsGenuine(l.a, l.b, l.ab);
    FlowingIsGenuine(l.b, l.a, l.ba);
  }

  /** Over damaged ones neither, if what was read falls into whole frames, drawn
      from those sent, and debris in which no frame starts. */
  lemma DebrisIsGenuine(r: Station, spoken: seq<Frame>, ps: seq<Stream.Piece>, tail: seq<Byte>)
    requires Unescape(false, r.read) == Stream.BytesOf(ps)
    requires Stream.NothingHidden(ps, tail) && |tail| >= SCP_MAX_PKT - 1 && PKT_SENTINEL !in tail
    requires Drawn(Stream.Wholes(ps), spoken)
    ensures Drawn(Heard(r), spoken)
  {
    assert [] + Unescape(false, r.read) == Stream.BytesOf(ps);
    var more := Stream.OnlyWholes(ps, tail);
    DrawnPrefix(Heard(r), more, spoken);
  }
}
