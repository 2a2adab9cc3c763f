/** What two CSirCon objects achieve over lines of bytes that behave: when each
    receiver is in step, holding at most part of a whole frame, reads of a byte at
    a time and timer ticks follow any schedule of frames (sircon.cpp). */
module WiredLive {
  import opened Scp
  import opened Codec
  import opened Framer
  import opened SirCon
  import opened Arq
  import opened Wired
  import Live = ArqLive
  import E = Endpoint
  import Stream

  /** What is staged and what is on the line are these frames and nothing else. */
  ghost predicate InStep(st: RxState, ch: seq<Byte>, fs: seq<Frame>) {
    st.staged + Unescape(st.esc, ch) == EncodeAll(fs) && !EscState(st.esc, ch)
  }

  lemma {:induction false} EncodeAllConcat(a: seq<Frame>, b: seq<Frame>)
    ensures EncodeAll(a + b) == EncodeAll(a) + EncodeAll(b)
  {
    if a == [] {
      assert a + b == b;
    } else {
      assert (a + b)[1..] == a[1..] + b;
      EncodeAllConcat(a[1..], b);
    }
  }

  lemma MoreInStep(st: RxState, ch: seq<Byte>, fs: seq<Frame>, more: seq<Frame>)
    requires InStep(st, ch, fs)
    ensures InStep(st, ch + WireAll(more), fs + more)
  {
    UnescapeConcat(st.esc, ch, WireAll(more));
    UnescapeWireAll(more);
    EncodeAllConcat(fs, more);
    BytesMore(st.staged, Unescape(st.esc, ch), EncodeAll(more));
  }

  // -------------------------------------------------- a frame, byte by byte

  lemma ProperPrefixWaits(p: seq<Byte>, f: Frame)
    requires |p| < |Encode(f)| && p == Encode(f)[..|p|]
    ensures Head(p).Wait?
  {
    EncodeWellFormed(f);
    assert |p| >= HEADER_SIZE ==> p[0] == Encode(f)[0] && p[5] == Encode(f)[5];
  }

  lemma WaitIsIdle(s: seq<Byte>)
    requires Head(s).Wait?
    ensures Events(s) == [] && Residue(s) == s
  {
  }

  lemma FrameIsHeard(f: Frame)
    ensures Events(Encode(f)) == [Accept(f)] && Residue(Encode(f)) == []
  {
    HeadOfFrame(f, []);
    assert Encode(f) + [] == Encode(f);
    assert Events([]) == [] && Residue([]) == [];
  }

  ghost predicate StillIn(st: RxState, ch: seq<Byte>, f: Frame, rest: seq<Frame>)
    requires ch != []
  {
    var st' := FeedState(st, ch[..1]);
    FeedEvents(st, ch[..1]) == [] && InStep(st', ch[1..], [f] + rest) && |st'.staged| < |Encode(f)|
  }

  ghost predicate Completed(st: RxState, ch: seq<Byte>, f: Frame, rest: seq<Frame>)
    requires ch != []
  {
    && FeedEvents(st, ch[..1]) == [Accept(f)] && Unescape(st.esc, ch[..1]) != []
    && InStep(FeedState(st, ch[..1]), ch[1..], rest)
  }

  /** One byte of a frame in progress: it is not the last, or it is and the frame
      is heard. */
  lemma NextByte(st: RxState, ch: seq<Byte>, f: Frame, rest: seq<Frame>)
    requires InStep(st, ch, [f] + rest) && |st.staged| < |Encode(f)|
    ensures ch != []
    ensures StillIn(st, ch, f, rest) || Completed(st, ch, f, rest)
  {
    assert ([f] + rest)[1..] == rest;
    assert ch != [];
    ByteStaged(st, ch);
    var s := st.staged + UnescapeByte(st.esc, ch[0]);
    StagedPrefix(s, Unescape(EscAfter(st.esc, ch[0]), ch[1..]), Encode(f), EncodeAll(rest));
    if |s| < |Encode(f)| {
      ProperPrefixWaits(s, f);
      WaitIsIdle(s);
    } else {
      FrameIsHeard(f);
    }
  }

  lemma ByteStaged(st: RxState, ch: seq<Byte>)
    requires ch != []
    ensures var (s, esc) := (st.staged + UnescapeByte(st.esc, ch[0]), EscAfter(st.esc, ch[0]));
            && Unescape(st.esc, ch[..1]) == UnescapeByte(st.esc, ch[0])
            && FeedEvents(st, ch[..1]) == Events(s) && FeedState(st, ch[..1]) == RxState(esc, Residue(s))
            && st.staged + Unescape(st.esc, ch) == s + Unescape(esc, ch[1..])
            && EscState(st.esc, ch) == EscState(esc, ch[1..])
  {
    var b := ch[0];
    assert ch == [b] + ch[1..] && ch[..1] == [b];
    UnescapeFirst(st.esc, b, ch[1..]);
    UnescapeOne(st.esc, b);
    BytesMore(st.staged, UnescapeByte(st.esc, b), Unescape(EscAfter(st.esc, b), ch[1..]));
  }

  lemma StagedPrefix(s: seq<Byte>, u: seq<Byte>, e: seq<Byte>, more: seq<Byte>)
    requires s + u == e + more && |s| <= |e|
    ensures s == e[..|s|]
    ensures |s| == |e| ==> s == e && u == more
  {
    assert (s + u)[..|s|] == s && (e + more)[..|s|] == e[..|s|];
    assert (s + u)[|s|..] == u && (e + more)[|e|..] == more;
  }

  /** What waits in the staging buffer is less than the first frame. */
  lemma StagedIsPart(staged: seq<Byte>, u: seq<Byte>, f: Frame, rest: seq<Frame>)
    requires staged + u == EncodeAll([f] + rest) && Head(staged).Wait?
    ensures |staged| < |Encode(f)|
  {
    assert ([f] + rest)[1..] == rest;
    EncodeWellFormed(f);
    var all := Encode(f) + EncodeAll(rest);
    assert all[0] == Encode(f)[0] && all[5] == Encode(f)[5];
    assert |staged| >= HEADER_SIZE ==> staged[0] == all[0] && staged[5] == all[5];
  }

  // ------------------------------------------------- the desk and the node

  lemma FeedOut(d: Desk, inputs: seq<E.Input>, x: seq<E.Effect>)
    requires Feed(d, inputs).me.now.out == d.me.now.out + x
    ensures Feed(d, inputs).out == d.out + WireAll(Transmitted(x))
  {
    var t := E.RunFrom(E.Turn(d.me.now.ep, []), inputs);
    SameSuffix(d.me.now.out, t.out, x);
  }

  lemma SameSuffix(a: seq<E.Effect>, b: seq<E.Effect>, c: seq<E.Effect>)
    requires a + b == a + c
    ensures b == c
  {
    assert (a + b)[|a|..] == b && (a + c)[|a|..] == c;
  }

  lemma OutFollows(peer: RxState, ch: seq<Byte>, e: End, fo: seq<Frame>, t: E.Turn, id: int)
    requires InTransit(e.out, fo) && InStep(peer, ch, fo)
    ensures InTransit(Do(e, t, id).out, fo + Transmitted(t.out))
    ensures InStep(peer, ch + WireAll(Transmitted(t.out)), fo + Transmitted(t.out))
  {
    MoreInStep(peer, ch, fo, Transmitted(t.out));
    EmitInTransit(t.out, id);
  }

  /** A desk and a node at the same point, with the same frames on their way. */
  ghost predicate Follows(d: Desk, peer: RxState, e: End, fo: seq<Frame>, fi: seq<Frame>) {
    && Plays(TalkOf(d.me), e.node)
    && InTransit(e.out, fo) && InStep(peer, d.out, fo)
    && InTransit(e.inp, fi) && InStep(Rx(d.me), d.inp, fi)
  }

  lemma TickFollows(d: Desk, peer: RxState, e: End, fo: seq<Frame>, fi: seq<Frame>)
    requires Follows(d, peer, e, fo, fi)
    ensures Follows(Perform(d, Clock), peer, Local(e, Tick), fo + Transmitted(E.OnTick(e.node.ep).out), fi)
  {
    var t := E.OnTick(e.node.ep);
    FeedOne(d, E.Tick);
    FeedOut(d, [E.Tick], t.out);
    SaidPlays(TalkOf(d.me), e, t, 0);
    OutFollows(peer, d.out, e, fo, t, 0);
  }

  /** In the middle of frame f; bytes may have shown the link to be alive. */
  ghost predicate Amid(d: Desk, v: Node, f: Frame, rest: seq<Frame>) {
    && (Plays(TalkOf(d.me), v) || Plays(TalkOf(d.me), Awake(v)))
    && InStep(Rx(d.me), d.inp, [f] + rest) && |Rx(d.me).staged| < |Encode(f)|
  }

  /** Just behind it. */
  ghost predicate Behind(d: Desk, d': Desk, v: Node, f: Frame, rest: seq<Frame>) {
    var t := E.OnEvent(Awake(v).ep, Accept(f));
    && Plays(TalkOf(d'.me), Node(t.ep, E.RecordAll(v.hist, t.out), []))
    && d'.out == d.out + WireAll(Transmitted(t.out)) && InStep(Rx(d'.me), d'.inp, rest)
  }

  lemma AwakeTwice(me: Talk, v: Node)
    requires Plays(me, v) || Plays(me, Awake(v))
    ensures Plays(Said(me, E.Step(me.now.ep, E.BytesRead)), Awake(v))
  {
    assert me.now.out + [] == me.now.out;
  }

  lemma HearsOne(me: Talk, x: RxEvent)
    ensures HearsAll(me, [x]) == Hears(me, x)
  {
    assert [x][..0] == [];
  }

  /** A byte that completes nothing tells the endpoint that bytes came in, or not
      even that. */
  lemma QuietByte(d: Desk)
    requires d.inp != [] && FeedEvents(Rx(d.me), d.inp[..1]) == []
    ensures var (me, me') := (TalkOf(d.me), TalkOf(Intake(d, 1).me));
            (me' == me || me' == Said(me, E.Step(me.now.ep, E.BytesRead))) && me'.now.out == me.now.out
  {
    IntakeIsHearing(d, 1);
    assert d.me.now.out + [] == d.me.now.out;
  }

  lemma ByteAmid(d: Desk, v: Node)
    requires d.inp != [] && (Plays(TalkOf(d.me), v) || Plays(TalkOf(d.me), Awake(v)))
    requires FeedEvents(Rx(d.me), d.inp[..1]) == []
    ensures var d' := Intake(d, 1);
            (Plays(TalkOf(d'.me), v) || Plays(TalkOf(d'.me), Awake(v))) && d'.out == d.out
  {
    QuietByte(d);
    AwakeTwice(TalkOf(d.me), v);
    assert d.me.now.out + [] == d.me.now.out;
    FeedOut(d, PassInputs(Rx(d.me), d.inp[..1], false), []);
    assert d.out + [] == d.out;
  }

  lemma RxNext(d: Desk)
    requires d.inp != []
    ensures Rx(Intake(d, 1).me) == FeedState(Rx(d.me), d.inp[..1])
  {
    HeardMore(d.me.read, d.inp[..1]);
  }

  lemma ByteLast(d: Desk, v: Node, f: Frame)
    requires d.inp != [] && (Plays(TalkOf(d.me), v) || Plays(TalkOf(d.me), Awake(v)))
    requires FeedEvents(Rx(d.me), d.inp[..1]) == [Accept(f)] && Unescape(Rx(d.me).esc, d.inp[..1]) != []
    ensures var (d', t) := (Intake(d, 1), E.OnEvent(Awake(v).ep, Accept(f)));
            && Plays(TalkOf(d'.me), Node(t.ep, E.RecordAll(v.hist, t.out), []))
            && d'.out == d.out + WireAll(Transmitted(t.out))
  {
    var me := TalkOf(d.me);
    var woken := Said(me, E.Step(me.now.ep, E.BytesRead));
    var t := E.OnEvent(woken.now.ep, Accept(f));
    IntakeIsHearing(d, 1);
    AwakeTwice(me, v);
    HearsOne(woken, Accept(f));
    assert me.now.out + [] == me.now.out;
    FeedOut(d, PassInputs(Rx(d.me), d.inp[..1], false), t.out);
    E.RecordConcat(E.NO_HIST, me.now.out, t.out);
  }

  lemma ByteStays(d: Desk, v: Node, f: Frame, rest: seq<Frame>)
    requires Amid(d, v, f, rest) && d.inp != [] && StillIn(Rx(d.me), d.inp, f, rest)
    ensures Amid(Intake(d, 1), v, f, rest) && Intake(d, 1).out == d.out
  {
    RxNext(d);
    ByteAmid(d, v);
  }

  lemma ByteEnds(d: Desk, v: Node, f: Frame, rest: seq<Frame>)
    requires Amid(d, v, f, rest) && d.inp != [] && Completed(Rx(d.me), d.inp, f, rest)
    ensures Behind(d, Intake(d, 1), v, f, rest)
  {
    RxNext(d);
    ByteLast(d, v, f);
  }

  lemma ByteHeard(d: Desk, v: Node, f: Frame, rest: seq<Frame>)
    requires Amid(d, v, f, rest)
    ensures d.inp != []
    ensures var d' := Perform(d, Read(1));
            d'.inp == d.inp[1..] && ((Amid(d', v, f, rest) && d'.out == d.out) || Behind(d, d', v, f, rest))
  {
    NextByte(Rx(d.me), d.inp, f, rest);
    assert Perform(d, Read(1)) == Intake(d, 1);
    if StillIn(Rx(d.me), d.inp, f, rest) {
      ByteStays(d, v, f, rest);
    } else {
      ByteEnds(d, v, f, rest);
    }
  }

  // ---------------------------------------------------------- reading on

  /** Only reads of one byte and timer ticks. */
  predicate Gentle(ms: seq<Move>) { forall m :: m in ms ==> m.act == Read(1) || m.act.Clock? }

  lemma AfterSnoc(l: Wires, ms: seq<Move>, m: Move)
    ensures After(l, ms + [m]) == Next(After(l, ms), m)
  {
    assert (ms + [m])[..|ms|] == ms;
  }

  function DeskOf(l: Wires, side: Side): Desk {
    match side
    case A => Desk(l.a, l.ab, l.ba)
    case B => Desk(l.b, l.ba, l.ab)
  }

  function WithDesk(l: Wires, side: Side, d: Desk): Wires {
    match side
    case A => Wires(d.me, l.b, d.out, d.inp)
    case B => Wires(l.a, d.me, d.inp, d.out)
  }

  lemma ReadMove(l: Wires, l': Wires, side: Side, d: Desk)
    requires l' == WithDesk(l, side, d)
    ensures Next(l', Move(side, Read(1))) == WithDesk(l, side, Perform(d, Read(1)))
  {
  }

  lemma ReadMoveOn(l: Wires, before: seq<Move>, side: Side, d: Desk) returns (ms: seq<Move>)
    requires Gentle(before) && After(l, before) == WithDesk(l, side, d)
    ensures Gentle(ms) && After(l, ms) == WithDesk(l, side, Perform(d, Read(1)))
  {
    ms := before + [Move(side, Read(1))];
    AfterSnoc(l, before, Move(side, Read(1)));
    ReadMove(l, After(l, before), side, d);
  }

  /** Byte by byte to the end of a frame. */
  lemma FrameRead(l: Wires, side: Side, v: Node, f: Frame, rest: seq<Frame>) returns (ms: seq<Move>, d': Desk)
    requires Amid(DeskOf(l, side), v, f, rest)
    ensures Behind(DeskOf(l, side), d', v, f, rest)
    ensures Gentle(ms) && After(l, ms) == WithDesk(l, side, d')
  {
    var d, amid := DeskOf(l, side), true;
    ms, d' := [], d;
    while amid
      invariant Gentle(ms) && After(l, ms) == WithDesk(l, side, d')
      invariant if amid then Amid(d', v, f, rest) && d'.out == d.out else Behind(d, d', v, f, rest)
      decreases |d'.inp|, amid
    {
      ByteHeard(d', v, f, rest);
      var next := Perform(d', Read(1));
      amid := Amid(next, v, f, rest) && next.out == d'.out;
      ms := ReadMoveOn(l, ms, side, d');
      d' := next;
    }
  }

  lemma TailInTransit(ch: seq<Packet>, f: Frame, rest: seq<Frame>)
    requires InTransit(ch, [f] + rest)
    ensures ch != [] && ch[0].Intact? && ch[0].frame == f && InTransit(ch[1..], rest)
  {
    assert ch[0].frame == ([f] + rest)[0];
    assert forall k :: 0 <= k < |rest| ==> ch[1..][k] == ch[k + 1] && ([f] + rest)[k + 1] == rest[k];
  }

  lemma DeliverIs(e: End, f: Frame)
    requires e.inp != [] && e.inp[0].Intact? && e.inp[0].frame == f
    ensures var e' := Do(Live.Reading(e), E.OnEvent(Awake(e.node).ep, Accept(f)), e.inp[0].id);
            Local(e, Deliver) == e' && e'.inp == e.inp[1..]
  {
  }

  lemma BehindFollows(d: Desk, d': Desk, peer: RxState, e: End, fo: seq<Frame>, f: Frame, rest: seq<Frame>)
    requires Behind(d, d', e.node, f, rest) && InTransit(e.out, fo) && InStep(peer, d.out, fo)
    requires InTransit(e.inp, [f] + rest)
    ensures Follows(d', peer, Local(e, Deliver), fo + Transmitted(E.OnEvent(Awake(e.node).ep, Accept(f)).out), rest)
  {
    TailInTransit(e.inp, f, rest);
    DeliverIs(e, f);
    OutFollows(peer, d.out, Live.Reading(e), fo, E.OnEvent(Awake(e.node).ep, Accept(f)), e.inp[0].id);
  }

  /** All the bytes of the next frame amount to its delivery. */
  lemma DeliverFollows(l: Wires, side: Side, peer: RxState, e: End, fo: seq<Frame>, f: Frame, rest: seq<Frame>)
      returns (ms: seq<Move>, d': Desk)
    requires Follows(DeskOf(l, side), peer, e, fo, [f] + rest)
    ensures Follows(d', peer, Local(e, Deliver), fo + Transmitted(E.OnEvent(Awake(e.node).ep, Accept(f)).out), rest)
    ensures Gentle(ms) && After(l, ms) == WithDesk(l, side, d')
  {
    var d := DeskOf(l, side);
    StagedIsPart(Rx(d.me).staged, Unescape(Rx(d.me).esc, d.inp), f, rest);
    ms, d' := FrameRead(l, side, e.node, f, rest);
    BehindFollows(d, d', peer, e, fo, f, rest);
  }

  // ------------------------------------------------------- a whole schedule

  /** Wires and net at the same point, with frames fa and fb on their way. */
  ghost predicate Tracks(l: Wires, n: Net, fa: seq<Frame>, fb: seq<Frame>) {
    Follows(Desk(l.a, l.ab, l.ba), Rx(l.b), End(n.a, n.ab, n.ba), fa, fb) && Plays(TalkOf(l.b), n.b)
  }

  ghost predicate TracksFromB(l: Wires, n: Net, fa: seq<Frame>, fb: seq<Frame>) {
    Follows(Desk(l.b, l.ba, l.ab), Rx(l.a), End(n.b, n.ba, n.ab), fb, fa) && Plays(TalkOf(l.a), n.a)
  }

  lemma EitherView(l: Wires, n: Net, fa: seq<Frame>, fb: seq<Frame>)
    ensures Tracks(l, n, fa, fb) <==> TracksFromB(l, n, fa, fb)
  {
  }

  lemma {:induction false} AfterConcat(l: Wires, ms: seq<Move>, ws: seq<Move>)
    ensures After(l, ms + ws) == After(After(l, ms), ws)
    decreases |ws|
  {
    if ws == [] {
      assert ms + ws == ms;
    } else {
      var init, w := ws[..|ws| - 1], ws[|ws| - 1];
      AfterConcat(l, ms, init);
      MovesMore(ms, ws);
      AfterSnoc(l, ms + init, w);
    }
  }

  lemma MovesMore(ms: seq<Move>, ws: seq<Move>)
    requires ws != []
    ensures ms + ws == (ms + ws[..|ws| - 1]) + [ws[|ws| - 1]]
  {
  }

  lemma TracksA(l: Wires, n: Net, d: Desk, x: Action, fa: seq<Frame>, fb: seq<Frame>)
    requires Follows(d, Rx(l.b), Local(End(n.a, n.ab, n.ba), x), fa, fb) && Plays(TalkOf(l.b), n.b)
    ensures Tracks(WithDesk(l, A, d), Step(n, Event(A, x)), fa, fb)
  {
  }

  lemma TracksB(l: Wires, n: Net, d: Desk, x: Action, fa: seq<Frame>, fb: seq<Frame>)
    requires Follows(d, Rx(l.a), Local(End(n.b, n.ba, n.ab), x), fb, fa) && Plays(TalkOf(l.a), n.a)
    ensures Tracks(WithDesk(l, B, d), Step(n, Event(B, x)), fa, fb)
  {
    EitherView(WithDesk(l, B, d), Step(n, Event(B, x)), fa, fb);
  }

  lemma ClockMove(l: Wires, side: Side) returns (ms: seq<Move>)
    ensures Gentle(ms) && After(l, ms) == WithDesk(l, side, Perform(DeskOf(l, side), Clock))
  {
    ms := [Move(side, Clock)];
    AfterSnoc(l, [], Move(side, Clock));
    assert [] + [Move(side, Clock)] == ms;
  }

  lemma TickTracked(l: Wires, n: Net, fa: seq<Frame>, fb: seq<Frame>, side: Side)
      returns (ms: seq<Move>, fa': seq<Frame>, fb': seq<Frame>)
    requires Tracks(l, n, fa, fb)
    ensures Gentle(ms) && Tracks(After(l, ms), Step(n, Event(side, Tick)), fa', fb')
  {
    ms := ClockMove(l, side);
    fa', fb' := fa, fb;
    var d := Perform(DeskOf(l, side), Clock);
    match side
    case A =>
      fa' := fa + Transmitted(E.OnTick(n.a.ep).out);
      TickFollows(Desk(l.a, l.ab, l.ba), Rx(l.b), End(n.a, n.ab, n.ba), fa, fb);
      TracksA(l, n, d, Tick, fa', fb');
    case B =>
      EitherView(l, n, fa, fb);
      fb' := fb + Transmitted(E.OnTick(n.b.ep).out);
      TickFollows(Desk(l.b, l.ba, l.ab), Rx(l.a), End(n.b, n.ba, n.ab), fb, fa);
      TracksB(l, n, d, Tick, fa', fb');
  }

  lemma DeliveryToA(l: Wires, n: Net, fa: seq<Frame>, f: Frame, fb: seq<Frame>) returns (ms: seq<Move>, fa': seq<Frame>)
    requires Tracks(l, n, fa, [f] + fb)
    ensures Gentle(ms) && Tracks(After(l, ms), Step(n, Event(A, Deliver)), fa', fb)
  {
    var d;
    fa' := fa + Transmitted(E.OnEvent(Awake(n.a).ep, Accept(f)).out);
    ms, d := DeliverFollows(l, A, Rx(l.b), End(n.a, n.ab, n.ba), fa, f, fb);
    TracksA(l, n, d, Deliver, fa', fb);
  }

  lemma DeliveryToB(l: Wires, n: Net, f: Frame, fa: seq<Frame>, fb: seq<Frame>) returns (ms: seq<Move>, fb': seq<Frame>)
    requires Tracks(l, n, [f] + fa, fb)
    ensures Gentle(ms) && Tracks(After(l, ms), Step(n, Event(B, Deliver)), fa, fb')
  {
    var d;
    EitherView(l, n, [f] + fa, fb);
    fb' := fb + Transmitted(E.OnEvent(Awake(n.b).ep, Accept(f)).out);
    ms, d := DeliverFollows(l, B, Rx(l.a), End(n.b, n.ba, n.ab), fb, f, fa);
    TracksB(l, n, d, Deliver, fa, fb');
  }

  lemma DeliveryTracked(l: Wires, n: Net, fa: seq<Frame>, fb: seq<Frame>, side: Side)
      returns (ms: seq<Move>, fa': seq<Frame>, fb': seq<Frame>)
    requires Tracks(l, n, fa, fb) && (if side.A? then fb else fa) != []
    ensures Gentle(ms) && Tracks(After(l, ms), Step(n, Event(side, Deliver)), fa', fb')
  {
    match side
    case A =>
      fb' := fb[1..];
      assert fb == [fb[0]] + fb';
      ms, fa' := DeliveryToA(l, n, fa, fb[0], fb');
    case B =>
      fa' := fa[1..];
      assert fa == [fa[0]] + fa';
      ms, fb' := DeliveryToB(l, n, fa[0], fa', fb);
  }

  lemma NothingToDeliver(n: Net, side: Side)
    requires (if side.A? then n.ba else n.ab) == []
    ensures Step(n, Event(side, Deliver)) == n
  {
  }

  lemma EventTracked(l: Wires, n: Net, fa: seq<Frame>, fb: seq<Frame>, x: Event)
      returns (ms: seq<Move>, fa': seq<Frame>, fb': seq<Frame>)
    requires Tracks(l, n, fa, fb) && (x.action.Deliver? || x.action.Tick?)
    ensures Gentle(ms) && Tracks(After(l, ms), Step(n, x), fa', fb')
  {
    if x.action.Tick? {
      ms, fa', fb' := TickTracked(l, n, fa, fb, x.side);
    } else if (if x.side.A? then fb else fa) != [] {
      ms, fa', fb' := DeliveryTracked(l, n, fa, fb, x.side);
    } else {
      NothingToDeliver(n, x.side);
      ms, fa', fb' := [], fa, fb;
    }
  }

  /** Every schedule of deliveries and ticks can be had with bytes. */
  lemma {:induction false} ScheduleTracked(l: Wires, n: Net, fa: seq<Frame>, fb: seq<Frame>, xs: seq<Event>)
      returns (ms: seq<Move>, fa': seq<Frame>, fb': seq<Frame>)
    requires Tracks(l, n, fa, fb) && Live.Lossless(xs)
    ensures Gentle(ms) && Tracks(After(l, ms), RunFrom(n, xs), fa', fb')
    decreases |xs|
  {
    if xs == [] {
      ms, fa', fb' := [], fa, fb;
    } else {
      var init, x := xs[..|xs| - 1], xs[|xs| - 1];
      assert x in xs;
      var ws;
      ms, fa', fb' := ScheduleTracked(l, n, fa, fb, init);
      ws, fa', fb' := EventTracked(After(l, ms), RunFrom(n, init), fa', fb', x);
      AfterConcat(l, ms, ws);
      ms := ms + ws;
    }
  }

  // ------------------------------------------- the net behind a byte-level run

  lemma {:induction false} LoseAt(side: Side, e: End, y: Node, xs: seq<Event>, keep: seq<Packet>, todo: seq<Packet>, k: nat)
      returns (ys: seq<Event>)
    requires Reaches(xs, Joined(side, e.(inp := keep + todo), y)) && k <= |todo|
    ensures Reaches(ys, Joined(side, e.(inp := keep + todo[k..]), y))
    decreases k
  {
    if k == 0 {
      ys := xs;
      assert todo[0..] == todo;
    } else {
      assert Apply(keep + todo, Lose(|keep|)) == keep + todo[1..];
      ys := TamperWith(xs, side, e.(inp := keep + todo), y, Lose(|keep|));
      ys := LoseAt(side, e, y, ys, keep, todo[1..], k - 1);
      assert todo[1..][k - 1..] == todo[k..];
    }
  }

  /** Of the frames that may still be heard, all but the given ones are lost. */
  lemma {:induction false} KeepOnly(side: Side, e: End, y: Node, xs: seq<Event>, keep: seq<Packet>, todo: seq<Packet>,
                                    spoken: seq<Frame>, heard: seq<Frame>, done: seq<Frame>, fs: seq<Frame>)
      returns (ys: seq<Event>, ch: seq<Packet>)
    requires Reaches(xs, Joined(side, e.(inp := keep + todo), y))
    requires Awaited(todo, spoken, heard) && Upto(heard + fs, spoken) <= |spoken| && InTransit(keep, done)
    ensures Reaches(ys, Joined(side, e.(inp := ch), y)) && InTransit(ch, done + fs)
    decreases |fs|
  {
    if fs == [] {
      ys := LoseAt(side, e, y, xs, keep, todo, |todo|);
      ch := keep;
      assert keep + todo[|todo|..] == keep && done + fs == done;
    } else {
      var f, rest := fs[0], fs[1..];
      SplitFrames(heard, fs);
      SplitFrames(done, fs);
      UptoPrefix(heard + [f], rest, spoken);
      var skip := Skipped(spoken, heard, f);
      HeardNext(todo, spoken, heard, f);
      KeptOne(keep, todo, skip, done, f);
      ys := LoseAt(side, e, y, xs, keep, todo, skip);
      ys, ch := KeepOnly(side, e, y, ys, keep + [todo[skip]], todo[skip + 1..], spoken, heard + [f], done + [f], rest);
    }
  }

  lemma SplitFrames(before: seq<Frame>, fs: seq<Frame>)
    requires fs != []
    ensures before + fs == (before + [fs[0]]) + fs[1..]
  {
  }

  lemma KeptOne(keep: seq<Packet>, todo: seq<Packet>, skip: nat, done: seq<Frame>, f: Frame)
    requires skip < |todo| && todo[skip].Intact? && todo[skip].frame == f && InTransit(keep, done)
    ensures keep + todo[skip..] == (keep + [todo[skip]]) + todo[skip + 1..]
    ensures InTransit(keep + [todo[skip]], done + [f])
  {
  }

  lemma KeepOnLine(side: Side, me: Talk, peer: Talk, e: End, y: Node, xs: seq<Event>, fs: seq<Frame>)
      returns (ys: seq<Event>, ch: seq<Packet>)
    requires Reaches(xs, Joined(side, e, y)) && OnLine(peer, me, e.inp) && Drawn(me.heard + fs, Transmitted(peer.now.out))
    ensures Reaches(ys, Joined(side, e.(inp := ch), y)) && InTransit(ch, fs)
  {
    GenuineUpto(me.heard + fs, Transmitted(peer.now.out));
    assert [] + e.inp == e.inp && [] + fs == fs;
    ys, ch := KeepOnly(side, e, y, xs, [], e.inp, Transmitted(peer.now.out), me.heard, [], fs);
  }

  /** What is on each line was sent, after all that was heard from it. */
  ghost predicate Ahead(l: Wires, fa: seq<Frame>, fb: seq<Frame>) {
    && InStep(Rx(l.b), l.ab, fa) && Drawn(Heard(l.b) + fa, Spoken(l.a))
    && InStep(Rx(l.a), l.ba, fb) && Drawn(Heard(l.a) + fb, Spoken(l.b))
  }

  lemma RunTracked(ms: seq<Move>, fa: seq<Frame>, fb: seq<Frame>) returns (xs: seq<Event>, n: Net)
    requires GoodRun(ms) && Ahead(After(SILENT, ms), fa, fb)
    ensures Reaches(xs, n) && Tracks(After(SILENT, ms), n, fa, fb)
  {
    var l := After(SILENT, ms);
    xs, n := RunMatched(ms);
    var ch;
    xs, ch := KeepOnLine(B, TalkOf(l.b), TalkOf(l.a), End(n.b, n.ba, n.ab), n.a, xs, fa);
    n := n.(ab := ch);
    xs, ch := KeepOnLine(A, TalkOf(l.a), TalkOf(l.b), End(n.a, n.ab, n.ba), n.b, xs, fb);
    n := n.(ba := ch);
  }

  // -------------------------------------------------------------- delivery

  /** Nothing is queued, or the head frame has a retry left, or a copy of it or an
      answer to it is among the frames on the lines. */
  ghost predicate HopeOn(e: E.Endpoint, out: seq<Frame>, inp: seq<Frame>) {
    || Live.Ready(e)
    || (exists f :: f in out && !HasAck(f.flags) && f.seqno == e.queue[0].frame.seqno)
    || (exists f :: f in inp && HasAck(f.flags) && f.seqno == e.queue[0].frame.seqno && (HasChksum(f.flags) || !HasBusy(f.flags)))
  }

  lemma PacketOfFrame(ch: seq<Packet>, fs: seq<Frame>, f: Frame) returns (p: Packet)
    requires InTransit(ch, fs) && f in fs
    ensures p in ch && p.Intact? && p.frame == f
  {
    var k :| 0 <= k < |fs| && fs[k] == f;
    p := ch[k];
  }

  lemma HopeOnLines(e: End, fo: seq<Frame>, fi: seq<Frame>)
    requires InTransit(e.out, fo) && InTransit(e.inp, fi) && HopeOn(e.node.ep, fo, fi)
    ensures Live.Hope(e)
  {
    if !Live.Ready(e.node.ep) {
      var seqno := e.node.ep.queue[0].frame.seqno;
      if f :| f in fo && !HasAck(f.flags) && f.seqno == seqno {
        var p := PacketOfFrame(e.out, fo, f);
        assert Live.Carries(p, seqno);
      } else {
        var f :| f in fi && HasAck(f.flags) && f.seqno == seqno && (HasChksum(f.flags) || !HasBusy(f.flags));
        var p := PacketOfFrame(e.inp, fi, f);
        assert Live.Answers(p, seqno);
      }
    }
  }

  predicate StillRunning(l: Wires) { !l.a.now.ep.shutdown && !l.b.now.ep.shutdown }

  /** The queue empty, every request answered under its own number, and with
      SUCCESS since s. */
  ghost predicate Emptied(s: Station, s': Station) {
    && Live.Kept(NodeOf(s), NodeOf(s')) && s'.now.ep.queue == []
    && |NodeOf(s').hist.results| == |NodeOf(s).hist.sent|
    && forall k :: 0 <= k < |NodeOf(s').hist.results| ==> NodeOf(s').hist.results[k].id == k
  }

  /** What is reported and dispatched is true of both directions. */
  ghost predicate Truthful(l: Wires) {
    Faithful(NodeOf(l.a), NodeOf(l.b)) && Faithful(NodeOf(l.b), NodeOf(l.a))
  }

  lemma WiresEmptied(l: Wires, n: Net, l': Wires, n': Net)
    requires Plays(TalkOf(l.a), n.a) && Plays(TalkOf(l.b), n.b) && Plays(TalkOf(l'.a), n'.a) && Plays(TalkOf(l'.b), n'.b)
    requires Live.AllDelivered(n, n') && Inv(n') && Safe(n')
    requires |n'.a.hist.results| == |n.a.hist.sent| && |n'.b.hist.results| == |n.b.hist.sent|
    ensures Emptied(l.a, l'.a) && Emptied(l.b, l'.b) && Truthful(l')
  {
  }

  lemma TrackedDelivered(l: Wires, xs: seq<Event>, n: Net, fa: seq<Frame>, fb: seq<Frame>) returns (ws: seq<Move>)
    requires Reaches(xs, n) && Tracks(l, n, fa, fb) && StillRunning(l)
    requires HopeOn(l.a.now.ep, fa, fb) && HopeOn(l.b.now.ep, fb, fa)
    ensures Gentle(ws)
    ensures var l' := After(l, ws); Emptied(l.a, l'.a) && Emptied(l.b, l'.b) && StillRunning(l') && Truthful(l')
  {
    RunKeeps(xs);
    HopeOnLines(Live.ViewA(n), fa, fb);
    HopeOnLines(Live.ViewB(n), fb, fa);
    var ys := Live.EverythingDelivered(n);
    var fa', fb';
    ws, fa', fb' := ScheduleTracked(l, n, fa, fb, ys);
    WiresEmptied(l, n, After(l, ws), RunFrom(n, ys));
  }

  /** After any run over bytes, damaged or not, within the hypotheses of
      ReliableBytes: if neither side has stopped, each receiver is in step with
      its line, and neither head frame has lost all hope, then some schedule of
      one-byte reads and timer ticks ends every request of both sides in SUCCESS. */
  lemma BytesDelivered(ms: seq<Move>, fa: seq<Frame>, fb: seq<Frame>) returns (ws: seq<Move>)
    requires GoodRun(ms) && Ahead(After(SILENT, ms), fa, fb) && StillRunning(After(SILENT, ms))
    requires var l := After(SILENT, ms); HopeOn(l.a.now.ep, fa, fb) && HopeOn(l.b.now.ep, fb, fa)
    ensures Gentle(ws)
    ensures var (l, l') := (After(SILENT, ms), After(SILENT, ms + ws));
            Emptied(l.a, l'.a) && Emptied(l.b, l'.b) && StillRunning(l') && Truthful(l')
  {
    var xs, n := RunTracked(ms, fa, fb);
    ws := TrackedDelivered(After(SILENT, ms), xs, n, fa, fb);
    AfterConcat(SILENT, ms, ws);
  }

  // -------------------------------------------------------- undamaged lines

  lemma WholeFirst(a: seq<Byte>, b: seq<Byte>, e: seq<Byte>, more: seq<Byte>)
    requires a + b == e + more && |e| <= |a|
    ensures a == e + a[|e|..] && a[|e|..] + b == more
  {
    assert (a + b)[..|e|] == a[..|e|] && (e + more)[..|e|] == e;
    assert (a + b)[|e|..] == a[|e|..] + b && (e + more)[|e|..] == more;
  }

  lemma PartFirst(a: seq<Byte>, b: seq<Byte>, f: Frame, more: seq<Byte>)
    requires a + b == Encode(f) + more && |a| < |Encode(f)|
    ensures Events(a) == [] && Residue(a) == a
  {
    assert a == (a + b)[..|a|] == Encode(f)[..|a|];
    ProperPrefixWaits(a, f);
    WaitIsIdle(a);
  }

  lemma FrameThen(f: Frame, more: seq<Byte>)
    ensures Accepted(Events(Encode(f) + more)) == [f] + Accepted(Events(more))
    ensures Residue(Encode(f) + more) == Residue(more)
  {
    HeadOfFrame(f, more);
    Stream.AcceptedCons(Accept(f), Events(more));
  }

  /** A receiver that has read part of a stream of frames is in step with the rest. */
  lemma {:induction false} PartlyRead(a: seq<Byte>, b: seq<Byte>, fs: seq<Frame>) returns (rest: seq<Frame>)
    requires a + b == EncodeAll(fs)
    ensures fs == Accepted(Events(a)) + rest && Residue(a) + b == EncodeAll(rest)
    decreases |fs|
  {
    rest := fs;
    if fs == [] {
      assert a == [] && Events([]) == [];
    } else {
      var f := fs[0];
      var n := |Encode(f)|;
      if |a| < n {
        PartFirst(a, b, f, EncodeAll(fs[1..]));
        assert [] + fs == fs;
      } else {
        WholeFirst(a, b, Encode(f), EncodeAll(fs[1..]));
        rest := PartlyRead(a[n..], b, fs[1..]);
        FrameThen(f, a[n..]);
        assert fs == [f] + fs[1..];
      }
    }
  }

  lemma FlowingInStep(s: Station, r: Station, ch: seq<Byte>) returns (rest: seq<Frame>)
    requires Flowing(s, r, ch)
    ensures Spoken(s) == Heard(r) + rest && InStep(Rx(r), ch, rest)
  {
    UnescapeWireAll(Spoken(s));
    UnescapeConcat(false, r.read, ch);
    assert [] + Unescape(false, r.read) == Unescape(false, r.read);
    rest := PartlyRead(Unescape(false, r.read), Unescape(EscState(false, r.read), ch), Spoken(s));
  }

  ghost predicate CalmWires(ms: seq<Move>) {
    Calmly(After(SILENT, ms)) && (ms != [] ==> CalmWires(ms[..|ms| - 1]))
  }

  lemma {:induction false} UndamagedGood(ms: seq<Move>)
    requires Undamaged(ms) && CalmWires(ms)
    ensures GoodRun(ms)
  {
    UndamagedIsGenuine(ms);
    if ms != [] {
      UndamagedGood(ms[..|ms| - 1]);
    }
  }

  lemma SameRest(heard: seq<Frame>, a: seq<Frame>, b: seq<Frame>)
    requires heard + a == heard + b
    ensures a == b
  {
    assert (heard + a)[|heard|..] == a && (heard + b)[|heard|..] == b;
  }

  /** Over lines that were never damaged nothing else is needed: what has been sent
      and not yet heard is on the line, and the receivers are in step with it. */
  lemma UndamagedDelivered(ms: seq<Move>, fa: seq<Frame>, fb: seq<Frame>) returns (ws: seq<Move>)
    requires Undamaged(ms) && CalmWires(ms) && StillRunning(After(SILENT, ms))
    requires var l := After(SILENT, ms);
      && Spoken(l.a) == Heard(l.b) + fa && Spoken(l.b) == Heard(l.a) + fb
      && HopeOn(l.a.now.ep, fa, fb) && HopeOn(l.b.now.ep, fb, fa)
    ensures Gentle(ws)
    ensures var (l, l') := (After(SILENT, ms), After(SILENT, ms + ws));
            Emptied(l.a, l'.a) && Emptied(l.b, l'.b) && StillRunning(l') && Truthful(l')
  {
    var l := After(SILENT, ms);
    UndamagedGood(ms);
    RunFlows(ms);
    var ra := FlowingInStep(l.a, l.b, l.ab);
    var rb := FlowingInStep(l.b, l.a, l.ba);
    SameRest(Heard(l.b), ra, fa);
    SameRest(Heard(l.a), rb, fb);
    DrawnWhole(Spoken(l.a));
    DrawnWhole(Spoken(l.b));
    ws := BytesDelivered(ms, fa, fb);
  }

  // ------------------------------------------------------------ end to end

  lemma Asked(data: Payload)
    ensures var l := After(SILENT, [Move(A, Ask(data))]);
            && NodeOf(l.a).hist == E.Hist([data], [], []) && |l.a.now.ep.queue| == 1 && Live.Ready(l.a.now.ep)
            && l.b == NEW && l.a.read == [] && Spoken(l.a) == [] && StillRunning(l)
            && Undamaged([Move(A, Ask(data))]) && CalmWires([Move(A, Ask(data))])
  {
    var m := Move(A, Ask(data));
    AfterSnoc(SILENT, [], m);
    assert [] + [m] == [m] && [m][..0] == [];
    FeedOne(Desk(NEW, [], []), E.Request(data));
    E.RecordLast(E.NO_HIST, E.Queued(0, data));
    assert [] + [E.Queued(0, data)] == [E.Queued(0, data)];
    TransmittedSnoc([], E.Queued(0, data));
  }

  lemma {:induction false} Climbs(ids: seq<int>)
    requires Increasing(ids) && ids != [] && ids[0] >= 0
    ensures ids[|ids| - 1] >= |ids| - 1
  {
    if |ids| > 1 {
      Climbs(ids[..|ids| - 1]);
      assert ids[|ids| - 2] < ids[|ids| - 1];
    }
  }

  lemma JustOne(ids: seq<int>, results: seq<E.Resolution>, got: seq<Payload>, data: Payload)
    requires Names(ids, [data], got) && Confirmed(ids, results) && results == [E.Resolution(0, SUCCESS)]
    ensures got == [data]
  {
    assert results[0].result.SUCCESS?;
    assert results[0].id in ids;
    Climbs(ids);
    assert got[0] == [data][ids[0]];
  }

  lemma OnlyOne(s: Station, s': Station, r: Station, data: Payload)
    requires NodeOf(s).hist == E.Hist([data], [], []) && Emptied(s, s') && Faithful(NodeOf(s'), NodeOf(r))
    ensures NodeOf(r).hist.got == [data] && NodeOf(s').hist.results == [E.Resolution(0, SUCCESS)]
  {
    var results, got := NodeOf(s').hist.results, NodeOf(r).hist.got;
    assert results == [E.Resolution(0, SUCCESS)];
    var ids :| Names(ids, [data], got) && Confirmed(ids, results);
    JustOne(ids, results, got, data);
  }

  /** From two objects just started: whatever payload is asked for, some schedule of
      one-byte reads and ticks has the other side dispatch it, once and unchanged,
      and the promise set to SUCCESS. */
  lemma AnyPayloadArrives(data: Payload) returns (ws: seq<Move>)
    ensures Gentle(ws)
    ensures var l := After(SILENT, [Move(A, Ask(data))] + ws);
            NodeOf(l.b).hist.got == [data] && NodeOf(l.a).hist.results == [E.Resolution(0, SUCCESS)]
  {
    var ms := [Move(A, Ask(data))];
    Asked(data);
    ws := UndamagedDelivered(ms, [], []);
    OnlyOne(After(SILENT, ms).a, After(SILENT, ms + ws).a, After(SILENT, ms + ws).b, data);
  }
}
