/** Two endpoints joined by two channels that keep order but may lose, duplicate
    and damage frames: what the 8-bit stop-and-wait protocol guarantees over
    whole runs (sircon.cpp). */
module Arq {
  import opened Scp
  import opened Codec
  import opened Framer
  import Stream
  import E = Endpoint

  /** A frame in flight, or a stretch of damaged bytes, given by what the parser
      will report on them: bad checksums, skips, and perhaps frames hidden there.
      The id records which request a data frame carries or an acknowledgement
      answers; no endpoint ever looks at it. */
  datatype Packet = Intact(frame: Frame, id: int) | Damaged(reports: seq<RxEvent>)

  /** An endpoint with its history, and the ids of the payloads it dispatched. */
  datatype Node = Node(ep: E.Endpoint, hist: E.Hist, gotIds: seq<int>)

  /** The two nodes and the channels a -> b and b -> a, oldest packet first. */
  datatype Net = Net(a: Node, b: Node, ab: seq<Packet>, ba: seq<Packet>)

  const START := Node(E.INIT, E.NO_HIST, [])
  const INIT := Net(START, START, [], [])

  /** What can happen inside a channel. Damage to a frame is its loss, plus noise
      in its place (Wired.RunMatched says why that is all). */
  datatype Edit = Lose(at: nat) | Duplicate(at: nat) | Noise(at: nat, reports: seq<RxEvent>)

  datatype Action =
    | Request(data: Payload)
    | Tick
    | Probe
    | Deliver
    | AnswerBusy
    | Tamper(edit: Edit)

  datatype Side = A | B

  datatype Event = Event(side: Side, action: Action)

  function Apply(ch: seq<Packet>, e: Edit): seq<Packet> {
    match e
    case Lose(i) => if i < |ch| then ch[..i] + ch[i + 1..] else ch
    case Duplicate(i) => if i < |ch| then ch[..i + 1] + ch[i..] else ch
    case Noise(i, es) => if i <= |ch| then ch[..i] + [Damaged(es)] + ch[i..] else ch
  }

  /** The packets a step puts on the outgoing channel. */
  function Emit(out: seq<E.Effect>, id: int): seq<Packet> {
    if out == [] then [] else Emit(out[..|out| - 1], id) + PacketOf(out[|out| - 1], id)
  }

  function PacketOf(x: E.Effect, id: int): seq<Packet> {
    match x
    case TxFrame(n, f) => [Intact(f, n)]
    case TxAck(f) => [Intact(f, id)]
    case _ => []
  }

  /** One side's view: its node, its outgoing and its incoming channel. */
  datatype End = End(node: Node, out: seq<Packet>, inp: seq<Packet>)

  function Do(e: End, t: E.Turn, id: int): End {
    var h := E.RecordAll(e.node.hist, t.out);
    End(Node(t.ep, h, if |h.got| > |e.node.hist.got| then e.node.gotIds + [id] else e.node.gotIds),
        e.out + Emit(t.out, id), e.inp)
  }

  /** Reading bytes marks the link alive before they are parsed. */
  function Awake(n: Node): Node { n.(ep := E.Step(n.ep, E.BytesRead).ep) }

  /** The reports on damaged bytes, acted on one after the other. A frame among
      them answers no request: nobody sent it. */
  function Heed(e: End, es: seq<RxEvent>): End {
    if es == [] then e
    else
      var e' := Heed(e, es[..|es| - 1]);
      Do(e', E.OnEvent(e'.node.ep, es[|es| - 1]), -1)
  }

  function Receive(e: End, p: Packet): End {
    var e' := e.(node := Awake(e.node));
    match p
    case Intact(f, id) => Do(e', E.OnEvent(e'.node.ep, Accept(f)), id)
    case Damaged(es) => Heed(e', es)
  }

  predicate IsData(p: Packet) { p.Intact? && !HasAck(p.frame.flags) }
  predicate IsPositive(p: Packet) { p.Intact? && E.IsPositive(p.frame.flags) }

  function Local(e: End, x: Action): End {
    match x
    case Request(data) => Do(e, E.OnRequest(e.node.ep, data), 0)
    case Tick => Do(e, E.OnTick(e.node.ep), 0)
    case Probe => Do(e, E.Step(e.node.ep, E.IdleProbe), 0)
    case Deliver => if e.inp == [] then e else Receive(e.(inp := e.inp[1..]), e.inp[0])
    case AnswerBusy =>
      // a radio may refuse a data frame; the daemon itself never does
      if e.inp == [] || !IsData(e.inp[0]) then e
      else End(e.node, e.out + [Intact(Frame(e.inp[0].frame.seqno, SF_ACK + SF_BUSY, []), 0)], e.inp[1..])
    case Tamper(edit) => e.(out := Apply(e.out, edit))
  }

  function Step(n: Net, x: Event): Net {
    match x.side
    case A => var e := Local(End(n.a, n.ab, n.ba), x.action); Net(e.node, n.b, e.out, e.inp)
    case B => var e := Local(End(n.b, n.ba, n.ab), x.action); Net(n.a, e.node, e.inp, e.out)
  }

  function RunFrom(n: Net, xs: seq<Event>): Net {
    if xs == [] then n else Step(RunFrom(n, xs[..|xs| - 1]), xs[|xs| - 1])
  }

  function Run(xs: seq<Event>): Net { RunFrom(INIT, xs) }

  // ------------------------------------------------- what a channel can do

  function ApplyAll(ch: seq<Packet>, edits: seq<Edit>): seq<Packet> {
    if edits == [] then ch else Apply(ApplyAll(ch, edits[..|edits| - 1]), edits[|edits| - 1])
  }

  lemma OneMore(ch: seq<Packet>, edits: seq<Edit>, e: Edit)
    ensures ApplyAll(ch, edits + [e]) == Apply(ApplyAll(ch, edits), e)
  {
    assert (edits + [e])[..|edits|] == edits;
  }

  /** Packets of a channel in their order, each as often as the line likes, with
      damaged stretches anywhere between. */
  ghost predicate Arrives(ch: seq<Packet>, from: nat, target: seq<Packet>)
    requires from <= |ch|
    decreases |target|
  {
    target != [] ==>
      if target[0].Damaged? then Arrives(ch, from, target[1..])
      else exists k :: from <= k < |ch| && ch[k] == target[0] && Arrives(ch, k, target[1..])
  }

  lemma {:induction false} LoseNext(ch: seq<Packet>, edits: seq<Edit>, keep: seq<Packet>, rest: seq<Packet>, n: nat)
      returns (more: seq<Edit>)
    requires ApplyAll(ch, edits) == keep + rest && n <= |rest|
    ensures ApplyAll(ch, more) == keep + rest[n..]
    decreases n
  {
    if n == 0 {
      more := edits;
      assert rest[0..] == rest;
    } else {
      OneMore(ch, edits, Lose(|keep|));
      assert Apply(keep + rest, Lose(|keep|)) == keep + rest[1..];
      more := LoseNext(ch, edits + [Lose(|keep|)], keep, rest[1..], n - 1);
      assert rest[1..][n - 1..] == rest[n..];
    }
  }

  lemma NoiseNext(ch: seq<Packet>, edits: seq<Edit>, keep: seq<Packet>, rest: seq<Packet>, es: seq<RxEvent>)
      returns (more: seq<Edit>)
    requires ApplyAll(ch, edits) == keep + rest
    ensures ApplyAll(ch, more) == (keep + [Damaged(es)]) + rest
  {
    more := edits + [Noise(|keep|, es)];
    OneMore(ch, edits, Noise(|keep|, es));
    NoiseBehind(keep, rest, es);
  }

  /** One more copy of the packet at a place not passed yet. */
  lemma CopyNext(ch: seq<Packet>, edits: seq<Edit>, keep: seq<Packet>, from: nat, at: nat)
      returns (more: seq<Edit>)
    requires from <= at < |ch| && ApplyAll(ch, edits) == keep + ch[from..]
    ensures ApplyAll(ch, more) == (keep + [ch[at]]) + ch[at..]
  {
    more := LoseNext(ch, edits, keep, ch[from..], at - from);
    assert ch[from..][at - from..] == ch[at..];
    OneMore(ch, more, Duplicate(|keep|));
    RepeatBehind(keep, ch[at..]);
    more := more + [Duplicate(|keep|)];
  }

  lemma LoseTheRest(ch: seq<Packet>, edits: seq<Edit>, keep: seq<Packet>, from: nat) returns (more: seq<Edit>)
    requires from <= |ch| && ApplyAll(ch, edits) == keep + ch[from..]
    ensures ApplyAll(ch, more) == keep
  {
    more := LoseNext(ch, edits, keep, ch[from..], |ch| - from);
    assert keep + ch[from..][|ch| - from..] == keep;
  }

  lemma SplitTarget(keep: seq<Packet>, target: seq<Packet>)
    requires target != []
    ensures keep + target == (keep + [target[0]]) + target[1..]
  {
  }

  /** And each of these can be brought about: the model of a line loses, repeats and
      damages whatever a line may. */
  lemma {:induction false} AnyEdits(ch: seq<Packet>, edits: seq<Edit>, keep: seq<Packet>, from: nat, target: seq<Packet>)
      returns (more: seq<Edit>)
    requires from <= |ch| && Arrives(ch, from, target) && ApplyAll(ch, edits) == keep + ch[from..]
    ensures ApplyAll(ch, more) == keep + target
    decreases |target|
  {
    if target == [] {
      more := LoseTheRest(ch, edits, keep, from);
      assert keep + target == keep;
    } else {
      SplitTarget(keep, target);
      if target[0].Damaged? {
        more := NoiseNext(ch, edits, keep, ch[from..], target[0].reports);
        more := AnyEdits(ch, more, keep + [target[0]], from, target[1..]);
      } else {
        var at :| from <= at < |ch| && ch[at] == target[0] && Arrives(ch, at, target[1..]);
        more := CopyNext(ch, edits, keep, from, at);
        more := AnyEdits(ch, more, keep + [target[0]], at, target[1..]);
      }
    }
  }

  lemma NoiseBehind(keep: seq<Packet>, rest: seq<Packet>, es: seq<RxEvent>)
    ensures Apply(keep + rest, Noise(|keep|, es)) == (keep + [Damaged(es)]) + rest
  {
  }

  lemma RepeatBehind(keep: seq<Packet>, rest: seq<Packet>)
    requires rest != []
    ensures Apply(keep + rest, Duplicate(|keep|)) == (keep + [rest[0]]) + rest
  {
  }

  /** What a line can make of what is on it, in as many edits as it takes. */
  lemma AnyLine(ch: seq<Packet>, target: seq<Packet>) returns (edits: seq<Edit>)
    requires Arrives(ch, 0, target)
    ensures ApplyAll(ch, edits) == target
  {
    assert [] + ch[0..] == ch && [] + target == target;
    edits := AnyEdits(ch, [], [], 0, target);
  }

  /** And a peer may put off a data frame: a busy answer (0x82) goes back. */
  lemma PutOff(n: Net, f: Frame, id: int, rest: seq<Packet>)
    requires n.ab == [Intact(f, id)] + rest && f.flags / 0x80 % 2 == 0
    ensures Step(n, Event(B, AnswerBusy)) == n.(ab := rest, ba := n.ba + [Intact(Frame(f.seqno, 0x82, []), 0)])
  {
  }

  // ------------------------------------------------------------------ safety

  ghost predicate Increasing(ids: seq<int>) {
    forall i, j :: 0 <= i < j < |ids| ==> ids[i] < ids[j]
  }

  /** The ids name, in increasing order, the requests whose payloads were
      dispatched. */
  ghost predicate Names(ids: seq<int>, sent: seq<Payload>, got: seq<Payload>) {
    && Increasing(ids) && |ids| == |got|
    && forall j :: 0 <= j < |ids| ==> 0 <= ids[j] < |sent| && got[j] == sent[ids[j]]
  }

  ghost predicate Confirmed(ids: seq<int>, results: seq<E.Resolution>) {
    forall n :: 0 <= n < |results| && results[n].result.SUCCESS? ==> results[n].id in ids
  }

  /** The payloads r dispatched are an in-order, duplicate-free selection of
      those s was asked to send, and every one s reports as SUCCESS is in it
      (once, the ids being distinct). */
  ghost predicate Faithful(s: Node, r: Node) {
    exists ids :: Names(ids, s.hist.sent, r.hist.got) && Confirmed(ids, s.hist.results)
  }

  ghost predicate Safe(n: Net) { Faithful(n.a, n.b) && Faithful(n.b, n.a) }

  /** Index of the last SUCCESS, or -1. */
  function LastOk(rs: seq<E.Resolution>): (k: int)
    ensures -1 <= k < |rs|
  {
    if rs == [] then -1
    else if rs[|rs| - 1].result.SUCCESS? then |rs| - 1
    else LastOk(rs[..|rs| - 1])
  }

  /** How many timeouts in a row a node has seen up to now. */
  function TimeoutsInARow(n: Node): nat { |n.hist.results| - 1 - LastOk(n.hist.results) }

  predicate Calm(n: Net, bound: nat) {
    TimeoutsInARow(n.a) <= bound && TimeoutsInARow(n.b) <= bound
  }

  /** Nowhere along the run did a node see more than bound timeouts in a row. */
  predicate CalmRun(xs: seq<Event>, bound: nat) {
    Calm(Run(xs), bound) && (xs != [] ==> CalmRun(xs[..|xs| - 1], bound))
  }

  /** Noise in which the parser finds no frame. */
  ghost predicate Honest(x: Event) {
    x.action.Tamper? && x.action.edit.Noise? ==> Quiet(x.action.edit.reports)
  }

  /** Nowhere along the run do damaged bytes hide a frame. */
  ghost predicate HonestRun(xs: seq<Event>) { forall x :: x in xs ==> Honest(x) }

  // ---------------------------------------------------------------- channels

  /** No damaged stretch in the channel hides a frame. */
  ghost predicate Clean(ch: seq<Packet>) {
    forall p :: p in ch && p.Damaged? ==> Quiet(p.reports)
  }

  predicate Sel(p: Packet, data: bool) { if data then IsData(p) else IsPositive(p) }

  ghost predicate Sorted(ch: seq<Packet>, data: bool) {
    forall i, j :: 0 <= i < j < |ch| && Sel(ch[i], data) && Sel(ch[j], data) ==> ch[i].id <= ch[j].id
  }

  lemma LoseKeeps(ch: seq<Packet>, i: nat, data: bool)
    requires Sorted(ch, data) && i < |ch|
    ensures var ch' := ch[..i] + ch[i + 1..];
            Sorted(ch', data) && forall p :: p in ch' ==> p in ch
  {
    var ch' := ch[..i] + ch[i + 1..];
    forall k | 0 <= k < |ch'|
      ensures ch'[k] == ch[if k < i then k else k + 1]
    {
    }
  }

  lemma DuplicateKeeps(ch: seq<Packet>, i: nat, data: bool)
    requires Sorted(ch, data) && i < |ch|
    ensures var ch' := ch[..i + 1] + ch[i..];
            Sorted(ch', data) && forall p :: p in ch' ==> p in ch
  {
    var ch' := ch[..i + 1] + ch[i..];
    forall k | 0 <= k < |ch'|
      ensures ch'[k] == ch[if k <= i then k else k - 1]
    {
    }
  }

  lemma NoiseKeeps(ch: seq<Packet>, i: nat, es: seq<RxEvent>, data: bool)
    requires Sorted(ch, data) && i <= |ch|
    ensures var ch' := ch[..i] + [Damaged(es)] + ch[i..];
            Sorted(ch', data) && forall p :: p in ch' && p.Intact? ==> p in ch
  {
    var ch' := ch[..i] + [Damaged(es)] + ch[i..];
    forall k | 0 <= k < |ch'|
      ensures ch'[k] == if k == i then Damaged(es) else ch[if k < i then k else k - 1]
    {
    }
  }

  lemma EditKeeps(ch: seq<Packet>, e: Edit, data: bool)
    requires Sorted(ch, data)
    ensures Sorted(Apply(ch, e), data)
    ensures forall p :: p in Apply(ch, e) && p.Intact? ==> p in ch
  {
    match e
    case Lose(i) => if i < |ch| { LoseKeeps(ch, i, data); }
    case Duplicate(i) => if i < |ch| { DuplicateKeeps(ch, i, data); }
    case Noise(i, es) => if i <= |ch| { NoiseKeeps(ch, i, es, data); }
  }

  lemma PopKeeps(ch: seq<Packet>, data: bool)
    requires Sorted(ch, data) && ch != []
    ensures Sorted(ch[1..], data)
    ensures forall p :: p in ch[1..] ==> p in ch
    ensures Sel(ch[0], data) ==> forall p :: p in ch[1..] && Sel(p, data) ==> ch[0].id <= p.id
  {
  }

  lemma PushKeeps(ch: seq<Packet>, p: Packet, data: bool)
    requires Sorted(ch, data)
    requires Sel(p, data) ==> forall q :: q in ch && Sel(q, data) ==> q.id <= p.id
    ensures Sorted(ch + [p], data)
  {
  }

  // --------------------------------------------------------------- invariant

  function Last(ids: seq<int>): int { if ids == [] then -1 else ids[|ids| - 1] }

  ghost predicate DataOk(p: Packet, lo: int, first: nat, sent: seq<Payload>) {
    IsData(p) ==> lo <= p.id <= first && 0 <= p.id < |sent| && p.frame == E.FrameOf(sent, p.id)
  }

  ghost predicate AckOk(p: Packet, lo: int, gotIds: seq<int>) {
    IsPositive(p) ==> lo <= p.id && p.id in gotIds && p.frame.seqno == p.id % 0x100
  }

  ghost predicate FwdOk(ch: seq<Packet>, lo: int, first: nat, sent: seq<Payload>) {
    Sorted(ch, true) && forall p :: p in ch ==> DataOk(p, lo, first, sent)
  }

  ghost predicate BwdOk(ch: seq<Packet>, lo: int, gotIds: seq<int>) {
    Sorted(ch, false) && forall p :: p in ch ==> AckOk(p, lo, gotIds)
  }

  /** What the receiver has seen, against what the sender knows. */
  ghost predicate ViewOk(sent: seq<Payload>, results: seq<E.Resolution>, lastSeq: int, got: seq<Payload>, gotIds: seq<int>) {
    && Names(gotIds, sent, got) && Confirmed(gotIds, results)
    && LastOk(results) <= Last(gotIds) <= |results|
    && lastSeq == (if gotIds == [] then -1 else Last(gotIds) % 0x100)
  }

  /** One direction of traffic: data from s to r on fwd, answers on bwd. */
  ghost predicate Dir(s: Node, r: Node, fwd: seq<Packet>, bwd: seq<Packet>) {
    && E.Inv(s.ep, s.hist)
    && ViewOk(s.hist.sent, s.hist.results, r.ep.lastSeq, r.hist.got, r.gotIds)
    && FwdOk(fwd, Last(r.gotIds), |s.hist.results|, s.hist.sent)
    && BwdOk(bwd, LastOk(s.hist.results), r.gotIds)
  }

  ghost predicate Inv(n: Net) {
    && Dir(n.a, n.b, n.ab, n.ba) && Dir(n.b, n.a, n.ba, n.ab)
    && Clean(n.ab) && Clean(n.ba)
  }

  // ------------------------------------------------ what a step amounts to

  lemma EmitOne(x: E.Effect, id: int)
    ensures Emit([x], id) == PacketOf(x, id)
  {
    assert [x][..0] == [];
  }

  lemma DoNothing(e: End, t: E.Turn, id: int)
    requires t.out == []
    ensures Do(e, t, id) == e.(node := e.node.(ep := t.ep))
  {
    assert e.out + [] == e.out;
  }

  lemma DoOne(e: End, t: E.Turn, id: int, x: E.Effect)
    requires t.out == [x] && !x.Dispatch?
    ensures Do(e, t, id) == End(Node(t.ep, E.Record(e.node.hist, x), e.node.gotIds), e.out + PacketOf(x, id), e.inp)
    ensures E.RecordAll(e.node.hist, t.out) == E.Record(e.node.hist, x)
  {
    E.RecordLast(e.node.hist, x);
    EmitOne(x, id);
  }

  lemma DoAckDispatch(e: End, t: E.Turn, id: int, f: Frame, data: Payload)
    requires t.out == [E.TxAck(f), E.Dispatch(data)]
    ensures Do(e, t, id) == End(Node(t.ep, e.node.hist.(got := e.node.hist.got + [data]), e.node.gotIds + [id]),
                                e.out + [Intact(f, id)], e.inp)
  {
    E.RecordShort(e.node.hist, E.TxAck(f), E.Dispatch(data));
    assert [E.TxAck(f), E.Dispatch(data)][..1] == [E.TxAck(f)];
    EmitOne(E.TxAck(f), id);
  }

  // ------------------------------------------------------ a node as a sender

  ghost predicate SameReceiver(r: Node, r': Node) {
    r'.ep.lastSeq == r.ep.lastSeq && r'.hist.got == r.hist.got && r'.gotIds == r.gotIds
  }

  ghost predicate SameSender(s: Node, s': Node) {
    s'.ep.queue == s.ep.queue && s'.hist.sent == s.hist.sent && s'.hist.results == s.hist.results
  }

  /** A (re)transmitted frame is the one at the head of the queue. */
  lemma PushHead(s: Node, r: Node, fwd: seq<Packet>, bwd: seq<Packet>)
    requires Dir(s, r, fwd, bwd) && s.ep.queue != []
    ensures var p := Intact(s.ep.queue[0].frame, s.ep.queue[0].id);
            FwdOk(fwd + [p], Last(r.gotIds), |s.hist.results|, s.hist.sent) && IsData(p)
  {
    var p := Intact(s.ep.queue[0].frame, s.ep.queue[0].id);
    PushKeeps(fwd, p, true);
  }

  lemma SenderRequest(s: Node, r: Node, fwd: seq<Packet>, bwd: seq<Packet>, data: Payload)
    requires Dir(s, r, fwd, bwd)
    ensures var e := Do(End(s, fwd, bwd), E.OnRequest(s.ep, data), 0);
            Dir(e.node, r, e.out, e.inp) && e.out == fwd && e.inp == bwd && SameReceiver(s, e.node)
  {
    E.RequestKeepsInv(s.ep, s.hist, data);
    DoOne(End(s, fwd, bwd), E.OnRequest(s.ep, data), 0, E.Queued(s.ep.sent, data));
    assert fwd + [] == fwd;
  }

  lemma SenderTimeout(s: Node, r: Node, fwd: seq<Packet>, bwd: seq<Packet>, n: nat, s': Node)
    requires Dir(s, r, fwd, bwd)
    requires E.Inv(s'.ep, s'.hist) && s'.hist.sent == s.hist.sent && SameReceiver(s, s')
    requires s'.hist.results == s.hist.results + [E.Resolution(n, TIMEOUT)]
    ensures Dir(s', r, fwd, bwd)
  {
    assert s'.hist.results[..|s.hist.results|] == s.hist.results;
  }

  /** The head of the queue is sent (again); nothing else about s changes. */
  lemma SenderTransmit(s: Node, r: Node, fwd: seq<Packet>, bwd: seq<Packet>, s': Node)
    requires Dir(s, r, fwd, bwd) && s.ep.queue != []
    requires E.Inv(s'.ep, s'.hist) && s'.hist == s.hist
    ensures Dir(s', r, fwd + [Intact(s.ep.queue[0].frame, s.ep.queue[0].id)], bwd)
    ensures IsData(Intact(s.ep.queue[0].frame, s.ep.queue[0].id))
  {
    PushHead(s, r, fwd, bwd);
  }

  lemma SenderTick(s: Node, r: Node, fwd: seq<Packet>, bwd: seq<Packet>)
    requires Dir(s, r, fwd, bwd)
    ensures var e := Do(End(s, fwd, bwd), E.OnTick(s.ep), 0);
            && Dir(e.node, r, e.out, e.inp) && e.inp == bwd && SameReceiver(s, e.node)
            && AtMostOneFrame(fwd, e.out)
  {
    var t := E.OnTick(s.ep);
    E.TickKeepsInv(s.ep, s.hist);
    if t.out == [] {
      DoNothing(End(s, fwd, bwd), t, 0);
    } else {
      DoOne(End(s, fwd, bwd), t, 0, t.out[0]);
      SenderEffect(s, r, fwd, bwd, t, t.out[0]);
    }
  }

  /** A tick or a NAK gives up the head frame or transmits it. */
  lemma SenderEffect(s: Node, r: Node, fwd: seq<Packet>, bwd: seq<Packet>, t: E.Turn, x: E.Effect)
    requires Dir(s, r, fwd, bwd) && s.ep.queue != []
    requires x == E.Resolve(s.ep.queue[0].id, TIMEOUT) || x == E.TxFrame(s.ep.queue[0].id, s.ep.queue[0].frame)
    requires E.Inv(t.ep, E.Record(s.hist, x)) && t.ep.lastSeq == s.ep.lastSeq
    ensures var s' := Node(t.ep, E.Record(s.hist, x), s.gotIds);
            && Dir(s', r, fwd + PacketOf(x, 0), bwd) && SameReceiver(s, s')
            && AtMostOneFrame(fwd, fwd + PacketOf(x, 0))
  {
    var s' := Node(t.ep, E.Record(s.hist, x), s.gotIds);
    if x.Resolve? {
      assert fwd + [] == fwd;
      SenderTimeout(s, r, fwd, bwd, x.id, s');
    } else {
      SenderTransmit(s, r, fwd, bwd, s');
    }
  }

  /** The heart of it: with few enough timeouts behind it, an acknowledgement
      that matches the head's 8-bit sequence number is the head's own. */
  lemma AckIsForHead(s: Node, r: Node, fwd: seq<Packet>, bwd: seq<Packet>, p: Packet)
    requires Dir(s, r, fwd, bwd) && TimeoutsInARow(s) <= 254
    requires p in bwd && IsPositive(p) && s.ep.queue != []
    requires p.frame.seqno == s.ep.queue[0].frame.seqno
    ensures p.id == |s.hist.results| == s.ep.queue[0].id == Last(r.gotIds)
  {
    assert AckOk(p, LastOk(s.hist.results), r.gotIds);
    AtMostLast(r.gotIds, p.id);
    SameByte(p.id, |s.hist.results|);
  }

  lemma AtMostLast(ids: seq<int>, id: int)
    requires Increasing(ids) && id in ids
    ensures id <= Last(ids)
  {
  }

  /** Two numbers less than 256 apart that agree in their low byte are equal. */
  lemma SameByte(x: int, y: int)
    requires x <= y <= x + 255 && x % 0x100 == y % 0x100
    ensures x == y
  {
  }

  lemma SenderSuccess(s: Node, r: Node, fwd: seq<Packet>, bwd: seq<Packet>, s': Node)
    requires Dir(s, r, fwd, bwd) && TimeoutsInARow(s) <= 254
    requires bwd != [] && IsPositive(bwd[0]) && s.ep.queue != []
    requires bwd[0].frame.seqno == s.ep.queue[0].frame.seqno
    requires E.Inv(s'.ep, s'.hist) && s'.hist.sent == s.hist.sent && SameReceiver(s, s')
    requires s'.hist.results == s.hist.results + [E.Resolution(s.ep.queue[0].id, SUCCESS)]
    ensures Dir(s', r, fwd, bwd[1..])
  {
    AckIsForHead(s, r, fwd, bwd, bwd[0]);
    PopKeeps(bwd, false);
    var first := |s.hist.results|;
    assert first in r.gotIds;
    assert LastOk(s'.hist.results) == first;
    assert Confirmed(r.gotIds, s'.hist.results);
  }

  lemma PopBwd(s: Node, r: Node, fwd: seq<Packet>, bwd: seq<Packet>)
    requires Dir(s, r, fwd, bwd) && bwd != []
    ensures Dir(s, r, fwd, bwd[1..])
  {
    PopKeeps(bwd, false);
  }

  lemma PopFwd(s: Node, r: Node, fwd: seq<Packet>, bwd: seq<Packet>)
    requires Dir(s, r, fwd, bwd) && fwd != []
    ensures Dir(s, r, fwd[1..], bwd)
  {
    PopKeeps(fwd, true);
  }

  /** An acknowledgement frame of any kind, just taken from bwd. */
  lemma SenderAck(s: Node, r: Node, fwd: seq<Packet>, bwd: seq<Packet>)
    requires Dir(s, r, fwd, bwd) && TimeoutsInARow(s) <= 254
    requires bwd != [] && bwd[0].Intact? && HasAck(bwd[0].frame.flags)
    ensures var e := Do(End(s, fwd, bwd[1..]), E.OnAckFrame(s.ep, bwd[0].frame), bwd[0].id);
            && Dir(e.node, r, e.out, e.inp) && e.inp == bwd[1..] && SameReceiver(s, e.node)
            && AtMostOneFrame(fwd, e.out)
  {
    var f := bwd[0].frame;
    var t := E.OnAckFrame(s.ep, f);
    E.AckFrameKeepsInv(s.ep, s.hist, f);
    PopBwd(s, r, fwd, bwd);
    if t.out == [] {
      DoNothing(End(s, fwd, bwd[1..]), t, bwd[0].id);
    } else {
      var x := t.out[0];
      DoOne(End(s, fwd, bwd[1..]), t, bwd[0].id, x);
      if x.Resolve? {
        assert fwd + [] == fwd;
        SenderSuccess(s, r, fwd, bwd, Node(t.ep, E.Record(s.hist, x), s.gotIds));
      } else {
        SenderEffect(s, r, fwd, bwd[1..], t, x);
      }
    }
  }

  // ---------------------------------------------------- a node as a receiver

  /** And its mirror image: a data frame carrying the sequence number last seen
      is a copy of the frame last dispatched. */
  lemma DuplicateIsLast(s: Node, r: Node, fwd: seq<Packet>, bwd: seq<Packet>, p: Packet)
    requires Dir(s, r, fwd, bwd) && TimeoutsInARow(s) <= 254
    requires p in fwd && IsData(p)
    ensures p.frame.seqno == r.ep.lastSeq <==> p.id == Last(r.gotIds)
  {
    assert DataOk(p, Last(r.gotIds), |s.hist.results|, s.hist.sent);
    if r.gotIds != [] && p.frame.seqno == r.ep.lastSeq {
      SameByte(Last(r.gotIds), p.id);
    }
  }

  lemma ReceiverDuplicate(s: Node, r: Node, fwd: seq<Packet>, bwd: seq<Packet>, r': Node)
    requires Dir(s, r, fwd, bwd) && TimeoutsInARow(s) <= 254
    requires fwd != [] && IsData(fwd[0]) && fwd[0].frame.seqno == r.ep.lastSeq
    requires SameReceiver(r, r')
    ensures Dir(s, r', fwd[1..], bwd + [Intact(E.AckFor(fwd[0].frame.seqno), fwd[0].id)])
  {
    var p := Intact(E.AckFor(fwd[0].frame.seqno), fwd[0].id);
    DuplicateIsLast(s, r, fwd, bwd, fwd[0]);
    assert DataOk(fwd[0], Last(r.gotIds), |s.hist.results|, s.hist.sent);
    PopFwd(s, r, fwd, bwd);
    NewestAck(r.gotIds, bwd, LastOk(s.hist.results), p);
  }

  /** An acknowledgement of the frame dispatched last is the newest there is. */
  lemma NewestAck(gotIds: seq<int>, bwd: seq<Packet>, lo: int, p: Packet)
    requires BwdOk(bwd, lo, gotIds) && Increasing(gotIds) && gotIds != [] && lo <= Last(gotIds)
    requires p.Intact? && p.id == Last(gotIds) && p.frame.seqno == p.id % 0x100
    ensures BwdOk(bwd + [p], lo, gotIds)
  {
    forall q | q in bwd && IsPositive(q)
      ensures q.id <= p.id
    {
      assert AckOk(q, lo, gotIds);
    }
    PushKeeps(bwd, p, false);
  }

  lemma ReceiverNew(s: Node, r: Node, fwd: seq<Packet>, bwd: seq<Packet>, r': Node)
    requires Dir(s, r, fwd, bwd) && TimeoutsInARow(s) <= 254
    requires fwd != [] && IsData(fwd[0]) && fwd[0].frame.seqno != r.ep.lastSeq
    requires r'.ep.lastSeq == fwd[0].frame.seqno && r'.gotIds == r.gotIds + [fwd[0].id]
    requires r'.hist.got == r.hist.got + [fwd[0].frame.data]
    ensures Dir(s, r', fwd[1..], bwd + [Intact(E.AckFor(fwd[0].frame.seqno), fwd[0].id)])
  {
    var p := Intact(E.AckFor(fwd[0].frame.seqno), fwd[0].id);
    DuplicateIsLast(s, r, fwd, bwd, fwd[0]);
    assert DataOk(fwd[0], Last(r.gotIds), |s.hist.results|, s.hist.sent);
    PopKeeps(fwd, true);
    assert FwdOk(fwd[1..], Last(r'.gotIds), |s.hist.results|, s.hist.sent);
    forall q | q in bwd
      ensures AckOk(q, LastOk(s.hist.results), r'.gotIds)
    {
      assert AckOk(q, LastOk(s.hist.results), r.gotIds);
    }
    NewestAck(r'.gotIds, bwd, LastOk(s.hist.results), p);
    NamesMore(r.gotIds, s.hist.sent, r.hist.got, fwd[0].id);
  }

  lemma NamesMore(ids: seq<int>, sent: seq<Payload>, got: seq<Payload>, id: int)
    requires Names(ids, sent, got) && Last(ids) < id < |sent| && 0 <= id
    ensures Names(ids + [id], sent, got + [sent[id]])
  {
  }

  /** A data frame just taken from fwd: dispatched if new, acknowledged anyway. */
  lemma ReceiverData(s: Node, r: Node, fwd: seq<Packet>, bwd: seq<Packet>)
    requires Dir(s, r, fwd, bwd) && TimeoutsInARow(s) <= 254
    requires fwd != [] && IsData(fwd[0])
    ensures var p := fwd[0];
            var e := Do(End(r, bwd, fwd[1..]), E.OnDataFrame(r.ep, p.frame), p.id);
            && Dir(s, e.node, e.inp, e.out) && e.inp == fwd[1..] && SameSender(r, e.node)
            && (E.Inv(r.ep, r.hist) ==> E.Inv(e.node.ep, e.node.hist))
            && e.out == bwd + [Intact(E.AckFor(p.frame.seqno), p.id)]
  {
    var f, id := fwd[0].frame, fwd[0].id;
    var t := E.OnDataFrame(r.ep, f);
    var ack, e := E.AckFor(f.seqno), End(r, bwd, fwd[1..]);
    if E.Inv(r.ep, r.hist) {
      E.DataFrameKeepsInv(r.ep, r.hist, f);
    }
    if f.seqno == r.ep.lastSeq {
      DoOne(e, t, id, E.TxAck(ack));
      ReceiverDuplicate(s, r, fwd, bwd, r.(ep := t.ep));
    } else {
      assert t.out == [E.TxAck(ack), E.Dispatch(f.data)];
      DoAckDispatch(e, t, id, ack, f.data);
      ReceiverNew(s, r, fwd, bwd, Node(t.ep, r.hist.(got := r.hist.got + [f.data]), r.gotIds + [id]));
    }
  }

  // ------------------------------------------------- the role not concerned

  /** Acting as a sender does not disturb a node's other role. */
  lemma ReceiverIdle(s: Node, r: Node, fwd: seq<Packet>, bwd: seq<Packet>, r': Node)
    requires Dir(s, r, fwd, bwd) && SameReceiver(r, r')
    ensures Dir(s, r', fwd, bwd)
  {
  }

  lemma PushNeutral(s: Node, r: Node, fwd: seq<Packet>, bwd: seq<Packet>, p: Packet)
    requires Dir(s, r, fwd, bwd) && !IsPositive(p)
    ensures Dir(s, r, fwd, bwd + [p])
  {
    PushKeeps(bwd, p, false);
  }

  /** Nor does acting as a receiver. */
  lemma SenderIdle(s: Node, r: Node, fwd: seq<Packet>, bwd: seq<Packet>, s': Node)
    requires Dir(s, r, fwd, bwd) && SameSender(s, s') && E.Inv(s'.ep, s'.hist)
    ensures Dir(s', r, fwd, bwd)
  {
  }

  lemma PushAnswer(s: Node, r: Node, fwd: seq<Packet>, bwd: seq<Packet>, p: Packet)
    requires Dir(s, r, fwd, bwd) && !IsData(p)
    ensures Dir(s, r, fwd + [p], bwd)
  {
    PushKeeps(fwd, p, true);
  }

  lemma SenderAnswered(s: Node, r: Node, fwd: seq<Packet>, bwd: seq<Packet>, s': Node, p: Packet)
    requires Dir(s, r, fwd, bwd) && SameSender(s, s') && E.Inv(s'.ep, s'.hist) && !IsData(p)
    ensures Dir(s', r, fwd + [p], bwd)
  {
    SenderIdle(s, r, fwd, bwd, s');
    PushAnswer(s', r, fwd, bwd, p);
  }

  /** What a sender's step may add to its outgoing channel. */
  ghost predicate AtMostOneFrame(out: seq<Packet>, out': seq<Packet>) {
    out' == out || exists p :: IsData(p) && out' == out + [p]
  }

  lemma SenderActed(s: Node, r: Node, fwd: seq<Packet>, bwd: seq<Packet>, r': Node, bwd': seq<Packet>)
    requires Dir(s, r, fwd, bwd) && SameReceiver(r, r') && AtMostOneFrame(bwd, bwd')
    ensures Dir(s, r', fwd, bwd')
  {
    ReceiverIdle(s, r, fwd, bwd, r');
    if bwd' != bwd {
      var p :| IsData(p) && bwd' == bwd + [p];
      PushNeutral(s, r', fwd, bwd, p);
    }
  }

  lemma TamperKeeps(s: Node, r: Node, fwd: seq<Packet>, bwd: seq<Packet>, edit: Edit)
    requires Dir(s, r, fwd, bwd)
    ensures Dir(s, r, Apply(fwd, edit), bwd) && Dir(s, r, fwd, Apply(bwd, edit))
  {
    EditKeeps(fwd, edit, true);
    EditKeeps(bwd, edit, false);
  }

  // -------------------------------------------------------------- every step

  lemma AwakeKeeps(x: Node, y: Node, out: seq<Packet>, inp: seq<Packet>)
    requires Dir(x, y, out, inp) && Dir(y, x, inp, out)
    ensures Dir(Awake(x), y, out, inp) && Dir(y, Awake(x), inp, out)
    ensures Awake(x).hist == x.hist
  {
    E.StepKeepsInv(x.ep, x.hist, E.BytesRead);
  }

  /** One frameless report: at most a NAK goes out. */
  lemma HeedOne(n: Node, y: Node, out: seq<Packet>, inp: seq<Packet>, x: RxEvent)
    requires Dir(n, y, out, inp) && Dir(y, n, inp, out) && !x.Accept?
    ensures var e := Do(End(n, out, inp), E.OnEvent(n.ep, x), -1);
            && e.inp == inp
            && Dir(e.node, y, e.out, e.inp) && Dir(y, e.node, e.inp, e.out)
  {
    var t := E.OnEvent(n.ep, x);
    if x.Skip? {
      DoNothing(End(n, out, inp), t, -1);
    } else {
      var nak := E.NakFor(x.seqno);
      DoOne(End(n, out, inp), t, -1, E.TxAck(nak));
      PushAnswer(n, y, out, inp, Intact(nak, -1));
      PushNeutral(y, n, inp, out, Intact(nak, -1));
    }
  }

  lemma {:induction false} HeedKeeps(n: Node, y: Node, out: seq<Packet>, inp: seq<Packet>, es: seq<RxEvent>)
    requires Dir(n, y, out, inp) && Dir(y, n, inp, out) && Quiet(es)
    ensures var e := Heed(End(n, out, inp), es);
            && e.inp == inp
            && Dir(e.node, y, e.out, e.inp) && Dir(y, e.node, e.inp, e.out)
  {
    if es != [] {
      HeedKeeps(n, y, out, inp, es[..|es| - 1]);
      var e := Heed(End(n, out, inp), es[..|es| - 1]);
      HeedOne(e.node, y, e.out, e.inp, es[|es| - 1]);
    }
  }

  lemma ReceiveDamaged(n: Node, y: Node, out: seq<Packet>, inp: seq<Packet>)
    requires Dir(n, y, out, inp) && Dir(y, n, inp, out)
    requires inp != [] && inp[0].Damaged? && Quiet(inp[0].reports)
    ensures var e := Heed(End(n, out, inp[1..]), inp[0].reports);
            Dir(e.node, y, e.out, e.inp) && Dir(y, e.node, e.inp, e.out)
  {
    PopBwd(n, y, out, inp);
    PopFwd(y, n, inp, out);
    HeedKeeps(n, y, out, inp[1..], inp[0].reports);
  }

  lemma ReceiveAck(n: Node, y: Node, out: seq<Packet>, inp: seq<Packet>)
    requires Dir(n, y, out, inp) && Dir(y, n, inp, out) && TimeoutsInARow(n) <= 254
    requires inp != [] && inp[0].Intact? && HasAck(inp[0].frame.flags)
    ensures var e := Do(End(n, out, inp[1..]), E.OnAckFrame(n.ep, inp[0].frame), inp[0].id);
            Dir(e.node, y, e.out, e.inp) && Dir(y, e.node, e.inp, e.out)
  {
    SenderAck(n, y, out, inp);
    PopFwd(y, n, inp, out);
    var e := Do(End(n, out, inp[1..]), E.OnAckFrame(n.ep, inp[0].frame), inp[0].id);
    SenderActed(y, n, inp[1..], out, e.node, e.out);
  }

  lemma ReceiveData(n: Node, y: Node, out: seq<Packet>, inp: seq<Packet>)
    requires Dir(n, y, out, inp) && Dir(y, n, inp, out) && TimeoutsInARow(y) <= 254
    requires inp != [] && IsData(inp[0])
    ensures var e := Do(End(n, out, inp[1..]), E.OnDataFrame(n.ep, inp[0].frame), inp[0].id);
            Dir(e.node, y, e.out, e.inp) && Dir(y, e.node, e.inp, e.out)
  {
    ReceiverData(y, n, inp, out);
    PopBwd(n, y, out, inp);
    var e := Do(End(n, out, inp[1..]), E.OnDataFrame(n.ep, inp[0].frame), inp[0].id);
    SenderAnswered(n, y, out, inp[1..], e.node, Intact(E.AckFor(inp[0].frame.seqno), inp[0].id));
  }

  lemma ReceiveKeeps(x: Node, y: Node, out: seq<Packet>, inp: seq<Packet>)
    requires Dir(x, y, out, inp) && Dir(y, x, inp, out) && inp != [] && Clean(inp)
    requires TimeoutsInARow(x) <= 254 && TimeoutsInARow(y) <= 254
    ensures var e := Receive(End(x, out, inp[1..]), inp[0]);
            Dir(e.node, y, e.out, e.inp) && Dir(y, e.node, e.inp, e.out)
  {
    AwakeKeeps(x, y, out, inp);
    if inp[0].Damaged? {
      ReceiveDamaged(Awake(x), y, out, inp);
    } else if HasAck(inp[0].frame.flags) {
      ReceiveAck(Awake(x), y, out, inp);
    } else {
      ReceiveData(Awake(x), y, out, inp);
    }
  }

  lemma RequestKeeps(x: Node, y: Node, out: seq<Packet>, inp: seq<Packet>, data: Payload)
    requires Dir(x, y, out, inp) && Dir(y, x, inp, out)
    ensures var e := Do(End(x, out, inp), E.OnRequest(x.ep, data), 0);
            Dir(e.node, y, e.out, e.inp) && Dir(y, e.node, e.inp, e.out)
  {
    SenderRequest(x, y, out, inp, data);
    var e := Do(End(x, out, inp), E.OnRequest(x.ep, data), 0);
    ReceiverIdle(y, x, inp, out, e.node);
  }

  lemma TickKeeps(x: Node, y: Node, out: seq<Packet>, inp: seq<Packet>)
    requires Dir(x, y, out, inp) && Dir(y, x, inp, out)
    ensures var e := Do(End(x, out, inp), E.OnTick(x.ep), 0);
            Dir(e.node, y, e.out, e.inp) && Dir(y, e.node, e.inp, e.out)
  {
    SenderTick(x, y, out, inp);
    var e := Do(End(x, out, inp), E.OnTick(x.ep), 0);
    SenderActed(y, x, inp, out, e.node, e.out);
  }

  lemma BusyKeeps(x: Node, y: Node, out: seq<Packet>, inp: seq<Packet>)
    requires Dir(x, y, out, inp) && Dir(y, x, inp, out) && inp != [] && IsData(inp[0])
    ensures var out' := out + [Intact(Frame(inp[0].frame.seqno, SF_ACK + SF_BUSY, []), 0)];
            Dir(x, y, out', inp[1..]) && Dir(y, x, inp[1..], out')
  {
    var q := Intact(Frame(inp[0].frame.seqno, SF_ACK + SF_BUSY, []), 0);
    PopBwd(x, y, out, inp);
    PopFwd(y, x, inp, out);
    PushAnswer(x, y, out, inp[1..], q);
    PushNeutral(y, x, inp[1..], out, q);
  }

  lemma LocalKeeps(x: Node, y: Node, out: seq<Packet>, inp: seq<Packet>, act: Action)
    requires Dir(x, y, out, inp) && Dir(y, x, inp, out) && Clean(inp)
    requires TimeoutsInARow(x) <= 254 && TimeoutsInARow(y) <= 254
    ensures var e := Local(End(x, out, inp), act);
            Dir(e.node, y, e.out, e.inp) && Dir(y, e.node, e.inp, e.out)
  {
    match act
    case Request(data) => RequestKeeps(x, y, out, inp, data);
    case Tick => TickKeeps(x, y, out, inp);
    case Probe =>
      if x.ep.linkAlive {
        RequestKeeps(x, y, out, inp, E.PROBE);
      }
    case Deliver =>
      if inp != [] {
        ReceiveKeeps(x, y, out, inp);
      }
    case AnswerBusy =>
      if inp != [] && IsData(inp[0]) {
        BusyKeeps(x, y, out, inp);
      }
    case Tamper(edit) =>
      TamperKeeps(x, y, out, inp, edit);
      TamperKeeps(y, x, inp, out, edit);
  }

  lemma {:induction false} EmitIsIntact(out: seq<E.Effect>, id: int)
    ensures forall p :: p in Emit(out, id) ==> p.Intact?
  {
    if out != [] {
      EmitIsIntact(out[..|out| - 1], id);
    }
  }

  lemma DoClean(e: End, t: E.Turn, id: int)
    requires Clean(e.out)
    ensures Clean(Do(e, t, id).out) && Do(e, t, id).inp == e.inp
  {
    EmitIsIntact(t.out, id);
  }

  lemma {:induction false} HeedClean(e: End, es: seq<RxEvent>)
    requires Clean(e.out)
    ensures Clean(Heed(e, es).out) && Heed(e, es).inp == e.inp
  {
    if es != [] {
      HeedClean(e, es[..|es| - 1]);
      var e' := Heed(e, es[..|es| - 1]);
      DoClean(e', E.OnEvent(e'.node.ep, es[|es| - 1]), -1);
    }
  }

  lemma TamperClean(ch: seq<Packet>, edit: Edit)
    requires Clean(ch) && (edit.Noise? ==> Quiet(edit.reports))
    ensures Clean(Apply(ch, edit))
  {
  }

  /** Endpoints put frames on the line; only noise can hide one there. */
  lemma LocalClean(e: End, act: Action)
    requires Clean(e.out) && Clean(e.inp)
    requires act.Tamper? && act.edit.Noise? ==> Quiet(act.edit.reports)
    ensures Clean(Local(e, act).out) && Clean(Local(e, act).inp)
  {
    match act
    case Request(data) => DoClean(e, E.OnRequest(e.node.ep, data), 0);
    case Tick => DoClean(e, E.OnTick(e.node.ep), 0);
    case Probe => DoClean(e, E.Step(e.node.ep, E.IdleProbe), 0);
    case Deliver =>
      if e.inp != [] {
        var e' := End(Awake(e.node), e.out, e.inp[1..]);
        match e.inp[0]
        case Intact(f, id) => DoClean(e', E.OnEvent(e'.node.ep, Accept(f)), id);
        case Damaged(es) => HeedClean(e', es);
      }
    case AnswerBusy =>
    case Tamper(edit) => TamperClean(e.out, edit);
  }

  lemma StepKeeps(n: Net, x: Event)
    requires Inv(n) && Calm(n, 254) && Honest(x)
    ensures Inv(Step(n, x))
  {
    LocalClean(if x.side.A? then End(n.a, n.ab, n.ba) else End(n.b, n.ba, n.ab), x.action);
    match x.side
    case A => LocalKeeps(n.a, n.b, n.ab, n.ba, x.action);
    case B => LocalKeeps(n.b, n.a, n.ba, n.ab, x.action);
  }

  lemma {:induction false} RunKeeps(xs: seq<Event>)
    requires CalmRun(xs, 254) && HonestRun(xs)
    ensures Inv(Run(xs))
  {
    if xs != [] {
      RunKeeps(xs[..|xs| - 1]);
      StepKeeps(Run(xs[..|xs| - 1]), xs[|xs| - 1]);
    }
  }

  /** In every run in which no node ever sees more than 254 timeouts in a row and
      no frame is found in damaged bytes, both directions deliver in order,
      without duplicates, and report SUCCESS only for what was delivered. */
  lemma ReliableDelivery(xs: seq<Event>)
    requires CalmRun(xs, 254) && HonestRun(xs)
    ensures Safe(Run(xs))
  {
    RunKeeps(xs);
    InvIsSafe(Run(xs));
  }

  lemma InvIsSafe(n: Net)
    requires Inv(n)
    ensures Safe(n)
  {
    assert Names(n.b.gotIds, n.a.hist.sent, n.b.hist.got);
    assert Names(n.a.gotIds, n.b.hist.sent, n.a.hist.got);
  }

  // ---------------------------------------------------------------- delivery

  /** From here a's head frame is in the channel and the sender knows the rest. */
  ghost predicate InFlight(n: Net) {
    && Inv(n) && Calm(n, 254) && n.a.ep.queue != [] && n.ba == []
    && n.ab == [Intact(n.a.ep.queue[0].frame, n.a.ep.queue[0].id)]
  }

  /** The head frame of n has reached b and a knows: SUCCESS reported, payload
      among those dispatched, both channels empty again. */
  ghost predicate Delivered(n: Net, n': Net) {
    && Inv(n') && n'.ab == [] && n'.ba == []
    && n'.a.hist.results == n.a.hist.results + [E.Resolution(|n.a.hist.results|, SUCCESS)]
    && |n.a.hist.results| in n'.b.gotIds
  }

  lemma DeliverA(n: Net, p: Packet)
    requires n.ba == [p] && p.Intact?
    ensures var s := Awake(n.a);
            var e := Do(End(s, n.ab, []), E.OnEvent(s.ep, Accept(p.frame)), p.id);
            Step(n, Event(A, Deliver)) == Net(e.node, n.b, e.out, [])
  {
    assert n.ba[1..] == [];
  }

  lemma DeliverB(n: Net, p: Packet)
    requires n.ab == [p] && IsData(p)
    ensures var r := Awake(n.b);
            var e := Do(End(r, n.ba, []), E.OnDataFrame(r.ep, p.frame), p.id);
            Step(n, Event(B, Deliver)) == Net(n.a, e.node, [], e.out)
  {
    assert n.ab[1..] == [];
  }

  lemma AckReturns(n: Net)
    requires InFlight(n)
    ensures var m := Step(n, Event(B, Deliver));
            && m.a == n.a && m.ab == []
            && m.ba == [Intact(E.AckFor(n.a.ep.queue[0].frame.seqno), n.a.ep.queue[0].id)]
  {
    var p := n.ab[0];
    assert DataOk(p, Last(n.b.gotIds), |n.a.hist.results|, n.a.hist.sent);
    DeliverB(n, p);
    DataAnswered(Awake(n.b), p.frame, p.id);
  }

  lemma DataAnswered(r: Node, f: Frame, id: int)
    ensures Do(End(r, [], []), E.OnDataFrame(r.ep, f), id).out == [Intact(E.AckFor(f.seqno), id)]
  {
    var t, ack := E.OnDataFrame(r.ep, f), E.AckFor(f.seqno);
    if f.seqno == r.ep.lastSeq {
      DoOne(End(r, [], []), t, id, E.TxAck(ack));
    } else {
      assert t.out == [E.TxAck(ack), E.Dispatch(f.data)];
      DoAckDispatch(End(r, [], []), t, id, ack, f.data);
    }
  }

  lemma AckTaken(n: Net, p: Packet)
    requires n.a.ep.queue != [] && n.ab == [] && n.ba == [p]
    requires p == Intact(E.AckFor(n.a.ep.queue[0].frame.seqno), n.a.ep.queue[0].id)
    ensures var m := Step(n, Event(A, Deliver));
            && m.ab == [] && m.ba == [] && m.b == n.b
            && m.a.hist == n.a.hist.(results := n.a.hist.results + [E.Resolution(p.id, SUCCESS)])
  {
    var s, x := Awake(n.a), E.Resolve(p.id, SUCCESS);
    DeliverA(n, p);
    E.PositiveAck(s.ep);
    assert E.OnEvent(s.ep, Accept(p.frame)) == E.OnAckFrame(s.ep, p.frame);
    DoOne(End(s, [], []), E.OnAckFrame(s.ep, p.frame), p.id, x);
  }

  lemma AckAccepted(n: Net)
    requires Inv(n) && Calm(n, 254) && n.a.ep.queue != [] && n.ab == []
    requires n.ba == [Intact(E.AckFor(n.a.ep.queue[0].frame.seqno), n.a.ep.queue[0].id)]
    ensures Delivered(n, Step(n, Event(A, Deliver)))
  {
    StepKeeps(n, Event(A, Deliver));
    assert AckOk(n.ba[0], LastOk(n.a.hist.results), n.b.gotIds);
    AckTaken(n, n.ba[0]);
  }

  /** Two undisturbed deliveries complete the exchange. */
  lemma ExchangeCompletes(n: Net)
    requires InFlight(n)
    ensures Delivered(n, Step(Step(n, Event(B, Deliver)), Event(A, Deliver)))
  {
    StepKeeps(n, Event(B, Deliver));
    AckReturns(n);
    StepCalm(n);
    AckAccepted(Step(n, Event(B, Deliver)));
  }

  lemma StepCalm(n: Net)
    requires InFlight(n)
    ensures Calm(Step(n, Event(B, Deliver)), 254)
  {
    AwakeKeeps(n.b, n.a, n.ba, n.ab);
    var r, p := Awake(n.b), n.ab[0];
    E.DataFrameRecord(r.ep, r.hist, p.frame);
  }

  /** The timer, with retries left and no back-off, puts the head in flight. */
  lemma TickSends(n: Net)
    requires Inv(n) && Calm(n, 254) && n.ab == [] && n.ba == []
    requires n.a.ep.queue != [] && n.a.ep.busyTimer == 0 && n.a.ep.queue[0].retries < SIRCON_MAX_RETRIES
    ensures InFlight(Step(n, Event(A, Tick)))
  {
    StepKeeps(n, Event(A, Tick));
    var head := n.a.ep.queue[0];
    DoOne(End(n.a, [], []), E.OnTick(n.a.ep), 0, E.TxFrame(head.id, head.frame));
  }

  // ------------------------------------------------------------------ damage

  /** Damage to the packet at the head of a's channel. */
  function Hit(n: Net, es: seq<RxEvent>): Net {
    Step(Step(n, Event(A, Tamper(Lose(0)))), Event(A, Tamper(Noise(0, es))))
  }

  lemma HitKeeps(n: Net, es: seq<RxEvent>)
    requires InFlight(n) && Quiet(es)
    ensures Hit(n, es) == n.(ab := [Damaged(es)]) && Inv(Hit(n, es))
  {
    var lost := n.(ab := []);
    StepKeeps(n, Event(A, Tamper(Lose(0))));
    assert Step(n, Event(A, Tamper(Lose(0)))) == lost;
    AddNoise(lost, es);
  }

  lemma AddNoise(n: Net, es: seq<RxEvent>)
    requires Inv(n) && Calm(n, 254) && n.ab == [] && Quiet(es)
    ensures var m := Step(n, Event(A, Tamper(Noise(0, es))));
            m == n.(ab := [Damaged(es)]) && Inv(m)
  {
    StepKeeps(n, Event(A, Tamper(Noise(0, es))));
  }

  lemma {:induction false} HeedSkips(e: End, es: seq<RxEvent>, skips: seq<RxEvent>)
    requires forall x :: x in skips ==> x.Skip?
    ensures Heed(e, es + skips) == Heed(e, es)
    decreases |skips|
  {
    if skips == [] {
      assert es + skips == es;
    } else {
      var init := skips[..|skips| - 1];
      HeedSkips(e, es, init);
      AllButLast(es, skips);
      HeedSkip(e, es + init);
    }
  }

  lemma AllButLast(es: seq<RxEvent>, skips: seq<RxEvent>)
    requires skips != [] && forall x :: x in skips ==> x.Skip?
    ensures es + skips == es + skips[..|skips| - 1] + [Skip]
  {
    assert skips[|skips| - 1] in skips;
    assert skips == skips[..|skips| - 1] + [Skip];
  }

  lemma HeedSkip(e: End, es: seq<RxEvent>)
    ensures Heed(e, es + [Skip]) == Heed(e, es)
  {
    assert (es + [Skip])[..|es|] == es;
    DoNothing(Heed(e, es), E.OnEvent(Heed(e, es).node.ep, Skip), -1);
  }

  /** A damaged frame is answered by one NAK, however long it was. */
  lemma HeedDamage(e: End, seqno: Byte, len: nat)
    requires len > 0
    ensures Heed(e, Stream.DamageReports(seqno, len)) == e.(out := e.out + [Intact(E.NakFor(seqno), -1)])
  {
    Stream.AllSkips(len - 1);
    HeedSkips(e, [BadChecksum(seqno)], Stream.Skips(len - 1));
    HeedReport(e, seqno);
  }

  lemma HeedReport(e: End, seqno: Byte)
    ensures Heed(e, [BadChecksum(seqno)]) == e.(out := e.out + [Intact(E.NakFor(seqno), -1)])
  {
    assert [BadChecksum(seqno)][..0] == [];
    DoOne(e, E.OnEvent(e.node.ep, BadChecksum(seqno)), -1, E.TxAck(E.NakFor(seqno)));
  }

  lemma DamageAnswered(n: Net, seqno: Byte, len: nat)
    requires len > 0 && n.ab == [Damaged(Stream.DamageReports(seqno, len))] && n.ba == []
    ensures Step(n, Event(B, Deliver)) == Net(n.a, Awake(n.b), [], [Intact(E.NakFor(seqno), -1)])
  {
    assert n.ab[1..] == [];
    HeedDamage(End(Awake(n.b), [], []), seqno, len);
  }

  lemma HeadResent(n: Net)
    requires n.a.ep.queue != [] && n.ab == [] && n.ba == [Intact(E.NakFor(n.a.ep.queue[0].frame.seqno), -1)]
    ensures var head := n.a.ep.queue[0];
            Step(n, Event(A, Deliver)) == Net(Awake(n.a), n.b, [Intact(head.frame, head.id)], [])
  {
    var head, s := n.a.ep.queue[0], Awake(n.a);
    DeliverA(n, n.ba[0]);
    assert E.OnEvent(s.ep, Accept(n.ba[0].frame)) == E.Turn(s.ep, [E.TxFrame(head.id, head.frame)]);
    DoOne(End(s, [], []), E.OnEvent(s.ep, Accept(n.ba[0].frame)), -1, E.TxFrame(head.id, head.frame));
  }

  lemma DamageResent(n: Net, len: nat)
    requires InFlight(n) && len > 0
    ensures var es := Stream.DamageReports(n.a.ep.queue[0].frame.seqno, len);
            InFlight(Step(Step(Hit(n, es), Event(B, Deliver)), Event(A, Deliver)))
  {
    var seqno := n.a.ep.queue[0].frame.seqno;
    var es := Stream.DamageReports(seqno, len);
    Stream.DamageReportsAreQuiet(seqno, len);
    HitKeeps(n, es);
    DamageAnswered(Hit(n, es), seqno, len);
    StepKeeps(Hit(n, es), Event(B, Deliver));
    var m := Step(Hit(n, es), Event(B, Deliver));
    HeadResent(m);
    StepKeeps(m, Event(A, Deliver));
  }

  /** A frame with no sentinel inside, in flight to b, and one byte of it hit on
      the way (not the sentinel, the number or the length): the channel loses it
      and carries what the parser makes of its bytes, b complains, and the frame
      is in flight again without waiting for the timer. */
  lemma DamageRepaired(n: Net, i: nat, b: Byte, tail: seq<Byte>)
    requires InFlight(n) && |tail| >= HEADER_SIZE - 1
    requires var e := Encode(n.a.ep.queue[0].frame);
             && 0 < i < |e| && i != 3 && i != 5 && b != e[i]
             && PKT_SENTINEL !in e[1..] && b != PKT_SENTINEL
    ensures var d := Encode(n.a.ep.queue[0].frame)[i := b];
            && |d| <= |Events(d + tail)| && Events(d + tail)[|d|..] == Events(tail)
            && InFlight(Step(Step(Hit(n, Events(d + tail)[..|d|]), Event(B, Deliver)), Event(A, Deliver)))
  {
    var f := n.a.ep.queue[0].frame;
    var d := Encode(f)[i := b];
    var es := Stream.DamageReports(f.seqno, |d|);
    Stream.OneByteDamage(f, i, b, tail);
    Stream.DamageReportsAreQuiet(f.seqno, |d|);
    SplitReports(Events(d + tail), es, Events(tail));
    DamageResent(n, |d|);
  }

  lemma SplitReports(all: seq<RxEvent>, a: seq<RxEvent>, b: seq<RxEvent>)
    requires all == a + b
    ensures all[..|a|] == a && all[|a|..] == b
  {
  }
}
