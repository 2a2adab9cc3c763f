/** Damaged bytes in the stream: what the parser makes of them, when a frame that
    nobody sent is found inside them, and why a channel that loses frames and
    adds frameless debris is a fair picture of the serial line (sircon.cpp). */
module Stream {
  import opened Scp
  import opened Codec
  import opened Framer

  // ----------------------------------------- frames found in damaged bytes

  /** Where in the stream the accepted frames start. */
  function Offsets(s: seq<Byte>, base: nat): seq<nat>
    decreases |s|
  {
    match Head(s)
    case Wait => []
    case Take(e, n) => (if e.Accept? then [base] else []) + Offsets(s[n..], base + n)
  }

  ghost predicate NoneBelow(offsets: seq<nat>, i: nat) {
    forall k :: 0 <= k < |offsets| ==> offsets[k] >= i
  }

  lemma {:induction false} OffsetsOfAccepted(s: seq<Byte>, base: nat)
    ensures |Offsets(s, base)| == |Accepted(Events(s))|
    decreases |s|
  {
    match Head(s)
    case Wait =>
    case Take(e, n) =>
      OffsetsOfAccepted(s[n..], base + n);
      AcceptedCons(e, Events(s[n..]));
  }

  lemma {:induction false} OffsetsFrom(s: seq<Byte>, base: nat)
    ensures NoneBelow(Offsets(s, base), base)
    decreases |s|
  {
    match Head(s)
    case Wait =>
    case Take(e, n) => OffsetsFrom(s[n..], base + n);
  }

  lemma {:induction false} AcceptedConcat(a: seq<RxEvent>, b: seq<RxEvent>)
    ensures Accepted(a + b) == Accepted(a) + Accepted(b)
  {
    if a == [] {
      assert a + b == b;
    } else {
      AcceptedConcat(a[1..], b);
      AcceptedCons(a[0], a[1..] + b);
      assert a + b == [a[0]] + (a[1..] + b);
    }
  }

  lemma AcceptedCons(x: RxEvent, es: seq<RxEvent>)
    ensures Accepted([x] + es) == (if x.Accept? then [x.frame] else []) + Accepted(es)
  {
    assert ([x] + es)[1..] == es;
  }

  lemma NothingHere(s: seq<Byte>, base: nat)
    requires |s| >= SCP_MAX_PKT && !FrameAt(s, 0)
    ensures Offsets(s, base) == Offsets(s[1..], base + 1)
  {
    NotAFrame(s);
    assert [] + Offsets(s[1..], base + 1) == Offsets(s[1..], base + 1);
  }

  /** The earliest frame, if there is one before the given offset. */
  lemma {:induction false} Earliest(s: seq<Byte>, i: nat) returns (j: nat)
    requires i <= |s|
    ensures j <= i && NoFrameBefore(s, j)
    ensures j < i <==> !NoFrameBefore(s, i)
    ensures j < i ==> FrameAt(s, j)
  {
    j := 0;
    while j < i && !FrameAt(s, j)
      invariant j <= i && NoFrameBefore(s, j)
    {
      j := j + 1;
    }
  }

  lemma {:induction false} NothingInside(s: seq<Byte>, i: nat, base: nat)
    requires i <= |s| && |s| - i >= SCP_MAX_PKT - 1 && NoFrameBefore(s, i)
    ensures NoneBelow(Offsets(s, base), base + i)
    decreases i
  {
    if i == 0 {
      OffsetsFrom(s, base);
    } else {
      NoFrameBeforeShift(s, i);
      NothingHere(s, base);
      NothingInside(s[1..], i - 1, base + 1);
    }
  }

  lemma {:induction false} FirstInside(s: seq<Byte>, j: nat, base: nat)
    requires j <= |s| && |s| - j >= SCP_MAX_PKT - 1 && NoFrameBefore(s, j) && FrameAt(s, j)
    ensures |Offsets(s, base)| > 0 && Offsets(s, base)[0] == base + j
    decreases j
  {
    if j == 0 {
      OffsetHere(s, base);
    } else {
      NoFrameBeforeShift(s, j);
      NothingHere(s, base);
      FrameAtShift(s, j - 1);
      FirstInside(s[1..], j - 1, base + 1);
    }
  }

  /** Exactly when damaged bytes are harmless: nothing is accepted from an offset
      inside them if and only if no sentinel-headed span that starts inside them
      passes the checksum. */
  lemma HarmlessExactly(damaged: seq<Byte>, tail: seq<Byte>)
    requires |tail| >= SCP_MAX_PKT - 1
    ensures NoneBelow(Offsets(damaged + tail, 0), |damaged|)
       <==> NoFrameBefore(damaged + tail, |damaged|)
    ensures |Offsets(damaged + tail, 0)| == |Accepted(Events(damaged + tail))|
  {
    var s, i := damaged + tail, |damaged|;
    OffsetsOfAccepted(s, 0);
    if NoFrameBefore(s, i) {
      NothingInside(s, i, 0);
    } else {
      var j := Earliest(s, i);
      FirstInside(s, j, 0);
      assert Offsets(s, 0)[0] == j;
    }
  }

  lemma OffsetHere(s: seq<Byte>, base: nat)
    requires FrameAt(s, 0)
    ensures |Offsets(s, base)| > 0 && Offsets(s, base)[0] == base
  {
    assert s[0..] == s;
    HeadAt(s, 0);
  }

  // --------------------------------------------------------- a hidden frame

  function Skips(n: nat): seq<RxEvent> {
    if n == 0 then [] else [Skip] + Skips(n - 1)
  }

  lemma {:induction false} AllSkips(n: nat)
    ensures |Skips(n)| == n && forall x :: x in Skips(n) ==> x.Skip?
  {
    if n > 0 {
      AllSkips(n - 1);
    }
  }

  /** Bytes that are no sentinels are skipped, as long as a header's worth of
      bytes can be looked at. */
  lemma {:induction false} SkipRun(d: seq<Byte>, tail: seq<Byte>)
    requires PKT_SENTINEL !in d && |tail| >= HEADER_SIZE - 1
    ensures Events(d + tail) == Skips(|d|) + Events(tail)
  {
    if d == [] {
      assert d + tail == tail;
    } else {
      assert (d + tail)[1..] == d[1..] + tail;
      assert Head(d + tail) == Take(Skip, 1);
      SkipRun(d[1..], tail);
    }
  }

  /** A frame damaged in one byte other than its sentinel and its length is
      reported for retransmission under the sequence number it carries. */
  lemma DamagedFrameReported(f: Frame, i: nat, b: Byte, tail: seq<Byte>)
    requires 0 < i < |Encode(f)| && i != 5 && b != Encode(f)[i]
    ensures var d := Encode(f)[i := b];
            Head(d + tail) == Take(BadChecksum(if i == 3 then b else f.seqno), 1)
  {
    EncodeWellFormed(f);
    var e := Encode(f);
    var d := e[i := b];
    SingleByteErrorDetected(e, i, b);
    assert (d + tail)[..|e|] == d;
  }

  /** A frame that carries another one as its payload. */
  function Carrier(seqno: Byte, g: Frame): Frame
    requires |g.data| + HEADER_SIZE + 1 <= SCP_MAX_DATA
  {
    EncodeWellFormed(g);
    Frame(seqno, 0, Encode(g))
  }

  /** What the parser reports up to the frame it finds in a damaged carrier. */
  function HiddenReports(seqno: Byte, g: Frame): seq<RxEvent> {
    [BadChecksum(seqno)] + Skips(5) + [Accept(g)]
  }

  /** One damaged header byte, noticed by the checksum, is enough for a frame to
      be accepted that nobody sent: the one hidden in the payload. */
  lemma HiddenFrame(seqno: Byte, g: Frame, b: Byte, tail: seq<Byte>)
    requires |g.data| + HEADER_SIZE + 1 <= SCP_MAX_DATA
    requires seqno != PKT_SENTINEL && |Encode(g)| != PKT_SENTINEL && b != 3 && b != PKT_SENTINEL
    ensures var e := Encode(Carrier(seqno, g));
            Events(e[1 := b] + tail) == HiddenReports(seqno, g) + Events([e[|e| - 1]] + tail)
  {
    EncodeWellFormed(g);
    var f := Carrier(seqno, g);
    var e := Encode(f);
    var last := [e[|e| - 1]] + tail;
    var header := [b, 0, seqno, 0, |Encode(g)|];
    var s := e[1 := b] + tail;
    assert s == [PKT_SENTINEL] + (header + (Encode(g) + last));
    DamagedFrameReported(f, 1, b, tail);
    assert s[1..] == header + (Encode(g) + last);
    OneReport(s, BadChecksum(seqno));
    SkipsThenFrame(header, g, last);
    Regroup([BadChecksum(seqno)] + Skips(5), [Accept(g)], Events(last));
    Regroup([BadChecksum(seqno)], Skips(5), [Accept(g)] + Events(last));
  }

  lemma SkipsThenFrame(d: seq<Byte>, g: Frame, tail: seq<Byte>)
    requires PKT_SENTINEL !in d
    ensures Events(d + (Encode(g) + tail)) == Skips(|d|) + ([Accept(g)] + Events(tail))
  {
    EncodeWellFormed(g);
    SkipRun(d, Encode(g) + tail);
    HeadOfFrame(g, tail);
  }

  // ------------------------------------------------------- harmless damage

  /** Damage without a sentinel beyond the first byte hides no frame: whatever
      happened to the other bytes, it is one report and then skips. */
  lemma SentinelFreeDamage(d: seq<Byte>, tail: seq<Byte>)
    requires d != [] && PKT_SENTINEL !in d[1..] && |tail| >= SCP_MAX_PKT - 1
    requires !FrameAt(d + tail, 0)
    ensures var first := if d[0] == PKT_SENTINEL then BadChecksum((d + tail)[3]) else Skip;
            Events(d + tail) == [first] + Skips(|d| - 1) + Events(tail)
  {
    var s := d + tail;
    NotAFrame(s);
    var first := if d[0] == PKT_SENTINEL then BadChecksum(s[3]) else Skip;
    OneReport(s, first);
    DropFirst(d, tail);
    SkipRun(d[1..], tail);
    Regroup([first], Skips(|d| - 1), Events(tail));
  }

  /** The reports a damaged frame of n bytes causes. */
  function DamageReports(seqno: Byte, n: nat): seq<RxEvent>
    requires n > 0
  {
    [BadChecksum(seqno)] + Skips(n - 1)
  }

  lemma DamageReportsAreQuiet(seqno: Byte, n: nat)
    requires n > 0
    ensures Quiet(DamageReports(seqno, n)) && |DamageReports(seqno, n)| == n
  {
    AllSkips(n - 1);
  }

  /** A frame with no sentinel inside, damaged in one byte that is neither its
      first nor its length and does not become a sentinel: one bad-checksum
      report, skips to its end, and the parser is back in step. */
  lemma OneByteDamage(f: Frame, i: nat, b: Byte, tail: seq<Byte>)
    requires PKT_SENTINEL !in Encode(f)[1..] && b != PKT_SENTINEL
    requires 0 < i < |Encode(f)| && i != 5 && b != Encode(f)[i]
    requires |tail| >= HEADER_SIZE - 1
    ensures var d := Encode(f)[i := b];
            Events(d + tail) == DamageReports(if i == 3 then b else f.seqno, |d|) + Events(tail)
  {
    DamagedFrameReported(f, i, b, tail);
    StillSentinelFree(Encode(f), i, b);
    ReportThenSkips(Encode(f)[i := b], if i == 3 then b else f.seqno, tail);
  }

  lemma StillSentinelFree(e: seq<Byte>, i: nat, b: Byte)
    requires 0 < i < |e| && PKT_SENTINEL !in e[1..] && b != PKT_SENTINEL
    ensures PKT_SENTINEL !in e[i := b][1..]
  {
    var d := e[i := b];
    forall k | 0 <= k < |d[1..]|
      ensures d[1..][k] != PKT_SENTINEL
    {
      assert d[1..][k] == if k + 1 == i then b else e[1..][k];
    }
  }

  lemma ReportThenSkips(d: seq<Byte>, seqno: Byte, tail: seq<Byte>)
    requires d != [] && PKT_SENTINEL !in d[1..] && |tail| >= HEADER_SIZE - 1
    requires Head(d + tail) == Take(BadChecksum(seqno), 1)
    ensures Events(d + tail) == DamageReports(seqno, |d|) + Events(tail)
  {
    OneReport(d + tail, BadChecksum(seqno));
    DropFirst(d, tail);
    SkipRun(d[1..], tail);
    Regroup([BadChecksum(seqno)], Skips(|d| - 1), Events(tail));
  }

  lemma OneReport(s: seq<Byte>, x: RxEvent)
    requires Head(s) == Take(x, 1)
    ensures Events(s) == [x] + Events(s[1..])
  {
  }

  lemma DropFirst(d: seq<Byte>, tail: seq<Byte>)
    requires d != []
    ensures (d + tail)[1..] == d[1..] + tail
  {
  }

  lemma Regroup(a: seq<RxEvent>, b: seq<RxEvent>, c: seq<RxEvent>)
    ensures a + (b + c) == (a + b) + c
  {
  }

  // --------------------------------------------------------------- a stall

  /** Behind a stretch with no sentinel after its first byte, and no frame in it,
      a frame is heard, and the parser is in step behind it, exactly unless the
      first byte heads a candidate whose claimed length has not all arrived; then
      nothing is heard at all, however many whole frames wait behind. */
  lemma StallExactly(r: seq<Byte>, f: Frame, more: seq<Byte>)
    requires r != [] && PKT_SENTINEL !in r[1..] && !FrameAt(r + (Encode(f) + more), 0)
    ensures var s := r + (Encode(f) + more);
            if r[0] == PKT_SENTINEL && |s| < ClaimedLength(s) then Events(s) == [] && Residue(s) == s
            else Accepted(Events(s)) == [f] + Accepted(Events(more))
  {
    var t := Encode(f) + more;
    var s := r + t;
    EncodeWellFormed(f);
    if Head(s).Take? {
      NotAFrame(s);
      OneReport(s, Head(s).event);
      DropFirst(r, t);
      SkipRun(r[1..], t);
      HeadOfFrame(f, more);
      AcceptedHead(t, f, |Encode(f)|);
      HeardBehind([Head(s).event], |r| - 1, Events(t));
    }
  }

  lemma HeardBehind(first: seq<RxEvent>, n: nat, es: seq<RxEvent>)
    requires Quiet(first)
    ensures Accepted(first + (Skips(n) + es)) == Accepted(es)
  {
    AllSkips(n);
    AcceptedOfQuiet(first, Skips(n) + es);
    AcceptedOfQuiet(Skips(n), es);
  }

  /** A hit on the length byte that makes it claim more than the frame and three
      more copies of it have: none of the four is heard, though the copies arrive
      whole, and a sender has no retries left after three. */
  lemma LengthHit(f: Frame, b: Byte)
    requires 4 * |Encode(f)| < HEADER_SIZE + b + 1
    ensures var s := Encode(f)[5 := b] + (Encode(f) + (Encode(f) + Encode(f)));
            Events(s) == [] && Residue(s) == s
  {
    EncodeWellFormed(f);
  }

  // ------------------------------------------------------- a whole stream

  /** What is left of a transmission after the line had its way with it. */
  datatype Piece = Whole(frame: Frame) | Debris(bytes: seq<Byte>)

  function BytesOf(ps: seq<Piece>): seq<Byte> {
    if ps == [] then [] else PieceBytes(ps[0]) + BytesOf(ps[1..])
  }

  function PieceBytes(p: Piece): seq<Byte> {
    match p
    case Whole(f) => Encode(f)
    case Debris(bytes) => bytes
  }

  /** No frame starts inside any of the debris. */
  ghost predicate NothingHidden(ps: seq<Piece>, tail: seq<Byte>) {
    ps != [] ==>
      && (ps[0].Debris? ==> NoFrameBefore(ps[0].bytes + (BytesOf(ps[1..]) + tail), |ps[0].bytes|))
      && NothingHidden(ps[1..], tail)
  }

  /** A whole frame is accepted; debris gives one frameless report a byte. */
  ghost predicate Answers(p: Piece, es: seq<RxEvent>) {
    match p
    case Whole(f) => es == [Accept(f)]
    case Debris(bytes) => |es| == |bytes| && Quiet(es)
  }

  ghost predicate AllAnswered(ps: seq<Piece>, parts: seq<seq<RxEvent>>) {
    |parts| == |ps| && forall k :: 0 <= k < |ps| ==> Answers(ps[k], parts[k])
  }

  /** A stream of whole frames and debris with nothing hidden is heard piece by
      piece: every whole frame is accepted, in order, and nothing else. So a
      line that damages bytes is one that loses frames and adds quiet reports. */
  lemma {:induction false} HeardPieceByPiece(ps: seq<Piece>, tail: seq<Byte>)
      returns (parts: seq<seq<RxEvent>>)
    requires NothingHidden(ps, tail) && |tail| >= SCP_MAX_PKT - 1
    ensures AllAnswered(ps, parts)
    ensures Events(BytesOf(ps) + tail) == Flatten(parts) + Events(tail)
    decreases |ps|
  {
    if ps == [] {
      parts := [];
      assert BytesOf(ps) + tail == tail;
    } else {
      var rest := HeardPieceByPiece(ps[1..], tail);
      var t := BytesOf(ps[1..]) + tail;
      var first := HeardFirst(ps[0], t);
      parts := [first] + rest;
      FlattenCons(first, rest, Events(tail));
      assert BytesOf(ps) + tail == PieceBytes(ps[0]) + t;
    }
  }

  lemma FlattenCons(first: seq<RxEvent>, rest: seq<seq<RxEvent>>, more: seq<RxEvent>)
    ensures Flatten([first] + rest) + more == first + (Flatten(rest) + more)
  {
    assert ([first] + rest)[1..] == rest;
  }

  lemma HeardFirst(p: Piece, t: seq<Byte>) returns (es: seq<RxEvent>)
    requires p.Debris? ==> NoFrameBefore(p.bytes + t, |p.bytes|)
    requires |t| >= SCP_MAX_PKT - 1
    ensures Answers(p, es) && Events(PieceBytes(p) + t) == es + Events(t)
  {
    match p
    case Whole(f) =>
      HeadOfFrame(f, t);
      es := [Accept(f)];
    case Debris(bytes) =>
      var s := bytes + t;
      AdvanceFar(s, |bytes|);
      es := Events(s)[..|bytes|];
      assert s[|bytes|..] == t;
      assert Events(s) == es + Events(s)[|bytes|..];
  }

  function Wholes(ps: seq<Piece>): seq<Frame> {
    if ps == [] then [] else (if ps[0].Whole? then [ps[0].frame] else []) + Wholes(ps[1..])
  }

  lemma {:induction false} AnswersAccepted(ps: seq<Piece>, parts: seq<seq<RxEvent>>)
    requires AllAnswered(ps, parts)
    ensures Accepted(Flatten(parts)) == Wholes(ps)
  {
    if ps != [] {
      assert Answers(ps[0], parts[0]);
      assert AllAnswered(ps[1..], parts[1..]) by {
        assert forall k :: 0 <= k < |ps| - 1 ==> ps[1..][k] == ps[k + 1] && parts[1..][k] == parts[k + 1];
      }
      AnswersAccepted(ps[1..], parts[1..]);
      AcceptedConcat(parts[0], Flatten(parts[1..]));
      if ps[0].Debris? {
        AcceptedOfQuiet(parts[0], []);
        assert parts[0] + [] == parts[0];
      }
    }
  }

  lemma {:induction false} NoSentinelNoFrame(s: seq<Byte>)
    requires PKT_SENTINEL !in s
    ensures Accepted(Events(s)) == []
    decreases |s|
  {
    if Head(s).Take? {
      assert s[0] in s;
      NoSentinelNoFrame(s[1..]);
      AcceptedCons(Skip, Events(s[1..]));
    }
  }

  /** What has been accepted of such a stream so far: whole frames, in order. */
  lemma OnlyWholes(ps: seq<Piece>, tail: seq<Byte>) returns (more: seq<Frame>)
    requires NothingHidden(ps, tail) && |tail| >= SCP_MAX_PKT - 1 && PKT_SENTINEL !in tail
    ensures Wholes(ps) == Accepted(Events(BytesOf(ps))) + more
  {
    var s := BytesOf(ps);
    var parts := HeardPieceByPiece(ps, tail);
    AnswersAccepted(ps, parts);
    NoSentinelNoFrame(tail);
    AcceptedConcat(Flatten(parts), Events(tail));
    DrainConcat(s, tail);
    more := Accepted(Events(Residue(s) + tail));
    AcceptedConcat(Events(s), Events(Residue(s) + tail));
    assert Wholes(ps) + [] == Wholes(ps);
  }
}
