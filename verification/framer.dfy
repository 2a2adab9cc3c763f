/** The resynchronising parse loop of CSirCon::OnRun as a function of the staged
    bytes, and what it means for the byte stream as a whole (sircon.cpp). */
module Framer {
  import opened Scp
  import opened Codec

  datatype RxEvent = Accept(frame: Frame) | BadChecksum(seqno: Byte) | Skip

  /** One turn of the parse loop: wait for more bytes, or report and consume. */
  datatype Look = Wait | Take(event: RxEvent, count: nat)

  function Head(s: seq<Byte>): (r: Look)
    ensures r.Take? ==> 1 <= r.count <= |s|
  {
    if |s| < HEADER_SIZE then Wait
    else if s[0] != PKT_SENTINEL then Take(Skip, 1)
    else if ClaimedLength(s) > |s| then Wait
    else if ChecksumOk(s[..ClaimedLength(s)]) then
      Take(Accept(Decode(s[..ClaimedLength(s)])), ClaimedLength(s))
    else Take(BadChecksum(s[3]), 1)
  }

  function Events(s: seq<Byte>): seq<RxEvent>
    decreases |s|
  {
    match Head(s)
    case Wait => []
    case Take(e, n) => [e] + Events(s[n..])
  }

  function Residue(s: seq<Byte>): (r: seq<Byte>)
    ensures Head(r).Wait? && |r| < SCP_MAX_PKT && |r| <= |s|
    decreases |s|
  {
    match Head(s)
    case Wait => s
    case Take(_, n) => Residue(s[n..])
  }

  // ------------------------------------------------------- chunk invariance

  /** Once the parser can decide, later bytes do not change its mind. */
  lemma HeadStable(a: seq<Byte>, b: seq<Byte>)
    requires Head(a).Take?
    ensures Head(a + b) == Head(a)
  {
    if a[0] == PKT_SENTINEL {
      var n := ClaimedLength(a);
      assert (a + b)[..n] == a[..n];
    }
  }

  /** Parsing early and then again with the rest is parsing it all at once. */
  lemma {:induction false} DrainConcat(a: seq<Byte>, b: seq<Byte>)
    ensures Events(a + b) == Events(a) + Events(Residue(a) + b)
    ensures Residue(a + b) == Residue(Residue(a) + b)
    decreases |a|
  {
    match Head(a)
    case Wait =>
    case Take(e, n) =>
      HeadStable(a, b);
      assert (a + b)[n..] == a[n..] + b;
      DrainConcat(a[n..], b);
  }

  /** What survives between two reads: the escape flag and the staged bytes. */
  datatype RxState = RxState(esc: bool, staged: seq<Byte>)

  const RX_INIT := RxState(false, [])

  function FeedEvents(st: RxState, chunk: seq<Byte>): seq<RxEvent> {
    Events(st.staged + Unescape(st.esc, chunk))
  }

  function FeedState(st: RxState, chunk: seq<Byte>): RxState {
    RxState(EscState(st.esc, chunk), Residue(st.staged + Unescape(st.esc, chunk)))
  }

  function FeedAllEvents(st: RxState, chunks: seq<seq<Byte>>): seq<RxEvent>
    decreases |chunks|
  {
    if chunks == [] then []
    else FeedEvents(st, chunks[0]) + FeedAllEvents(FeedState(st, chunks[0]), chunks[1..])
  }

  function FeedAllState(st: RxState, chunks: seq<seq<Byte>>): RxState
    decreases |chunks|
  {
    if chunks == [] then st else FeedAllState(FeedState(st, chunks[0]), chunks[1..])
  }

  lemma FeedConcat(st: RxState, a: seq<Byte>, b: seq<Byte>)
    ensures FeedEvents(st, a + b) == FeedEvents(st, a) + FeedEvents(FeedState(st, a), b)
    ensures FeedState(st, a + b) == FeedState(FeedState(st, a), b)
  {
    UnescapeConcat(st.esc, a, b);
    var x, y := Unescape(st.esc, a), Unescape(EscState(st.esc, a), b);
    assert st.staged + (x + y) == (st.staged + x) + y;
    DrainConcat(st.staged + x, y);
  }

  /** Events and final state depend on the bytes received, not on how the
      serial port happened to hand them over. */
  lemma {:induction false} ChunkInvariance(st: RxState, chunks: seq<seq<Byte>>)
    requires Head(st.staged).Wait?
    ensures FeedAllEvents(st, chunks) == FeedEvents(st, Flatten(chunks))
    ensures FeedAllState(st, chunks) == FeedState(st, Flatten(chunks))
    decreases |chunks|
  {
    if chunks == [] {
      assert st.staged + [] == st.staged;
    } else {
      ChunkInvariance(FeedState(st, chunks[0]), chunks[1..]);
      FeedConcat(st, chunks[0], Flatten(chunks[1..]));
    }
  }

  // -------------------------------------------------------------- round trip

  function Accepts(fs: seq<Frame>): seq<RxEvent> {
    if fs == [] then [] else [Accept(fs[0])] + Accepts(fs[1..])
  }

  function WireAll(fs: seq<Frame>): seq<Byte> {
    if fs == [] then [] else Wire(Encode(fs[0])) + WireAll(fs[1..])
  }

  function EncodeAll(fs: seq<Frame>): seq<Byte> {
    if fs == [] then [] else Encode(fs[0]) + EncodeAll(fs[1..])
  }

  lemma {:induction false} UnescapeWireAll(fs: seq<Frame>)
    ensures !EscState(false, WireAll(fs)) && Unescape(false, WireAll(fs)) == EncodeAll(fs)
  {
    if fs != [] {
      UnescapeWireAll(fs[1..]);
      UnescapeWire(Encode(fs[0]));
      UnescapeConcat(false, Wire(Encode(fs[0])), WireAll(fs[1..]));
    }
  }

  lemma HeadOfFrame(f: Frame, t: seq<Byte>)
    ensures Head(Encode(f) + t) == Take(Accept(f), |Encode(f)|)
    ensures (Encode(f) + t)[|Encode(f)|..] == t
  {
    EncodeWellFormed(f);
    var e := Encode(f);
    assert (e + t)[..|e|] == e;
  }

  lemma {:induction false} DrainEncodeAll(fs: seq<Frame>)
    ensures Events(EncodeAll(fs)) == Accepts(fs) && Residue(EncodeAll(fs)) == []
  {
    if fs != [] {
      HeadOfFrame(fs[0], EncodeAll(fs[1..]));
      DrainEncodeAll(fs[1..]);
    }
  }

  /** Whatever frames are composed, escaped and sent, and however the bytes are
      cut up on arrival, exactly those frames are accepted, in order, and the
      receiver ends idle: not inside an escape, nothing staged. */
  lemma WireRoundTrip(fs: seq<Frame>, chunks: seq<seq<Byte>>)
    requires Flatten(chunks) == WireAll(fs)
    ensures FeedAllEvents(RX_INIT, chunks) == Accepts(fs)
    ensures FeedAllState(RX_INIT, chunks) == RX_INIT
  {
    ChunkInvariance(RX_INIT, chunks);
    UnescapeWireAll(fs);
    assert [] + EncodeAll(fs) == EncodeAll(fs);
    DrainEncodeAll(fs);
  }

  // -------------------------------------------------------- resynchronisation

  function Accepted(es: seq<RxEvent>): seq<Frame> {
    if es == [] then []
    else (if es[0].Accept? then [es[0].frame] else []) + Accepted(es[1..])
  }

  /** A frame starts at offset i: sentinel, and the claimed span is all there
      and sums to zero. */
  predicate FrameAt(s: seq<Byte>, i: nat)
    requires i <= |s|
  {
    var t := s[i..];
    |t| >= HEADER_SIZE && ClaimedLength(t) <= |t| && WellFormed(t[..ClaimedLength(t)])
  }

  function FrameSpan(s: seq<Byte>, i: nat): nat
    requires i <= |s| && FrameAt(s, i)
  {
    ClaimedLength(s[i..])
  }

  lemma FrameAtShift(s: seq<Byte>, j: nat)
    requires j < |s|
    ensures FrameAt(s, j + 1) <==> FrameAt(s[1..], j)
  {
    assert s[1..][j..] == s[j + 1..];
  }

  ghost predicate NoFrameBefore(s: seq<Byte>, i: nat)
    requires i <= |s|
  {
    forall j :: 0 <= j < i ==> !FrameAt(s, j)
  }

  lemma NoFrameBeforeShift(s: seq<Byte>, i: nat)
    requires 0 < i <= |s| && NoFrameBefore(s, i)
    ensures NoFrameBefore(s[1..], i - 1) && !FrameAt(s, 0)
  {
    forall j | 0 <= j < i - 1
      ensures !FrameAt(s[1..], j)
    {
      FrameAtShift(s, j);
    }
  }

  /** Reports of a stretch of bytes in which no frame was found. */
  ghost predicate Quiet(es: seq<RxEvent>) {
    forall x :: x in es ==> !x.Accept?
  }

  lemma {:induction false} AcceptedOfQuiet(a: seq<RxEvent>, b: seq<RxEvent>)
    requires Quiet(a)
    ensures Accepted(a + b) == Accepted(b)
  {
    if a == [] {
      assert a + b == b;
    } else {
      assert (a + b)[1..] == a[1..] + b;
      AcceptedOfQuiet(a[1..], b);
    }
  }

  /** The parser got to offset i reporting once for every byte before it, and
      accepting nothing. */
  ghost predicate Reached(s: seq<Byte>, i: nat)
    requires i <= |s|
  {
    && i <= |Events(s)| && Quiet(Events(s)[..i])
    && Events(s)[i..] == Events(s[i..])
    && Residue(s) == Residue(s[i..])
  }

  /** The parser accepted nothing and still waits for bytes from before i. */
  ghost predicate StillBefore(s: seq<Byte>, i: nat)
    requires i <= |s|
  {
    Quiet(Events(s)) && |s| - i < |Residue(s)| && |s| - i < SCP_MAX_PKT - 1
  }

  /** If no frame starts before offset i, the parser reaches i one byte and one
      report at a time, or is still waiting, short of i, for a candidate to
      complete; it accepts nothing on the way. */
  lemma {:induction false} Advance(s: seq<Byte>, i: nat)
    requires i <= |s| && NoFrameBefore(s, i)
    ensures Reached(s, i) || StillBefore(s, i)
    decreases |s|
  {
    if i == 0 {
      assert s[0..] == s && Events(s)[0..] == Events(s);
    } else {
      match Head(s)
      case Wait =>
      case Take(e, n) =>
        NoFrameBeforeShift(s, i);
        NotAFrame(s);
        Advance(s[1..], i - 1);
        AdvanceOne(s, i);
    }
  }

  lemma AdvanceOne(s: seq<Byte>, i: nat)
    requires 0 < i <= |s| && Head(s).Take? && Head(s).count == 1 && !Head(s).event.Accept?
    requires Reached(s[1..], i - 1) || StillBefore(s[1..], i - 1)
    ensures Reached(s, i) || StillBefore(s, i)
  {
    var rest := Events(s[1..]);
    assert Events(s) == [Head(s).event] + rest;
    assert s[1..][i - 1..] == s[i..];
    if Reached(s[1..], i - 1) {
      assert Events(s)[..i] == [Head(s).event] + rest[..i - 1];
      assert Events(s)[i..] == rest[i - 1..];
    }
  }

  lemma NotAFrame(s: seq<Byte>)
    requires Head(s).Take? && !FrameAt(s, 0)
    ensures !Head(s).event.Accept? && Head(s).count == 1
  {
    assert s[0..] == s;
    if s[0] == PKT_SENTINEL {
      var n := ClaimedLength(s);
      assert s[..n][0] == s[0] && s[..n][5] == s[5];
    }
  }

  lemma AcceptedHead(t: seq<Byte>, f: Frame, n: nat)
    requires Head(t) == Take(Accept(f), n)
    ensures Accepted(Events(t)) == [f] + Accepted(Events(t[n..]))
  {
    var es := Events(t);
    assert es[1..] == Events(t[n..]);
  }

  lemma HeadAt(s: seq<Byte>, i: nat)
    requires i <= |s| && FrameAt(s, i)
    ensures var n := FrameSpan(s, i);
            Head(s[i..]) == Take(Accept(Decode(s[i..i + n])), n) && s[i..][n..] == s[i + n..]
  {
    var t, n := s[i..], FrameSpan(s, i);
    assert t[..n] == s[i..i + n];
  }

  lemma AcceptAt(s: seq<Byte>, i: nat)
    requires i <= |s| && FrameAt(s, i)
    ensures var n := FrameSpan(s, i);
            Accepted(Events(s[i..])) == [Decode(s[i..i + n])] + Accepted(Events(s[i + n..]))
  {
    HeadAt(s, i);
    AcceptedHead(s[i..], Decode(s[i..i + FrameSpan(s, i)]), FrameSpan(s, i));
  }

  lemma AdvanceFar(s: seq<Byte>, i: nat)
    requires i <= |s| && NoFrameBefore(s, i) && |s| - i >= SCP_MAX_PKT - 1
    ensures Reached(s, i) && Accepted(Events(s)) == Accepted(Events(s[i..]))
  {
    Advance(s, i);
    var es := Events(s);
    assert es == es[..i] + es[i..];
    AcceptedOfQuiet(es[..i], es[i..]);
  }

  /** The first frame accepted is the one that starts earliest in the stream,
      as soon as a full frame's worth of bytes follows the last offset before
      it (so that no false candidate is still incomplete). */
  lemma FirstAccepted(s: seq<Byte>, i: nat)
    requires i <= |s| && FrameAt(s, i) && NoFrameBefore(s, i)
    requires |s| - i >= SCP_MAX_PKT - 1
    ensures var n := FrameSpan(s, i);
            Accepted(Events(s)) == [Decode(s[i..i + n])] + Accepted(Events(s[i + n..]))
  {
    AdvanceFar(s, i);
    AcceptAt(s, i);
  }

  lemma AcceptedFrom(s: seq<Byte>, i: nat)
    requires i <= |s| && (Reached(s, i) || StillBefore(s, i))
    ensures Reached(s, i) ==> Accepted(Events(s)) == Accepted(Events(s[i..]))
    ensures StillBefore(s, i) ==> Accepted(Events(s)) == []
  {
    var es := Events(s);
    if Reached(s, i) {
      assert es == es[..i] + es[i..];
      AcceptedOfQuiet(es[..i], es[i..]);
    }
    if StillBefore(s, i) {
      assert es + [] == es;
      AcceptedOfQuiet(es, []);
    }
  }

  /** garbage ++ frame ++ tail: when no frame starts inside the garbage, the
      parser either still holds the whole frame, having accepted nothing, or
      has accepted it first; with enough tail it has. */
  lemma Resynchronises(garbage: seq<Byte>, f: Frame, tail: seq<Byte>)
    requires NoFrameBefore(garbage + Encode(f) + tail, |garbage|)
    ensures var s := garbage + Encode(f) + tail;
            || Accepted(Events(s)) == [f] + Accepted(Events(tail))
            || (&& Accepted(Events(s)) == []
                && |Encode(f) + tail| < |Residue(s)|
                && |Encode(f) + tail| < SCP_MAX_PKT - 1)
  {
    var s := garbage + Encode(f) + tail;
    var rest := Encode(f) + tail;
    assert s[|garbage|..] == rest;
    Advance(s, |garbage|);
    AcceptedFrom(s, |garbage|);
    HeadOfFrame(f, tail);
    AcceptedHead(rest, f, |Encode(f)|);
  }
}
