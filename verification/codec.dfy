/** Frame layout, checksum and byte stuffing (sircon.cpp). */
module Codec {
  import opened Scp

  // ---------------------------------------------------------------- checksum

  function Sum(s: seq<Byte>): nat {
    if s == [] then 0 else Sum(s[..|s| - 1]) + s[|s| - 1]
  }

  lemma {:induction false} SumConcat(a: seq<Byte>, b: seq<Byte>)
    ensures Sum(a + b) == Sum(a) + Sum(b)
  {
    if b == [] {
      assert a + b == a;
    } else {
      var n := |a + b| - 1;
      assert (a + b)[..n] == a + b[..|b| - 1];
      SumConcat(a, b[..|b| - 1]);
    }
  }

  lemma Complement(n: nat, c: Byte)
    ensures (n + c) % 0x100 == 0 <==> c == (0x100 - n % 0x100) % 0x100
  {
    var q, r := n / 0x100, n % 0x100;
    assert n + c == 0x100 * q + (r + c);
    assert (n + c) % 0x100 == (r + c) % 0x100;
  }

  lemma AddByte(n: nat, b: Byte)
    ensures (n % 0x100 + b) % 0x100 == (n + b) % 0x100
  {
    var q := n / 0x100;
    assert n + b == 0x100 * q + (n % 0x100 + b);
  }

  /** The two's complement of the byte sum: the byte that brings it to zero. */
  method ComputeChecksum(data: seq<Byte>) returns (r: Byte)
    ensures (Sum(data) + r) % 0x100 == 0
  {
    var sum: Byte := 0;
    for i := 0 to |data|
      invariant sum == Sum(data[..i]) % 0x100
    {
      assert data[..i + 1][..i] == data[..i];
      AddByte(Sum(data[..i]), data[i]);
      sum := (sum + data[i]) % 0x100;
    }
    assert data[..|data|] == data;
    r := (0xFF - sum + 1) % 0x100;
    Complement(Sum(data), r);
  }

  predicate ChecksumOk(s: seq<Byte>) { Sum(s) % 0x100 == 0 }

  method ValidateChecksum(data: seq<Byte>) returns (ok: bool)
    ensures ok <==> ChecksumOk(data)
  {
    var sum: Byte := 0;
    for i := 0 to |data|
      invariant sum == Sum(data[..i]) % 0x100
    {
      assert data[..i + 1][..i] == data[..i];
      AddByte(Sum(data[..i]), data[i]);
      sum := (sum + data[i]) % 0x100;
    }
    assert data[..|data|] == data;
    ok := sum == 0;
  }

  function Checksum(s: seq<Byte>): Byte { (0x100 - Sum(s) % 0x100) % 0x100 }

  lemma SumSnoc(s: seq<Byte>, c: Byte)
    ensures Sum(s + [c]) == Sum(s) + c
  {
    assert (s + [c])[..|s|] == s;
  }

  /** There is only one byte that completes a given body. */
  lemma ChecksumUnique(s: seq<Byte>, c: Byte)
    ensures (Sum(s) + c) % 0x100 == 0 <==> c == Checksum(s)
  {
    Complement(Sum(s), c);
  }

  lemma ChecksumCompletes(s: seq<Byte>, c: Byte)
    ensures ChecksumOk(s + [c]) <==> c == Checksum(s)
  {
    SumSnoc(s, c);
    ChecksumUnique(s, c);
  }

  lemma {:induction false} SumUpdate(s: seq<Byte>, i: nat, b: Byte)
    requires i < |s|
    ensures Sum(s[i := b]) == Sum(s) - s[i] + b
  {
    assert s == s[..i] + ([s[i]] + s[i + 1..]);
    assert s[i := b] == s[..i] + ([b] + s[i + 1..]);
    SumConcat(s[..i], [s[i]] + s[i + 1..]);
    SumConcat(s[..i], [b] + s[i + 1..]);
    SumConcat([s[i]], s[i + 1..]);
    SumConcat([b], s[i + 1..]);
    assert [b][..0] == [] && [s[i]][..0] == [];
  }

  // ------------------------------------------------------------ frame layout

  function Header(f: Frame): seq<Byte> {
    [PKT_SENTINEL, 3, 0, f.seqno, f.flags, |f.data|]
  }

  function Encode(f: Frame): seq<Byte> {
    Header(f) + f.data + [Checksum(Header(f) + f.data)]
  }

  /** The length a buffered header claims for its frame. */
  function ClaimedLength(s: seq<Byte>): nat
    requires |s| >= HEADER_SIZE
  {
    HEADER_SIZE + s[5] + 1
  }

  /** The bytes are one complete frame: right length, sentinel, checksum. */
  predicate WellFormed(s: seq<Byte>) {
    |s| >= HEADER_SIZE && |s| == ClaimedLength(s) && s[0] == PKT_SENTINEL && ChecksumOk(s)
  }

  function Decode(s: seq<Byte>): Frame
    requires |s| >= HEADER_SIZE && |s| == ClaimedLength(s)
  {
    Frame(s[3], s[4], s[HEADER_SIZE..|s| - 1])
  }

  lemma EncodeWellFormed(f: Frame)
    ensures WellFormed(Encode(f))
    ensures |Encode(f)| == HEADER_SIZE + |f.data| + 1 <= SCP_MAX_PKT
    ensures Decode(Encode(f)) == f
  {
    ChecksumCompletes(Header(f) + f.data, Checksum(Header(f) + f.data));
    var e := Encode(f);
    assert e[3] == f.seqno && e[4] == f.flags && e[5] == |f.data|;
    assert e[HEADER_SIZE..|e| - 1] == f.data;
  }

  /** The bytes of a frame, position by position. */
  lemma FrameLayout(f: Frame)
    ensures var e := Encode(f);
            && |e| == 7 + |f.data| && Sum(e) % 0x100 == 0
            && e[..6] == [0xA4, 0x03, 0x00, f.seqno, f.flags, |f.data|] && e[6..|e| - 1] == f.data
  {
    ChecksumCompletes(Header(f) + f.data, Checksum(Header(f) + f.data));
    var e := Encode(f);
    assert e[..6] == Header(f);
  }

  /** What is read out of a frame, whatever the two bytes nobody reads are. */
  lemma ReadOut(x: Byte, y: Byte, seqno: Byte, flags: Byte, data: Payload, sum: Byte)
    ensures var s := [0xA4, x, y, seqno, flags, |data|] + data + [sum];
            ClaimedLength(s) == |s| && Decode(s) == Frame(seqno, flags, data)
  {
    var s := [0xA4, x, y, seqno, flags, |data|] + data + [sum];
    assert s[6..|s| - 1] == data;
  }

  /** Decoding loses nothing but the two bytes nobody reads. */
  lemma DecodeEncode(s: seq<Byte>)
    requires WellFormed(s) && s[1] == 3 && s[2] == 0
    ensures Encode(Decode(s)) == s
  {
    var f := Decode(s);
    var body := s[..|s| - 1];
    assert body == Header(f) + f.data;
    assert s == body + [s[|s| - 1]];
    ChecksumCompletes(body, s[|s| - 1]);
  }

  /** Changing any one byte of a span that passes the checksum is caught, as long
      as the span stays the same. */
  lemma SingleByteErrorDetected(s: seq<Byte>, i: nat, b: Byte)
    requires ChecksumOk(s) && i < |s| && b != s[i]
    ensures !ChecksumOk(s[i := b])
  {
    SumUpdate(s, i, b);
  }

  // ------------------------------------------------------------ byte stuffing

  /** How Write renders the byte found at position i of a frame. */
  function EscapeByte(i: nat, b: Byte): seq<Byte> {
    if b == PKT_SENTINEL && i > 0 then [ASCII_ESC, SENTINEL_ESC]
    else if b == ASCII_ESC then [ASCII_ESC, ASCII_ESC]
    else [b]
  }

  function Wire(s: seq<Byte>): seq<Byte> {
    if s == [] then [] else Wire(s[..|s| - 1]) + EscapeByte(|s| - 1, s[|s| - 1])
  }

  /** On the wire every byte but the first is itself, or one of two pairs. */
  lemma WiredAs(before: seq<Byte>, b: Byte)
    requires before != []
    ensures Wire(before + [b])
         == Wire(before) + if b == 0xA4 then [0x1B, 0x53] else if b == 0x1B then [0x1B, 0x1B] else [b]
  {
    assert (before + [b])[..|before|] == before;
  }

  /** tmpbuf[n++] = c, once for every byte given. */
  method Emit(tmpbuf: array<Byte>, n: nat, out: seq<Byte>) returns (n': nat)
    requires n + |out| <= tmpbuf.Length
    modifies tmpbuf
    ensures n' == n + |out|
    ensures tmpbuf[..n'] == old(tmpbuf[..n]) + out
  {
    for i := 0 to |out|
      invariant tmpbuf[..n + i] == old(tmpbuf[..n]) + out[..i]
    {
      tmpbuf[n + i] := out[i];
    }
    n' := n + |out|;
  }

  lemma {:induction false} WireGrows(s: seq<Byte>, i: nat)
    requires i <= |s|
    ensures |Wire(s[..i])| + (|s| - i) <= |Wire(s)|
    decreases |s|
  {
    if i < |s| {
      WireGrows(s[..|s| - 1], i);
      assert s[..|s| - 1][..i] == s[..i];
    } else {
      assert s[..i] == s;
    }
  }

  lemma EscapeStep(buf: seq<Byte>, i: nat)
    requires i < |buf|
    ensures Wire(buf[..i + 1]) == Wire(buf[..i]) + EscapeByte(i, buf[i])
  {
    assert buf[..i + 1][..i] == buf[..i];
  }

  /** No escape pair would straddle the end of the temporary buffer. */
  ghost predicate NeverSplit(buf: seq<Byte>) {
    forall i: nat :: i < |buf| && |Wire(buf[..i])| == SCP_STAGEBUFSIZE - 1 ==> |EscapeByte(i, buf[i])| == 1
  }

  lemma StepFits(buf: seq<Byte>, i: nat)
    requires i < |buf|
    ensures |Wire(buf[..i])| + |EscapeByte(i, buf[i])| <= |Wire(buf)|
  {
    EscapeStep(buf, i);
    WireGrows(buf, i + 1);
  }

  /** A buffer whose wire form fits is escaped whole. */
  lemma FitsWhole(buf: seq<Byte>, used: nat)
    requires |Wire(buf)| <= SCP_STAGEBUFSIZE && used <= |buf|
    ensures NeverSplit(buf)
    ensures used < |buf| ==> |Wire(buf[..used])| < SCP_STAGEBUFSIZE
    ensures used == |buf| ==> buf[..used] == buf
  {
    WireGrows(buf, used);
    forall i: nat | i < |buf|
      ensures |Wire(buf[..i])| + |EscapeByte(i, buf[i])| <= |Wire(buf)|
    {
      StepFits(buf, i);
    }
  }

  /** How the loop of Write renders the byte at position i. */
  method EscapeOne(tmpbuf: array<Byte>, n: nat, i: nat, b: Byte) returns (n': nat)
    requires n + |EscapeByte(i, b)| <= tmpbuf.Length
    modifies tmpbuf
    ensures n' == n + |EscapeByte(i, b)| && tmpbuf[..n'] == old(tmpbuf[..n]) + EscapeByte(i, b)
  {
    if b == PKT_SENTINEL {
      if i > 0 {
        n' := Emit(tmpbuf, n, [ASCII_ESC, SENTINEL_ESC]);
      } else {
        n' := Emit(tmpbuf, n, [b]);
      }
    } else if b == ASCII_ESC {
      n' := Emit(tmpbuf, n, [ASCII_ESC, ASCII_ESC]);
    } else {
      n' := Emit(tmpbuf, n, [b]);
    }
  }

  /** The escaping loop of Write, over its fixed temporary buffer: the wire form of
      all the bytes, or of as many as fill the buffer. */
  method EscapeFrame(buf: seq<Byte>) returns (tmpbuf: array<Byte>, n: nat, used: nat)
    requires NeverSplit(buf)
    ensures fresh(tmpbuf) && tmpbuf.Length == SCP_STAGEBUFSIZE
    ensures used <= |buf| && n <= SCP_STAGEBUFSIZE && tmpbuf[..n] == Wire(buf[..used])
    ensures used == |buf| || n == SCP_STAGEBUFSIZE
  {
    tmpbuf := new Byte[SCP_STAGEBUFSIZE](_ => 0);
    n, used := 0, 0;
    while used < |buf| && n < SCP_STAGEBUFSIZE
      invariant 0 <= used <= |buf| && n <= SCP_STAGEBUFSIZE
      invariant tmpbuf[..n] == Wire(buf[..used])
    {
      EscapeStep(buf, used);
      n := EscapeOne(tmpbuf, n, used, buf[used]);
      used := used + 1;
    }
  }

  /** On the wire a frame starts with the sentinel, and the sentinel occurs
      nowhere else; the wire form always fits the transmit buffer. */
  lemma {:induction false} WireShape(s: seq<Byte>)
    requires s != [] && s[0] == PKT_SENTINEL
    ensures |s| <= |Wire(s)| <= 2 * |s| - 1
    ensures forall j :: 0 <= j < |Wire(s)| ==> (Wire(s)[j] == PKT_SENTINEL <==> j == 0)
  {
    var t := s[..|s| - 1];
    if t == [] {
      assert Wire(t) == [] && Wire(s) == [] + [PKT_SENTINEL];
    } else {
      WireShape(t);
      assert Wire(s) == Wire(t) + EscapeByte(|s| - 1, s[|s| - 1]);
    }
  }

  lemma EncodedFrameFits(f: Frame)
    ensures |Wire(Encode(f))| <= 2 * |Encode(f)| - 1 < SCP_STAGEBUFSIZE
    ensures forall j :: 0 <= j < |Wire(Encode(f))| ==> (Wire(Encode(f))[j] == PKT_SENTINEL <==> j == 0)
  {
    EncodeWellFormed(f);
    WireShape(Encode(f));
  }

  /** The receive automaton: its one bit of state says that the byte before
      was an unpaired ESC. */
  function EscAfter(esc: bool, b: Byte): bool {
    b == ASCII_ESC && !esc
  }

  function UnescapeByte(esc: bool, b: Byte): seq<Byte> {
    if esc then
      if b == ASCII_ESC then [ASCII_ESC] else if b == SENTINEL_ESC then [PKT_SENTINEL] else []
    else if b == ASCII_ESC then [] else [b]
  }

  function EscState(esc: bool, raw: seq<Byte>): bool {
    if raw == [] then esc
    else EscAfter(EscState(esc, raw[..|raw| - 1]), raw[|raw| - 1])
  }

  function Unescape(esc: bool, raw: seq<Byte>): (r: seq<Byte>)
    ensures |r| <= |raw|
  {
    if raw == [] then []
    else
      var init := raw[..|raw| - 1];
      Unescape(esc, init) + UnescapeByte(EscState(esc, init), raw[|raw| - 1])
  }

  lemma UnescapeSnoc(esc: bool, raw: seq<Byte>, b: Byte)
    ensures EscState(esc, raw + [b]) == EscAfter(EscState(esc, raw), b)
    ensures Unescape(esc, raw + [b]) == Unescape(esc, raw) + UnescapeByte(EscState(esc, raw), b)
  {
    assert (raw + [b])[..|raw|] == raw;
  }

  /** The automaton's bit is all it carries from one read to the next. */
  lemma {:induction false} UnescapeConcat(esc: bool, a: seq<Byte>, b: seq<Byte>)
    ensures EscState(esc, a + b) == EscState(EscState(esc, a), b)
    ensures Unescape(esc, a + b) == Unescape(esc, a) + Unescape(EscState(esc, a), b)
  {
    if b == [] {
      assert a + b == a;
      assert Unescape(esc, a) + [] == Unescape(esc, a);
    } else {
      var b' := b[..|b| - 1];
      assert (a + b)[..|a + b| - 1] == a + b';
      UnescapeConcat(esc, a, b');
    }
  }

  /** An unknown escape is dropped, both bytes of it, and nothing else is. */
  lemma UnknownEscape(before: seq<Byte>, b: Byte, rest: seq<Byte>)
    requires !EscState(false, before) && b != 0x1B && b != 0x53
    ensures Unescape(false, before + ([0x1B, b] + rest)) == Unescape(false, before) + Unescape(false, rest)
  {
    UnescapeConcat(false, before, [0x1B, b] + rest);
    UnescapeConcat(false, [0x1B, b], rest);
    UnescapeConcat(false, [0x1B], [b]);
    assert [0x1B, b] == [0x1B] + [b];
    UnescapeOne(false, 0x1B);
    UnescapeOne(true, b);
    assert [] + Unescape(false, rest) == Unescape(false, rest);
  }

  lemma UnescapeOne(esc: bool, b: Byte)
    ensures EscState(esc, [b]) == EscAfter(esc, b)
    ensures Unescape(esc, [b]) == UnescapeByte(esc, b)
  {
    assert [b][..0] == [];
  }

  lemma UnescapeEscapeByte(i: nat, b: Byte)
    ensures !EscState(false, EscapeByte(i, b))
    ensures Unescape(false, EscapeByte(i, b)) == [b]
  {
    var e := EscapeByte(i, b);
    UnescapeOne(false, e[0]);
    if |e| == 2 {
      assert e == [e[0]] + [e[1]];
      UnescapeConcat(false, [e[0]], [e[1]]);
      UnescapeOne(true, e[1]);
    }
  }

  lemma UnescapeThen(w: seq<Byte>, e: seq<Byte>, b: Byte)
    requires !EscState(false, w) && !EscState(false, e) && Unescape(false, e) == [b]
    ensures !EscState(false, w + e) && Unescape(false, w + e) == Unescape(false, w) + [b]
  {
    UnescapeConcat(false, w, e);
  }

  lemma SplitLast(s: seq<Byte>)
    requires s != []
    ensures s == s[..|s| - 1] + [s[|s| - 1]]
  {
  }

  lemma WireSnoc(t: seq<Byte>, b: Byte)
    ensures Wire(t + [b]) == Wire(t) + EscapeByte(|t|, b)
  {
    assert (t + [b])[..|t|] == t;
  }

  lemma UnescapeWireSnoc(t: seq<Byte>, b: Byte)
    requires !EscState(false, Wire(t)) && Unescape(false, Wire(t)) == t
    ensures !EscState(false, Wire(t + [b])) && Unescape(false, Wire(t + [b])) == t + [b]
  {
    WireSnoc(t, b);
    UnescapeEscapeByte(|t|, b);
    UnescapeThen(Wire(t), EscapeByte(|t|, b), b);
  }

  /** De-escaping undoes escaping and leaves the automaton where it started. */
  lemma {:induction false} UnescapeWire(s: seq<Byte>)
    ensures !EscState(false, Wire(s))
    ensures Unescape(false, Wire(s)) == s
  {
    if s != [] {
      var t, b := s[..|s| - 1], s[|s| - 1];
      UnescapeWire(t);
      UnescapeWireSnoc(t, b);
      SplitLast(s);
    }
  }

  /** Line noise before a frame reaches past itself in one case only: it ends
      in an unpaired ESC, which then swallows the frame's sentinel. */
  lemma NoiseBeforeFrame(noise: seq<Byte>, s: seq<Byte>)
    requires s != [] && s[0] == PKT_SENTINEL
    ensures !EscState(false, noise + Wire(s))
    ensures Unescape(false, noise + Wire(s))
         == Unescape(false, noise) + (if EscState(false, noise) then s[1..] else s)
  {
    UnescapeConcat(false, noise, Wire(s));
    UnescapeWire(s);
    if EscState(false, noise) {
      SwallowedSentinel(s);
    }
  }

  lemma WireFirst(s: seq<Byte>)
    requires s != [] && s[0] == PKT_SENTINEL
    ensures Wire(s) != [] && Wire(s)[0] == PKT_SENTINEL
  {
    WireShape(s);
  }

  lemma SwallowedSentinel(s: seq<Byte>)
    requires s != [] && s[0] == PKT_SENTINEL
    ensures !EscState(true, Wire(s)) && Unescape(true, Wire(s)) == s[1..]
  {
    WireFirst(s);
    UnescapeWire(s);
    SplitFirst(Wire(s));
    SwallowedFirst(Wire(s)[1..]);
    TailOf(s, Unescape(false, Wire(s)[1..]));
  }

  lemma SplitFirst(s: seq<Byte>)
    requires s != []
    ensures s == [s[0]] + s[1..]
  {
  }

  lemma TailOf(s: seq<Byte>, r: seq<Byte>)
    requires s == [PKT_SENTINEL] + r
    ensures s[1..] == r
  {
  }

  /** An escape flag left over turns the sentinel into an unknown escape. */
  lemma SwallowedFirst(rest: seq<Byte>)
    ensures var w := [PKT_SENTINEL] + rest;
            && EscState(true, w) == EscState(false, w)
            && Unescape(false, w) == [PKT_SENTINEL] + Unescape(true, w)
            && Unescape(true, w) == Unescape(false, rest)
  {
    UnescapeFirst(true, PKT_SENTINEL, rest);
    UnescapeFirst(false, PKT_SENTINEL, rest);
    assert [] + Unescape(false, rest) == Unescape(false, rest);
  }

  lemma UnescapeFirst(esc: bool, b: Byte, rest: seq<Byte>)
    ensures EscState(esc, [b] + rest) == EscState(EscAfter(esc, b), rest)
    ensures Unescape(esc, [b] + rest) == UnescapeByte(esc, b) + Unescape(EscAfter(esc, b), rest)
  {
    UnescapeOne(esc, b);
    UnescapeConcat(esc, [b], rest);
  }
}
