/** The cached bitmap of tunable channels (sircon.cpp, scevents.h). */
module ChannelMap {
  import opened Scp

  const SCP_MAX_CHANNELS: nat := 224
  const SCP_CHANNEL_BITMAP_SIZE: nat := 28

  /** Bit k of a number. */
  predicate Bit(n: nat, k: nat) {
    if k == 0 then n % 2 == 1 else Bit(n / 2, k - 1)
  }

  /** A byte string read as one number, most significant byte first. */
  function BigEndian(s: seq<Byte>): nat {
    if s == [] then 0 else BigEndian(s[..|s| - 1]) * 0x100 + s[|s| - 1]
  }

  function Weight(k: nat): (w: nat)
    requires k < 8
    ensures w > 0
  {
    match k
    case 0 => 1
    case 1 => 2
    case 2 => 4
    case 3 => 8
    case 4 => 16
    case 5 => 32
    case 6 => 64
    case _ => 128
  }

  lemma {:induction false} BitIsDigit(n: nat, k: nat)
    requires k < 8
    ensures Bit(n, k) <==> n / Weight(k) % 2 == 1
  {
    if k > 0 {
      BitIsDigit(n / 2, k - 1);
      assert n / 2 / Weight(k - 1) == n / Weight(k);
    }
  }

  /** The lowest k + 1 bits are zero. */
  predicate EvenTo(d: nat, k: nat) {
    d % 2 == 0 && (k > 0 ==> EvenTo(d / 2, k - 1))
  }

  lemma {:induction false} AddEven(d: nat, b: nat, k: nat)
    requires EvenTo(d, k)
    ensures Bit(d + b, k) == Bit(b, k)
  {
    if k > 0 {
      assert (d + b) / 2 == d / 2 + b / 2;
      AddEven(d / 2, b / 2, k - 1);
    }
  }

  lemma Doubled(d: nat, k: nat)
    requires k > 0 ==> EvenTo(d, k - 1)
    ensures EvenTo(2 * d, k)
  {
    assert 2 * d / 2 == d;
  }

  lemma {:induction false} EvenToLess(d: nat, k: nat, j: nat)
    requires EvenTo(d, k) && j <= k
    ensures EvenTo(d, j)
  {
    if j > 0 {
      EvenToLess(d / 2, k - 1, j - 1);
    }
  }

  lemma LowBits(x: nat, b: Byte, k: nat)
    requires k < 8
    ensures Bit(x * 0x100 + b, k) == Bit(b, k)
  {
    Doubled(x, 0);
    Doubled(2 * x, 1);
    Doubled(4 * x, 2);
    Doubled(8 * x, 3);
    Doubled(16 * x, 4);
    Doubled(32 * x, 5);
    Doubled(64 * x, 6);
    Doubled(128 * x, 7);
    EvenToLess(x * 0x100, 7, k);
    AddEven(x * 0x100, b, k);
  }

  lemma Nibble(n: nat, k: nat)
    requires k >= 4
    ensures Bit(n, k) == Bit(n / 16, k - 4)
  {
    var n1 := n / 2;
    var n2 := n1 / 2;
    var n3 := n2 / 2;
    assert Bit(n, k) == Bit(n1, k - 1);
    assert Bit(n1, k - 1) == Bit(n2, k - 2);
    assert Bit(n2, k - 2) == Bit(n3, k - 3);
    assert Bit(n3, k - 3) == Bit(n3 / 2, k - 4);
    assert n3 / 2 == n / 16;
  }

  lemma HighBits(x: nat, b: Byte, k: nat)
    requires k >= 8
    ensures Bit(x * 0x100 + b, k) == Bit(x, k - 8)
  {
    var n := x * 0x100 + b;
    Nibble(n, k);
    Nibble(n / 16, k - 4);
    assert n / 16 / 16 == x;
  }

  /** Bit c of the number is bit c mod 8 of the byte c div 8 from the end. */
  lemma {:induction false} BitOfBigEndian(s: seq<Byte>, c: nat)
    requires c < 8 * |s|
    ensures Bit(BigEndian(s), c) == Bit(s[|s| - 1 - c / 8], c % 8)
  {
    var init, last := s[..|s| - 1], s[|s| - 1];
    if c < 8 {
      LowBits(BigEndian(init), last, c);
    } else {
      HighBits(BigEndian(init), last, c);
      BitOfBigEndian(init, c - 8);
    }
  }

  lemma MaskLow(b: Byte, k: nat)
    requires k < 4
    ensures var mask := (1 as bv8) << k; (b as bv8) & mask == mask <==> b / Weight(k) % 2 == 1
  {
    match k
    case 0 => assert (1 as bv8) << 0 == 1;
    case 1 => assert (1 as bv8) << 1 == 2;
    case 2 => assert (1 as bv8) << 2 == 4;
    case _ => assert (1 as bv8) << 3 == 8;
  }

  lemma MaskHigh(b: Byte, k: nat)
    requires 4 <= k < 8
    ensures var mask := (1 as bv8) << k; (b as bv8) & mask == mask <==> b / Weight(k) % 2 == 1
  {
    match k
    case 4 => assert (1 as bv8) << 4 == 16;
    case 5 => assert (1 as bv8) << 5 == 32;
    case 6 => assert (1 as bv8) << 6 == 64;
    case _ => assert (1 as bv8) << 7 == 128;
  }

  lemma MaskIsBit(b: Byte, k: nat)
    requires k < 8
    ensures var mask := (1 as bv8) << k; (b as bv8) & mask == mask <==> Bit(b, k)
  {
    BitIsDigit(b, k);
    if k < 4 {
      MaskLow(b, k);
    } else {
      MaskHigh(b, k);
    }
  }

  /** The cached copy of the map held by CSirCon. */
  class ChannelCache {
    var channelMap: seq<Byte>

    ghost predicate Valid()
      reads this
    {
      |channelMap| == SCP_CHANNEL_BITMAP_SIZE
    }

    constructor ()
      ensures Valid() && BigEndian(channelMap) == 0
    {
      channelMap := seq(SCP_CHANNEL_BITMAP_SIZE, _ => 0);
      new;
      AllZero(channelMap);
    }

    /** A successful response to a channel map request: four bytes of header,
        then the map; shorter ones are ignored. */
    method OnChannelMap(data: seq<Byte>)
      requires Valid()
      modifies this
      ensures Valid()
      ensures channelMap == if |data| >= 32 then data[4..32] else old(channelMap)
    {
      if |data| >= 32 {
        channelMap := data[4..4 + SCP_CHANNEL_BITMAP_SIZE];
      }
    }

    /** Channel c is valid exactly if bit c of the 224-bit map is set. */
    method IsValidChannel(channel: Byte) returns (valid: bool)
      requires Valid()
      ensures valid <==> channel < 224 && Bit(BigEndian(channelMap), channel)
    {
      valid := false;
      if channel < SCP_MAX_CHANNELS {
        var idx := SCP_CHANNEL_BITMAP_SIZE - channel / 8 - 1;
        var k := channel % 8;
        var mask := (1 as bv8) << k;
        MaskIsBit(channelMap[idx], k);
        BitOfBigEndian(channelMap, channel);
        if (channelMap[idx] as bv8) & mask == mask {
          valid := true;
        }
      }
    }
  }

  lemma {:induction false} AllZero(s: seq<Byte>)
    requires forall i :: 0 <= i < |s| ==> s[i] == 0
    ensures BigEndian(s) == 0
  {
    if s != [] {
      AllZero(s[..|s| - 1]);
    }
  }
}
