/** The binary configuration command the trigger gateway sends to each shutter/flash controller
    (trigger.py, heartbeat): an ASCII tag, the controller's network id, the channel count, a
    flash-power byte, three big-endian 16-bit flash durations and one big-endian 16-bit
    (open, close) pair per channel. */
module Packet {

  import opened Wrappers

  type Byte = x: int | 0 <= x < 256

  predicate IsU16(v: int)
  {
    0 <= v < 0x1_0000
  }

  /** `s.encode('ASCII')` for a string of ASCII characters. */
  function Ascii(s: string): (bytes: seq<Byte>)
    ensures |bytes| == |s|
  {
    seq(|s|, i requires 0 <= i < |s| => (s[i] as int) % 256)
  }

  const ConfigurationTag: seq<Byte> := Ascii("configuration")
  const ChannelCount: nat := 24
  const FlashCount: nat := 3
  /** Tag, network id, channel count and flash-power byte. */
  const HeaderLength: nat := 16

  // ---------------------------------------------------------------------------------------------
  // 16-bit big-endian words

  /** `struct.pack('>H', v)`: high byte first. */
  function U16(v: int): (b: seq<Byte>)
    requires IsU16(v)
    ensures |b| == 2 && ReadU16(b[0], b[1]) == v
  {
    [v / 256, v % 256]
  }

  function ReadU16(hi: Byte, lo: Byte): (v: int)
    ensures IsU16(v)
  {
    hi * 256 + lo
  }

  predicate AllU16(vs: seq<int>)
  {
    forall i :: 0 <= i < |vs| ==> IsU16(vs[i])
  }

  predicate AllPairsU16(ps: seq<(int, int)>)
  {
    forall i :: 0 <= i < |ps| ==> IsU16(ps[i].0) && IsU16(ps[i].1)
  }

  /** One word after the other, as the loop over `flash_times` writes them. */
  function Words(vs: seq<int>): (b: seq<Byte>)
    requires AllU16(vs)
    ensures |b| == 2 * |vs|
  {
    if vs == [] then [] else U16(vs[0]) + Words(vs[1..])
  }

  /** One (open, close) pair after the other, as the loop over `shutter_times` writes them. */
  function PairWords(ps: seq<(int, int)>): (b: seq<Byte>)
    requires AllPairsU16(ps)
    ensures |b| == 4 * |ps|
  {
    if ps == [] then [] else U16(ps[0].0) + U16(ps[0].1) + PairWords(ps[1..])
  }

  function ReadWords(b: seq<Byte>): seq<int>
  {
    if |b| < 2 then [] else [ReadU16(b[0], b[1])] + ReadWords(b[2..])
  }

  function ReadPairs(b: seq<Byte>): seq<(int, int)>
  {
    if |b| < 4 then [] else [(ReadU16(b[0], b[1]), ReadU16(b[2], b[3]))] + ReadPairs(b[4..])
  }

  lemma {:induction false} WordsRoundTrip(vs: seq<int>)
    requires AllU16(vs)
    ensures ReadWords(Words(vs)) == vs
  {
    if vs != [] {
      var b := Words(vs);
      assert b[2..] == Words(vs[1..]);
      WordsRoundTrip(vs[1..]);
      assert vs == [vs[0]] + vs[1..];
    }
  }

  lemma {:induction false} PairWordsRoundTrip(ps: seq<(int, int)>)
    requires AllPairsU16(ps)
    ensures ReadPairs(PairWords(ps)) == ps
  {
    if ps != [] {
      var b := PairWords(ps);
      assert b[4..] == PairWords(ps[1..]);
      PairWordsRoundTrip(ps[1..]);
      assert ps == [ps[0]] + ps[1..];
    }
  }

  lemma {:induction false} WordsAppend(vs: seq<int>, v: int)
    requires AllU16(vs) && IsU16(v)
    ensures AllU16(vs + [v]) && Words(vs + [v]) == Words(vs) + U16(v)
  {
    if vs != [] {
      assert (vs + [v])[1..] == vs[1..] + [v];
      WordsAppend(vs[1..], v);
    } else {
      assert vs + [v] == [v];
    }
  }

  lemma {:induction false} PairWordsAppend(ps: seq<(int, int)>, p: (int, int))
    requires AllPairsU16(ps) && IsU16(p.0) && IsU16(p.1)
    ensures AllPairsU16(ps + [p]) && PairWords(ps + [p]) == PairWords(ps) + U16(p.0) + U16(p.1)
  {
    if ps != [] {
      assert (ps + [p])[1..] == ps[1..] + [p];
      PairWordsAppend(ps[1..], p);
    } else {
      assert ps + [p] == [p];
    }
  }

  /** Word `i` occupies bytes `2i` and `2i + 1`. */
  lemma {:induction false} WordsAt(vs: seq<int>, i: nat)
    requires AllU16(vs) && i < |vs|
    ensures ReadU16(Words(vs)[2 * i], Words(vs)[2 * i + 1]) == vs[i]
  {
    if i > 0 {
      WordsAt(vs[1..], i - 1);
    }
  }

  /** Channel `c`'s open time occupies bytes `4c`, `4c + 1` and its close time `4c + 2`, `4c + 3`. */
  lemma {:induction false} PairWordsAt(ps: seq<(int, int)>, c: nat)
    requires AllPairsU16(ps) && c < |ps|
    ensures ReadU16(PairWords(ps)[4 * c], PairWords(ps)[4 * c + 1]) == ps[c].0
    ensures ReadU16(PairWords(ps)[4 * c + 2], PairWords(ps)[4 * c + 3]) == ps[c].1
  {
    if c > 0 {
      PairWordsAt(ps[1..], c - 1);
    }
  }

  // ---------------------------------------------------------------------------------------------
  // The command

  predicate FrameInRange(power: int, flashTimes: seq<int>, shutterTimes: seq<(int, int)>)
  {
    0 <= power < 256 && |shutterTimes| < 256 && AllU16(flashTimes) && AllPairsU16(shutterTimes)
  }

  /** The command bytes for the given field values. */
  function Frame(netid: Byte, power: int, flashTimes: seq<int>, shutterTimes: seq<(int, int)>): seq<Byte>
    requires FrameInRange(power, flashTimes, shutterTimes)
  {
    ConfigurationTag + [netid, |shutterTimes|, power] + Words(flashTimes) + PairWords(shutterTimes)
  }

  datatype Fields = Fields(netid: Byte, power: Byte, flashTimes: seq<int>, shutterTimes: seq<(int, int)>)

  /** What a controller reads back from a command with three flash durations. */
  function Decode(b: seq<Byte>): Option<Fields>
  {
    if |b| < HeaderLength + 2 * FlashCount || b[..|ConfigurationTag|] != ConfigurationTag then None
    else if |b| != HeaderLength + 2 * FlashCount + 4 * (b[14] as int) then None
    else Some(Fields(b[13], b[15], ReadWords(b[HeaderLength..HeaderLength + 2 * FlashCount]),
                     ReadPairs(b[HeaderLength + 2 * FlashCount..])))
  }

  /** Every command with three flash durations decodes to the fields it was built from. */
  lemma DecodeFrame(netid: Byte, power: int, flashTimes: seq<int>, shutterTimes: seq<(int, int)>)
    requires FrameInRange(power, flashTimes, shutterTimes) && |flashTimes| == FlashCount
    ensures Decode(Frame(netid, power, flashTimes, shutterTimes)) == Some(Fields(netid, power, flashTimes, shutterTimes))
  {
    var b := Frame(netid, power, flashTimes, shutterTimes);
    assert |ConfigurationTag| == 13;
    assert b[..13] == ConfigurationTag;
    assert b[13] == netid && b[14] == |shutterTimes| && b[15] == power;
    assert b[16..22] == Words(flashTimes);
    assert b[22..] == PairWords(shutterTimes);
    WordsRoundTrip(flashTimes);
    PairWordsRoundTrip(shutterTimes);
  }

  /** The loops of the gateway that fill the command with `append` and `extend`. */
  method BuildFrame(netid: Byte, power: int, flashTimes: seq<int>, shutterTimes: seq<(int, int)>)
    returns (packet: seq<Byte>)
    requires FrameInRange(power, flashTimes, shutterTimes)
    ensures packet == Frame(netid, power, flashTimes, shutterTimes)
  {
    packet := Ascii("configuration");
    packet := packet + [netid];
    packet := packet + [|shutterTimes|];
    packet := packet + [power];
    ghost var header := packet;
    for i := 0 to |flashTimes|
      invariant packet == header + Words(flashTimes[..i])
    {
      WordsAppend(flashTimes[..i], flashTimes[i]);
      assert flashTimes[..i + 1] == flashTimes[..i] + [flashTimes[i]];
      packet := packet + U16(flashTimes[i]);
    }
    assert flashTimes[..|flashTimes|] == flashTimes;
    ghost var middle := packet;
    for j := 0 to |shutterTimes|
      invariant packet == middle + PairWords(shutterTimes[..j])
    {
      PairWordsAppend(shutterTimes[..j], shutterTimes[j]);
      assert shutterTimes[..j + 1] == shutterTimes[..j] + [shutterTimes[j]];
      packet := packet + U16(shutterTimes[j].0);
      packet := packet + U16(shutterTimes[j].1);
    }
    assert shutterTimes[..|shutterTimes|] == shutterTimes;
  }

  // ---------------------------------------------------------------------------------------------
  // From the configuration payload to the command

  /** The payload fields the gateway reads. Times are in milliseconds and `flashPower` is in
      hundredths (0.5 is 50). */
  datatype Settings = Settings(openTime: int, closeTime: int, flashPower: int, flashTime: int)

  const Defaults: map<string, int> :=
    map["open_time" := 100, "close_time" := 200, "flash_power" := 50, "flash_time" := 150]

  /** `configuration.update(payload)` over the defaults: a key in the payload overrides its
      default, a missing key keeps it. */
  function Merged(payload: map<string, int>): (s: Settings)
    ensures s.openTime == if "open_time" in payload then payload["open_time"] else 100
    ensures s.closeTime == if "close_time" in payload then payload["close_time"] else 200
    ensures s.flashPower == if "flash_power" in payload then payload["flash_power"] else 50
    ensures s.flashTime == if "flash_time" in payload then payload["flash_time"] else 150
  {
    var c := Defaults + payload;
    Settings(c["open_time"], c["close_time"], c["flash_power"], c["flash_time"])
  }

  /** Python's `int()` on a quotient: rounds toward zero. */
  function TruncatingDiv(a: int, b: int): int
    requires b > 0
  {
    if a >= 0 then a / b else -((-a) / b)
  }

  /** `int(flash_power * 2.55)` with the power in hundredths. */
  function PowerByte(hundredths: int): int
  {
    TruncatingDiv(hundredths * 255, 10000)
  }

  /** The flash-power byte is 2.55 times the power truncated toward zero: the largest whole number
      not above it for a non-negative power, the smallest not below it for a negative one. */
  lemma PowerByteTruncates(hundredths: int)
    ensures var p := PowerByte(hundredths);
      && (hundredths >= 0 ==> p * 10000 <= hundredths * 255 < p * 10000 + 10000)
      && (hundredths < 0 ==> p * 10000 - 10000 < hundredths * 255 <= p * 10000)
  {
  }

  /** `[flash_time * 10] * 3`: durations in tenths of a millisecond. */
  function FlashTimes(s: Settings): seq<int>
  {
    seq(FlashCount, _ => s.flashTime * 10)
  }

  /** The same (open, close) pair, in tenths of a millisecond, for each of the 24 channels. */
  function ShutterTimes(s: Settings): seq<(int, int)>
  {
    seq(ChannelCount, _ => (s.openTime * 10, s.closeTime * 10))
  }

  /** The values fit their fields; otherwise the source raises while building the command. */
  predicate Encodable(s: Settings)
  {
    0 <= PowerByte(s.flashPower) < 256 && IsU16(s.flashTime * 10) && IsU16(s.openTime * 10) && IsU16(s.closeTime * 10)
  }

  /** Encodable settings give field values that fit the command's fields. */
  lemma EncodableInRange(s: Settings)
    requires Encodable(s)
    ensures FrameInRange(PowerByte(s.flashPower), FlashTimes(s), ShutterTimes(s))
  {
  }

  function ConfigurationPacket(netid: Byte, s: Settings): seq<Byte>
    requires Encodable(s)
  {
    EncodableInRange(s);
    Frame(netid, PowerByte(s.flashPower), FlashTimes(s), ShutterTimes(s))
  }

  /** Flash duration `i` is the word at bytes `16 + 2i` and `17 + 2i` of a command. */
  lemma FrameFlashAt(netid: Byte, power: int, flashTimes: seq<int>, shutterTimes: seq<(int, int)>, i: nat)
    requires FrameInRange(power, flashTimes, shutterTimes) && i < |flashTimes|
    ensures var b := Frame(netid, power, flashTimes, shutterTimes);
      ReadU16(b[HeaderLength + 2 * i], b[HeaderLength + 2 * i + 1]) == flashTimes[i]
  {
    var b := Frame(netid, power, flashTimes, shutterTimes);
    var w := Words(flashTimes);
    assert b == (ConfigurationTag + [netid, |shutterTimes|, power]) + w + PairWords(shutterTimes);
    WordsAt(flashTimes, i);
    assert b[HeaderLength + 2 * i] == w[2 * i] && b[HeaderLength + 2 * i + 1] == w[2 * i + 1];
  }

  /** Channel `c`'s open and close times follow the flash durations, four bytes per channel. */
  lemma FrameChannelAt(netid: Byte, power: int, flashTimes: seq<int>, shutterTimes: seq<(int, int)>, c: nat)
    requires FrameInRange(power, flashTimes, shutterTimes) && c < |shutterTimes|
    ensures var b := Frame(netid, power, flashTimes, shutterTimes);
      var at := HeaderLength + 2 * |flashTimes| + 4 * c;
      && ReadU16(b[at], b[at + 1]) == shutterTimes[c].0
      && ReadU16(b[at + 2], b[at + 3]) == shutterTimes[c].1
  {
    var b := Frame(netid, power, flashTimes, shutterTimes);
    var w := PairWords(shutterTimes);
    var front := ConfigurationTag + [netid, |shutterTimes|, power] + Words(flashTimes);
    assert b == front + w;
    assert |front| == HeaderLength + 2 * |flashTimes|;
    PairWordsAt(shutterTimes, c);
    var at := |front| + 4 * c;
    assert b[at] == w[4 * c] && b[at + 1] == w[4 * c + 1];
    assert b[at + 2] == w[4 * c + 2] && b[at + 3] == w[4 * c + 3];
  }

  /** Lines 76-90 of the gateway for one controller: the field values from the settings, then the
      command built from them. */
  method BuildConfigurationPacket(netid: Byte, s: Settings) returns (packet: seq<Byte>)
    requires Encodable(s)
    ensures packet == ConfigurationPacket(netid, s)
  {
    var shutterTimes := seq(ChannelCount, _ => (s.openTime * 10, s.closeTime * 10));
    var power := TruncatingDiv(s.flashPower * 255, 10000);
    var flashTimes := seq(FlashCount, _ => s.flashTime * 10);
    EncodableInRange(s);
    packet := BuildFrame(netid, power, flashTimes, shutterTimes);
  }

  /** The command is 118 bytes: the 13-byte tag, the network id, 24, the flash-power byte, three
      flash durations and 24 (open, close) pairs, each word big-endian. */
  lemma PacketLayout(netid: Byte, s: Settings)
    requires Encodable(s)
    ensures var b := ConfigurationPacket(netid, s);
      && |b| == 118
      && b[..13] == ConfigurationTag && b[13] == netid && b[14] == ChannelCount && b[15] == PowerByte(s.flashPower)
      && (forall i :: 0 <= i < FlashCount ==> ReadU16(b[16 + 2 * i], b[17 + 2 * i]) == s.flashTime * 10)
      && (forall c :: 0 <= c < ChannelCount ==>
            ReadU16(b[22 + 4 * c], b[23 + 4 * c]) == s.openTime * 10 &&
            ReadU16(b[24 + 4 * c], b[25 + 4 * c]) == s.closeTime * 10)
  {
    var f, p := FlashTimes(s), ShutterTimes(s);
    var b := Frame(netid, PowerByte(s.flashPower), f, p);
    assert |ConfigurationTag| == 13;
    assert b[..13] == ConfigurationTag;
    forall i | 0 <= i < FlashCount
      ensures ReadU16(b[16 + 2 * i], b[17 + 2 * i]) == s.flashTime * 10
    {
      FrameFlashAt(netid, PowerByte(s.flashPower), f, p, i);
    }
    forall c | 0 <= c < ChannelCount
      ensures ReadU16(b[22 + 4 * c], b[23 + 4 * c]) == s.openTime * 10
      ensures ReadU16(b[24 + 4 * c], b[25 + 4 * c]) == s.closeTime * 10
    {
      FrameChannelAt(netid, PowerByte(s.flashPower), f, p, c);
    }
  }

  /** The default payload sent to network id 5: flash-power byte 1 (0.5 * 2.55 = 1.275,
      truncated), flash durations 1500, and 24 pairs (1000, 2000). */
  lemma DefaultPayloadPacket()
    ensures var s := Merged(map[]);
      && Encodable(s)
      && Decode(ConfigurationPacket(5, s)) == Some(Fields(5, 1, [1500, 1500, 1500], seq(24, _ => (1000, 2000))))
  {
    var s := Merged(map[]);
    assert s == Settings(100, 200, 50, 150);
    assert PowerByte(50) == 1;
    assert FlashTimes(s) == [1500, 1500, 1500];
    assert ShutterTimes(s) == seq(24, _ => (1000, 2000));
    DecodeFrame(5, 1, FlashTimes(s), ShutterTimes(s));
  }
}
