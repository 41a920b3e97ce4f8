// The MPEG-4 AudioSpecificConfig: a bit-aligned descriptor of sample rate,
// channel layout and profile.

module AacConfig {
  import opened Errors
  import opened Bytes
  import opened Bits

  // The fields, and `raw`, the verbatim bytes a parse keeps.
  datatype Config = Config(
    objectType: byte, index: byte, frequency: u32, channels: byte,
    sbr: bool, ps: bool, extIndex: byte, extFrequency: u32, raw: bytes)

  const FRESH: Config := Config(2, 0, 0, 0, false, false, 0, 0, [])

  const RATES: seq<u32> := [
    96000, 88200, 64000, 48000, 44100, 32000, 24000, 22050,
    16000, 12000, 11025, 8000, 7350, 0, 0, 0]

  function IndexToFrequency(index: byte): u32 {
    if index >= 16 then 0 else RATES[index]
  }

  function IndexFrom(i: nat, hz: u32): (index: byte)
    requires i <= 13
    ensures index == 15 || (i <= index < 13 && RATES[index] == hz)
    ensures forall k :: i <= k < 13 && (index == 15 || k < index) ==> RATES[k] != hz
    decreases 13 - i
  {
    if i == 13 then 15 else if RATES[i] == hz then i else IndexFrom(i + 1, hz)
  }

  function FrequencyToIndex(hz: u32): byte {
    IndexFrom(0, hz)
  }

  method FindIndex(hz: u32) returns (index: byte)
    ensures index == FrequencyToIndex(hz)
  {
    var i := 0;
    while i < 13
      invariant 0 <= i <= 13
      invariant FrequencyToIndex(hz) == IndexFrom(i, hz)
    {
      if RATES[i] == hz { return i; }
      i := i + 1;
    }
    return 15;
  }

  // ---------------------------------------------------------------------
  // Parsing
  // ---------------------------------------------------------------------

  datatype Rate = Rate(index: byte, frequency: u32, rest: bits, short: bool)

  // A rate: a 4-bit index, and a 24-bit frequency after index 15.
  function ReadRate(b: bits): (r: Rate)
    ensures r.index == Take(b, 4)
  {
    TakeIsBelow(b, 4);
    PowersUsed();
    var index := Take(b, 4);
    var rest := Rest(b, 4);
    if index == 15 then
      TakeIsBelow(rest, 24);
      Rate(15, Take(rest, 24), Rest(rest, 24), |rest| < 24)
    else Rate(index, RATES[index], rest, |b| < 4)
  }

  datatype Outcome = Outcome(config: Config, err: Error)

  function ParseBits(b: bits, c: Config): Outcome {
    TakeIsBelow(b, 5);
    PowersUsed();
    var aot := Take(b, 5);
    if aot == 31 then Outcome(c, NotSupported)
    else
      var c1 := c.(objectType := aot);
      var r := ReadRate(Rest(b, 5));
      if r.index == 13 || r.index == 14 then Outcome(c1, CorruptData)
      else
        TakeIsBelow(r.rest, 4);
        var c2 := c1.(index := r.index, frequency := r.frequency, channels := Take(r.rest, 4));
        if aot == 5 || aot == 29 then ParseExtension(Rest(r.rest, 4), c2, aot)
        else Outcome(c2, if |r.rest| < 4 then OutOfRange else Ok)
  }

  // The SBR / PS layer, and the object type it wraps.
  function ParseExtension(b: bits, c: Config, aot: nat): Outcome {
    PowersUsed();
    var r := ReadRate(b);
    TakeIsBelow(r.rest, 5);
    var inner := Take(r.rest, 5);
    var c1 := c.(sbr := true, ps := aot == 29, extIndex := r.index, extFrequency := r.frequency);
    if inner == 31 then Outcome(c1, NotSupported)
    else Outcome(c1.(objectType := inner), if |r.rest| < 5 then OutOfRange else Ok)
  }

  function Parse(p: bytes, c: Config): Outcome {
    if |p| < 2 then Outcome(c, OutOfRange)
    else
      var o := ParseBits(BitsOf(p), c);
      if o.err == Ok then Outcome(o.config.(raw := p), Ok) else o
  }

  lemma PowersUsed()
    ensures Pow2(4) == 16 && Pow2(5) == 32 && Pow2(24) == 0x100_0000
  {
    assert Pow2(8) == 256;
    PowSum(8, 8);
    PowSum(16, 8);
  }

  method ReadRateFrom(br: BitReader) returns (index: byte, frequency: u32)
    requires br.Valid()
    modifies br`pos, br`truncated
    ensures br.Valid()
    ensures var r := ReadRate(old(br.Left()));
            && index == r.index && frequency == r.frequency && br.Left() == r.rest
            && br.truncated == (old(br.truncated) || r.short)
  {
    hide BitsOf, Take, Rest, Pow2;
    PowersUsed();
    TakeIsBelow(br.Left(), 4);
    RestIsShort(br.Left(), 4);
    index := br.Read(4);
    frequency := 0;
    if index == 15 {
      TakeIsBelow(br.Left(), 24);
      frequency := br.Read(24);
    } else if index <= 12 {
      frequency := RATES[index];
    }
  }

  lemma RestIsShort(b: bits, n: nat)
    ensures |b| < n ==> Rest(b, n) == []
  {
  }

  lemma NothingLeft()
    ensures ReadRate([]).rest == []
  {
  }

  method ParseExtensionFrom(br: BitReader, c0: Config, aot: nat) returns (o: Outcome)
    requires br.Valid()
    modifies br`pos, br`truncated
    ensures o == ParseExtension(old(br.Left()), c0, aot)
  {
    hide BitsOf, Rest, Pow2, ReadRate, Take;
    ghost var b := br.Left();
    NothingLeft();
    assert br.truncated ==> b == [];
    var extIndex, extFrequency := ReadRateFrom(br);
    var c := c0.(sbr := true, ps := aot == 29, extIndex := extIndex, extFrequency := extFrequency);
    PowersUsed();
    TakeIsBelow(br.Left(), 5);
    var inner := br.Read(5);
    if inner == 31 { return Outcome(c, NotSupported); }
    c := c.(objectType := inner);
    return Outcome(c, if br.truncated then OutOfRange else Ok);
  }

  method ParseFrom(br: BitReader, c0: Config) returns (o: Outcome)
    requires br.Valid() && !br.truncated && |br.Left()| >= 5
    modifies br`pos, br`truncated
    ensures o == ParseBits(old(br.Left()), c0)
  {
    hide BitsOf, Rest, Pow2, ReadRate, Take, ParseExtension;
    PowersUsed();
    ghost var b := br.Left();
    TakeIsBelow(b, 5);
    var aot := br.Read(5);
    if aot == 31 { return Outcome(c0, NotSupported); }
    var c := c0.(objectType := aot);
    var index, frequency := ReadRateFrom(br);
    if index == 13 || index == 14 { return Outcome(c, CorruptData); }
    TakeIsBelow(br.Left(), 4);
    var channels := br.Read(4);
    c := c.(index := index, frequency := frequency, channels := channels);
    if aot == 5 || aot == 29 {
      o := ParseExtensionFrom(br, c, aot);
      return;
    }
    return Outcome(c, if br.truncated then OutOfRange else Ok);
  }

  // The descriptor parser, over whatever config the caller passes in.
  method ParseInto(p: bytes, c0: Config) returns (o: Outcome)
    ensures o == Parse(p, c0)
  {
    hide BitsOf, ParseBits;
    if |p| < 2 { return Outcome(c0, OutOfRange); }
    var br := new BitReader(p);
    o := ParseFrom(br, c0);
    if o.err == Ok {
      o := Outcome(o.config.(raw := p), Ok);
    }
  }

  // ---------------------------------------------------------------------
  // Serializing
  // ---------------------------------------------------------------------

  function RateBits(index: byte, frequency: u32): bits {
    if index == 15 then Field(15, 4) + Field(frequency, 24) else Field(index, 4)
  }

  function ExtensionBits(c: Config): bits {
    RateBits(c.extIndex, c.extFrequency) + (Field(if c.objectType == 0 then 2 else c.objectType, 5) + Field(0, 3))
  }

  function ConfigBits(c: Config): bits {
    Field(if !c.sbr then c.objectType else if c.ps then 29 else 5, 5)
    + (RateBits(c.index, c.frequency)
       + (Field(c.channels, 4) + (if c.sbr then ExtensionBits(c) else Field(0, 3))))
  }

  // A config that carries verbatim bytes replays them.
  function Serialize(c: Config): bytes {
    if c.raw != [] then c.raw else Pack(ConfigBits(c))
  }

  method SerializeTo(c: Config, out0: bytes) returns (out: bytes)
    ensures out == out0 + Serialize(c)
  {
    hide Field, BitsOf, Pack, RateBits;
    if |c.raw| > 0 { return out0 + c.raw; }
    var bw := new BitWriter(out0);
    ghost var b0 := bw.Written();
    if c.sbr {
      bw.Write(if c.ps then 29 else 5, 5);
    } else {
      bw.Write(c.objectType, 5);
    }
    WriteRate(bw, c.index, c.frequency);
    bw.Write(c.channels, 4);
    ghost var head := Field(if !c.sbr then c.objectType else if c.ps then 29 else 5, 5);
    ghost var core := bw.Written();
    if c.sbr {
      WriteRate(bw, c.extIndex, c.extFrequency);
      bw.Write(if c.objectType != 0 then c.objectType else 2, 5);
    }
    bw.Write(0, 3);
    if c.sbr {
      AssocThree(core, RateBits(c.extIndex, c.extFrequency),
                 Field(if c.objectType == 0 then 2 else c.objectType, 5), Field(0, 3));
    }
    AssocFour(b0, head, RateBits(c.index, c.frequency), Field(c.channels, 4),
              if c.sbr then ExtensionBits(c) else Field(0, 3));
    assert bw.Written() == b0 + ConfigBits(c);
    bw.Finalize();
    Packed(out0, ConfigBits(c), bw.out);
    return bw.out;
  }

  lemma AssocThree<T>(a: seq<T>, b: seq<T>, c: seq<T>, d: seq<T>)
    ensures a + b + c + d == a + (b + (c + d))
  {
  }

  lemma AssocFour<T>(a: seq<T>, b: seq<T>, c: seq<T>, d: seq<T>, e: seq<T>)
    ensures a + b + c + d + e == a + (b + (c + (d + e)))
  {
  }

  method WriteRate(bw: BitWriter, index: byte, frequency: u32)
    requires bw.Valid()
    modifies bw
    ensures bw.Valid() && bw.Written() == old(bw.Written()) + RateBits(index, frequency)
  {
    hide Field, BitsOf;
    if index == 15 {
      ghost var b := bw.Written();
      bw.Write(15, 4);
      bw.Write(frequency, 24);
      Assoc(b, Field(15, 4), Field(frequency, 24));
    } else {
      bw.Write(index, 4);
    }
  }

  lemma {:induction false} Packed(out0: bytes, b: bits, out: bytes)
    requires BitsOf(out) == BitsOf(out0) + b + Zeros(Padding(|BitsOf(out0) + b|))
    ensures out == out0 + Pack(b)
  {
    hide BitsOf, Pack, Zeros, Padding;
    BitsOfPack(b);
    BitsOfJoin(out0, Pack(b));
    Assoc(BitsOf(out0), b, Zeros(Padding(|b|)));
    PaddingModulo(|out0|, |b|);
    BitsOfIsInjective(out, out0 + Pack(b));
  }
}
