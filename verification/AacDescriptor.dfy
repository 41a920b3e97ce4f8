// The AudioSpecificConfig byte by byte, table 1.15 of ISO/IEC 14496-3, and the
// sample rates of table 1.18 that its index stands for.

module AacDescriptor {
  import opened Errors
  import opened Bytes
  import opened Bits
  import opened AacConfig
  import opened AacConfigLaws

  // ---------------------------------------------------------------------
  // Sample rates
  // ---------------------------------------------------------------------

  // Four octaves of three rates below 96, 88.2 and 64 kHz, and 7350 Hz.
  lemma RatesOfTheStandard()
    ensures IndexToFrequency(0) == 96000 && IndexToFrequency(1) == 88200 && IndexToFrequency(2) == 64000
    ensures forall i: byte :: i < 9 ==> 2 * IndexToFrequency(i + 3) == IndexToFrequency(i)
    ensures IndexToFrequency(12) == 7350
    ensures forall i: byte :: 13 <= i ==> IndexToFrequency(i) == 0
  {
  }

  // An index stands for one rate and a rate has one index; any other rate has 15.
  lemma IndexOfARate(hz: u32, k: byte)
    ensures k < 13 ==> (FrequencyToIndex(hz) == k <==> hz == IndexToFrequency(k))
    ensures FrequencyToIndex(hz) == 15 <==> forall i: byte :: i < 13 ==> IndexToFrequency(i) != hz
    ensures FrequencyToIndex(hz) < 13 || FrequencyToIndex(hz) == 15
  {
    var j := FrequencyToIndex(hz);
    assert j < 13 ==> IndexToFrequency(j) == hz;
    if k < 13 && hz == IndexToFrequency(k) {
      DifferentRates(j, k);
    }
  }

  lemma DifferentRates(j: byte, k: byte)
    ensures j < 13 && k < 13 && IndexToFrequency(j) == IndexToFrequency(k) ==> j == k
  {
  }

  // ---------------------------------------------------------------------
  // Two-byte descriptors
  // ---------------------------------------------------------------------

  // Five bits of object type, four of rate index, four of channels, three more.
  lemma {:induction false} TwoBytes(aot: nat, k: nat, ch: nat, low: nat, more: bytes)
    requires aot < 32 && k < 16 && ch < 16 && low < 8
    ensures BitsOf([aot * 8 + k / 2, k % 2 * 128 + ch * 8 + low] + more)
            == Field(aot, 5) + (Field(k, 4) + (Field(ch, 4) + (Field(low, 3) + BitsOf(more))))
  {
    hide Field, BitsOf, Pow2;
    TwoBytesOf(aot * 8 + k / 2, k % 2 * 128 + ch * 8 + low, more);
    FirstByte(aot, k);
    SecondByte(k % 2, ch, low);
    Straddle(Field(aot, 5), Field(k / 2, 3), Field(k % 2, 1), Field(ch, 4), Field(low, 3), BitsOf(more));
  }

  lemma {:induction false} FirstByte(aot: nat, k: nat)
    requires aot < 32 && k < 16
    ensures Field(aot * 8 + k / 2, 8) == Field(aot, 5) + Field(k / 2, 3)
    ensures Field(k, 4) == Field(k / 2, 3) + Field(k % 2, 1)
  {
    hide Field;
    SmallPowers();
    hide Pow2;
    Join(aot, 5, k / 2, 3, 8);
    Join(k / 2, 3, k % 2, 1, 2);
  }

  lemma {:induction false} SecondByte(bit: nat, ch: nat, low: nat)
    requires bit < 2 && ch < 16 && low < 8
    ensures Field(bit * 128 + ch * 8 + low, 8) == Field(bit, 1) + (Field(ch, 4) + Field(low, 3))
  {
    hide Field;
    SmallPowers();
    hide Pow2;
    Join(ch, 4, low, 3, 8);
    Join(bit, 1, ch * 8 + low, 7, 128);
  }

  lemma {:induction false} ThirdByteOf(x: nat, inner: nat, low: nat)
    requires x < 16 && inner < 32 && low < 4
    ensures Field(x % 2 * 128 + inner * 4 + low, 8) == Field(x % 2, 1) + (Field(inner, 5) + Field(low, 2))
    ensures Field(x, 4) == Field(x / 2, 3) + Field(x % 2, 1)
  {
    hide Field;
    SmallPowers();
    hide Pow2;
    Join(inner, 5, low, 2, 4);
    Join(x % 2, 1, inner * 4 + low, 7, 128);
    Join(x / 2, 3, x % 2, 1, 2);
  }

  lemma {:induction false} TwoBytesOf(a: byte, b: byte, more: bytes)
    ensures BitsOf([a, b] + more) == Field(a, 8) + (Field(b, 8) + BitsOf(more))
  {
    hide Field, BitsOf;
    BitsOfByte(a);
    BitsOfByte(b);
    BitsOfJoin([b], more);
    BitsOfJoin([a], [b] + more);
    assert [a, b] + more == [a] + ([b] + more);
  }

  lemma Straddle(a: bits, b1: bits, b2: bits, c: bits, d: bits, rest: bits)
    ensures (a + b1) + ((b2 + (c + d)) + rest) == a + ((b1 + b2) + (c + (d + rest)))
  {
    Assoc(a, b1, (b2 + (c + d)) + rest);
    Assoc(b2, c + d, rest);
    Assoc(c, d, rest);
    Assoc(b1, b2, c + (d + rest));
  }

  // What such a descriptor parses to, whatever follows it.
  lemma PlainDescriptorParses(aot: byte, k: byte, ch: byte, low: nat, more: bytes, c0: Config)
    requires aot < 31 && aot != 5 && aot != 29 && k < 13 && ch < 16 && low < 8
    ensures var p := [aot * 8 + k / 2, k % 2 * 128 + ch * 8 + low] + more;
            Parse(p, c0) == Outcome(c0.(objectType := aot, index := k, frequency := IndexToFrequency(k),
                                        channels := ch, raw := p), Ok)
  {
    hide Field, BitsOf, Take, Rest, ReadRate;
    TwoBytes(aot, k, ch, low, more);
    SmallPowers();
    hide Pow2;
    var rest := Field(ch, 4) + (Field(low, 3) + BitsOf(more));
    TakeField(aot, 5, Field(k, 4) + rest);
    RateReadsBack(k, IndexToFrequency(k), rest);
    TakeField(ch, 4, Field(low, 3) + BitsOf(more));
  }

  // And what a config of those fields is written as.
  lemma PlainDescriptorBytes(c: Config)
    requires c.raw == [] && !c.sbr && c.objectType < 32 && c.index < 15 && c.channels < 16
    ensures Serialize(c) == [c.objectType * 8 + c.index / 2, c.index % 2 * 128 + c.channels * 8]
  {
    hide Field, BitsOf, Pack, Zeros, Padding;
    var s: bytes := [c.objectType * 8 + c.index / 2, c.index % 2 * 128 + c.channels * 8];
    TwoBytes(c.objectType, c.index, c.channels, 0, []);
    NoBits();
    assert s + [] == s && Field(0, 3) + [] == Field(0, 3);
    PackedBits(c);
    PaddingOf(2, 0, 16);
    NoZeros();
    assert BitsOf(s) + [] == BitsOf(s);
    BitsOfIsInjective(s, Serialize(c));
  }

  lemma NoZeros()
    ensures Zeros(0) == []
  {
  }

  // With the escape index, a rate of 24 bits stands between index and channels.
  lemma EscapedDescriptorParses(aot: byte, hz: u32, ch: byte, low: nat, more: bytes, c0: Config)
    requires aot < 31 && aot != 5 && aot != 29 && hz < 0x100_0000 && ch < 16 && low < 8
    ensures var p := [aot * 8 + 7, 128 + hz / 0x2_0000, hz / 0x200 % 256, hz / 2 % 256,
                      hz % 2 * 128 + ch * 8 + low] + more;
            Parse(p, c0) == Outcome(c0.(objectType := aot, index := 15, frequency := hz,
                                        channels := ch, raw := p), Ok)
  {
    hide Field, BitsOf, Take, Rest, ReadRate;
    FiveBytes(aot, hz, ch, low, more);
    PowersUsed();
    hide Pow2;
    var rest := Field(ch, 4) + (Field(low, 3) + BitsOf(more));
    Assoc(Field(15, 4), Field(hz, 24), rest);
    TakeField(aot, 5, Field(15, 4) + (Field(hz, 24) + rest));
    RateReadsBack(15, hz, rest);
    TakeField(ch, 4, Field(low, 3) + BitsOf(more));
  }

  lemma {:induction false} FiveBytes(aot: nat, hz: nat, ch: nat, low: nat, more: bytes)
    requires aot < 32 && hz < 0x100_0000 && ch < 16 && low < 8
    ensures BitsOf([aot * 8 + 7, 128 + hz / 0x2_0000, hz / 0x200 % 256, hz / 2 % 256,
                    hz % 2 * 128 + ch * 8 + low] + more)
            == Field(aot, 5) + (Field(15, 4) + (Field(hz, 24) + (Field(ch, 4) + (Field(low, 3) + BitsOf(more)))))
  {
    hide Field, BitsOf;
    SmallPowers();
    hide Pow2;
    var h1, h2, h3, h4 := hz / 0x2_0000, hz / 0x200 % 256, hz / 2 % 256, hz % 2;
    var tail: bytes := [h2, h3, h4 * 128 + ch * 8 + low] + more;
    assert [aot * 8 + 7, 128 + h1, h2, h3, h4 * 128 + ch * 8 + low] + more == [aot * 8 + 7, 128 + h1] + tail;
    TwoBytesOf(aot * 8 + 7, 128 + h1, tail);
    assert tail == [h2, h3] + ([h4 * 128 + ch * 8 + low] + more);
    TwoBytesOf(h2, h3, [h4 * 128 + ch * 8 + low] + more);
    BitsOfByte(h4 * 128 + ch * 8 + low);
    BitsOfJoin([h4 * 128 + ch * 8 + low], more);
    Join(aot, 5, 7, 3, 8);
    Join(1, 1, h1, 7, 128);
    Join(7, 3, 1, 1, 2);
    Join(ch, 4, low, 3, 8);
    Join(h4, 1, ch * 8 + low, 7, 128);
    Rate24(hz);
    Straddle5(Field(aot, 5), Field(7, 3), Field(1, 1), Field(h1, 7), Field(h2, 8), Field(h3, 8), Field(h4, 1),
              Field(ch, 4), Field(low, 3), BitsOf(more));
  }

  // A 24-bit rate as the five bytes cut it.
  lemma {:induction false} Rate24(hz: nat)
    requires hz < 0x100_0000
    ensures Field(hz, 24) == Field(hz / 0x2_0000, 7)
                             + (Field(hz / 0x200 % 256, 8) + (Field(hz / 2 % 256, 8) + Field(hz % 2, 1)))
  {
    hide Field;
    SmallPowers();
    hide Pow2;
    var h1, h2, h3, h4 := hz / 0x2_0000, hz / 0x200 % 256, hz / 2 % 256, hz % 2;
    RateParts(hz);
    Join(hz / 2, 23, h4, 1, 2);
    Join(hz / 0x200, 15, h3, 8, 256);
    Join(h1, 7, h2, 8, 256);
    Assoc(Field(h1, 7) + Field(h2, 8), Field(h3, 8), Field(h4, 1));
    Assoc(Field(h1, 7), Field(h2, 8), Field(h3, 8) + Field(h4, 1));
  }

  lemma RateParts(hz: nat)
    requires hz < 0x100_0000
    ensures hz / 2 == hz / 0x200 * 256 + hz / 2 % 256 && hz / 0x200 == hz / 0x2_0000 * 256 + hz / 0x200 % 256
  {
  }

  lemma Straddle5(a: bits, b: bits, c: bits, h1: bits, h2: bits, h3: bits, h4: bits, ch: bits, low: bits, rest: bits)
    ensures (a + b) + ((c + h1) + (h2 + (h3 + ((h4 + (ch + low)) + rest))))
            == a + ((b + c) + ((h1 + (h2 + (h3 + h4))) + (ch + (low + rest))))
  {
    var t := ch + (low + rest);
    Assoc(h4, ch + low, rest);
    Assoc(ch, low, rest);
    Assoc(h3, h4, t);
    Assoc(h2, h3 + h4, t);
    Assoc(h1, h2 + (h3 + h4), t);
    Assoc(c, h1, h2 + (h3 + (h4 + t)));
    Assoc(b, c, h1 + (h2 + (h3 + (h4 + t))));
    Assoc(a, b, c + (h1 + (h2 + (h3 + (h4 + t)))));
  }

  // ---------------------------------------------------------------------
  // SBR and PS
  // ---------------------------------------------------------------------

  // Object types 5 and 29 announce a second rate and the type they extend.
  lemma ExtendedDescriptorParses(ps: bool, k: byte, ch: byte, x: byte, inner: byte, low: nat, more: bytes,
                                 c0: Config)
    requires k < 13 && ch < 16 && x < 15 && inner < 31 && low < 4
    ensures var p := [(if ps then 29 else 5) * 8 + k / 2, k % 2 * 128 + ch * 8 + x / 2,
                      x % 2 * 128 + inner * 4 + low] + more;
            Parse(p, c0) == Outcome(c0.(objectType := inner, index := k, frequency := IndexToFrequency(k),
                                        channels := ch, sbr := true, ps := ps, extIndex := x,
                                        extFrequency := IndexToFrequency(x), raw := p), Ok)
  {
    hide Field, BitsOf, Take, Rest, ReadRate;
    var aot := if ps then 29 else 5;
    ThreeBytes(aot, k, ch, x, inner, low, more);
    SmallPowers();
    hide Pow2;
    var tail := Field(low, 2) + BitsOf(more);
    var ext := Field(x, 4) + (Field(inner, 5) + tail);
    TakeField(aot, 5, Field(k, 4) + (Field(ch, 4) + ext));
    RateReadsBack(k, IndexToFrequency(k), Field(ch, 4) + ext);
    TakeField(ch, 4, ext);
    RateReadsBack(x, IndexToFrequency(x), Field(inner, 5) + tail);
    TakeField(inner, 5, tail);
  }

  lemma {:induction false} ThreeBytes(aot: nat, k: nat, ch: nat, x: nat, inner: nat, low: nat, more: bytes)
    requires aot < 32 && k < 16 && ch < 16 && x < 16 && inner < 32 && low < 4
    ensures BitsOf([aot * 8 + k / 2, k % 2 * 128 + ch * 8 + x / 2, x % 2 * 128 + inner * 4 + low] + more)
            == Field(aot, 5) + (Field(k, 4) + (Field(ch, 4)
               + (Field(x, 4) + (Field(inner, 5) + (Field(low, 2) + BitsOf(more))))))
  {
    hide Field, BitsOf, Pow2;
    var third: byte := x % 2 * 128 + inner * 4 + low;
    InThree(aot * 8 + k / 2, k % 2 * 128 + ch * 8 + x / 2, third, more);
    TwoBytes(aot, k, ch, x / 2, [third] + more);
    BitsOfByte(third);
    BitsOfJoin([third], more);
    ThirdByteOf(x, inner, low);
    Spliced(Field(x / 2, 3), Field(x % 2, 1), Field(inner, 5), Field(low, 2), BitsOf(more));
  }

  lemma InThree(a: byte, b: byte, c: byte, more: bytes)
    ensures [a, b, c] + more == [a, b] + ([c] + more)
  {
  }

  lemma Spliced(a: bits, b: bits, c: bits, d: bits, rest: bits)
    ensures a + ((b + (c + d)) + rest) == (a + b) + (c + (d + rest))
  {
    Assoc(b, c + d, rest);
    Assoc(c, d, rest);
    Assoc(a, b, c + (d + rest));
  }

  // A config no descriptor has touched is low complexity without extensions, and a
  // descriptor of less than two bytes leaves it that.
  lemma FreshIsLowComplexity(p: bytes)
    requires |p| < 2
    ensures Parse(p, FRESH) == Outcome(Config(2, 0, 0, 0, false, false, 0, 0, []), OutOfRange)
  {
  }
}
