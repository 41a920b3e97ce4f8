// Which configs survive serialize-then-parse, what a parse can return, and what
// becomes of a descriptor cut short.

module AacConfigLaws {
  import opened Errors
  import opened Bytes
  import opened Bits
  import opened AacConfig

  predicate RateIsCanonical(index: byte, frequency: u32, reserved: bool) {
    if index == 15 then frequency < 0x100_0000
    else index < (if reserved then 15 else 13) && frequency == RATES[index]
  }

  // Structured fields the wire form can carry and the parser gives back.
  predicate Canonical(c: Config) {
    && RateIsCanonical(c.index, c.frequency, false) && c.channels < 16
    && if c.sbr then 1 <= c.objectType < 31 && RateIsCanonical(c.extIndex, c.extFrequency, true)
       else c.objectType < 31 && c.objectType != 5 && c.objectType != 29
            && !c.ps && c.extIndex == 0 && c.extFrequency == 0
  }

  // ---------------------------------------------------------------------
  // Round trip
  // ---------------------------------------------------------------------

  lemma RateReadsBack(index: byte, frequency: u32, rest: bits)
    requires RateIsCanonical(index, frequency, true)
    ensures ReadRate(RateBits(index, frequency) + rest) == Rate(index, frequency, rest, false)
  {
    hide Field, Take, Rest, Pow2;
    PowersUsed();
    if index == 15 {
      Assoc(Field(15, 4), Field(frequency, 24), rest);
      TakeField(15, 4, Field(frequency, 24) + rest);
      TakeField(frequency, 24, rest);
    } else {
      TakeField(index, 4, rest);
    }
  }

  lemma ExtensionReadsBack(c: Config, c0: Config, tail: bits)
    requires c.sbr && Canonical(c)
    ensures ParseExtension(ExtensionBits(c) + tail, c0, if c.ps then 29 else 5) ==
            Outcome(c0.(sbr := true, ps := c.ps, extIndex := c.extIndex,
                        extFrequency := c.extFrequency, objectType := c.objectType), Ok)
  {
    hide Field, Take, Rest, Pow2, ReadRate, RateBits;
    PowersUsed();
    var a, b, z := RateBits(c.extIndex, c.extFrequency), Field(c.objectType, 5), Field(0, 3);
    assert a + (b + z) + tail == a + (b + (z + tail)) by {
      AssocFour(a, b, z, tail, []);
      Assoc(a, b + z, tail);
      Assoc(b, z, tail);
    }
    RateReadsBack(c.extIndex, c.extFrequency, b + (z + tail));
    TakeField(c.objectType, 5, z + tail);
  }

  lemma ConfigReadsBack(c: Config, tail: bits)
    requires Canonical(c)
    ensures ParseBits(ConfigBits(c) + tail, FRESH) == Outcome(c.(raw := []), Ok)
  {
    hide Field, Take, Rest, Pow2, ReadRate, RateBits, ParseExtension, ExtensionBits;
    PowersUsed();
    var ot: nat := if !c.sbr then c.objectType else if c.ps then 29 else 5;
    var h, r, ch := Field(ot, 5), RateBits(c.index, c.frequency), Field(c.channels, 4);
    var e := if c.sbr then ExtensionBits(c) else Field(0, 3);
    Assoc(h, r + (ch + e), tail);
    Assoc(r, ch + e, tail);
    Assoc(ch, e, tail);
    TakeField(ot, 5, r + (ch + (e + tail)));
    RateReadsBack(c.index, c.frequency, ch + (e + tail));
    TakeField(c.channels, 4, e + tail);
    if c.sbr {
      ExtensionReadsBack(c, FRESH.(objectType := ot, index := c.index, frequency := c.frequency,
                                   channels := c.channels), tail);
    }
  }

  lemma RateImage(b: bits)
    ensures var r := ReadRate(b); RateIsCanonical(r.index, r.frequency, true)
  {
    hide Take, Rest, Pow2;
    PowersUsed();
    TakeIsBelow(b, 4);
    TakeIsBelow(Rest(b, 4), 24);
  }

  // Whatever bits it is given, a parse that succeeds returns a canonical config,
  // up to an inner object type of 0.
  lemma ParsedIsCanonical(b: bits)
    requires ParseBits(b, FRESH).err == Ok
    ensures var c := ParseBits(b, FRESH).config;
            Canonical(c.(objectType := if c.sbr && c.objectType == 0 then 2 else c.objectType))
  {
    hide Take, Rest, Pow2, ReadRate;
    PowersUsed();
    TakeIsBelow(b, 5);
    var r := ReadRate(Rest(b, 5));
    RateImage(Rest(b, 5));
    TakeIsBelow(r.rest, 4);
    var x := ReadRate(Rest(r.rest, 4));
    RateImage(Rest(r.rest, 4));
    TakeIsBelow(x.rest, 5);
  }

  lemma PackedBits(c: Config)
    ensures BitsOf(Pack(ConfigBits(c))) == ConfigBits(c) + Zeros(Padding(|ConfigBits(c)|))
    ensures |Pack(ConfigBits(c))| >= 2
  {
    hide BitsOf, Pack, Zeros, Field, ExtensionBits;
    BitsOfPack(ConfigBits(c));
  }

  // A config without verbatim bytes comes back from its own serialization exactly
  // when it is canonical.
  lemma RoundTripExactlyWhenCanonical(c: Config)
    requires c.raw == []
    ensures Parse(Serialize(c), FRESH) == Outcome(c.(raw := Serialize(c)), Ok) <==> Canonical(c)
  {
    hide BitsOf, Pack, ParseBits, ConfigBits, Zeros, Padding;
    PackedBits(c);
    var tail := Zeros(Padding(|ConfigBits(c)|));
    var o := ParseBits(ConfigBits(c) + tail, FRESH);
    if Canonical(c) {
      ConfigReadsBack(c, tail);
    }
    if o.err == Ok && o.config.(raw := Serialize(c)) == c.(raw := Serialize(c)) {
      ParsedIsCanonical(ConfigBits(c) + tail);
      if c.sbr && c.objectType == 0 {
        var c2 := c.(objectType := 2);
        SameBits(c);
        ConfigReadsBack(c2, tail);
        assert false;
      }
    }
  }

  lemma SameBits(c: Config)
    ensures c.sbr && c.objectType == 0 ==> ConfigBits(c) == ConfigBits(c.(objectType := 2))
  {
    hide Field, RateBits;
  }

  // Parse, then serialize: the caller's bytes come back verbatim. Dropping the
  // verbatim copy, the fields alone still describe the same config exactly when
  // an SBR or PS layer does not wrap object type 0.
  lemma ParsedFieldsRoundTrip(p: bytes)
    requires Parse(p, FRESH).err == Ok
    ensures var c := Parse(p, FRESH).config;
            && Serialize(c) == p
            && var q := Serialize(c.(raw := []));
               Parse(q, FRESH) == Outcome(c.(raw := q), Ok) <==> (c.sbr ==> c.objectType != 0)
  {
    hide BitsOf, ParseBits, Pack, ConfigBits;
    ParsedIsCanonical(BitsOf(p));
    RoundTripExactlyWhenCanonical(Parse(p, FRESH).config.(raw := []));
  }

  // ---------------------------------------------------------------------
  // Cuts
  // ---------------------------------------------------------------------

  function Width(index: nat): nat {
    if index == 15 then 28 else 4
  }

  // How many bits a successful parse reads.
  function Consumed(b: bits): nat {
    var aot := Take(b, 5);
    var r := ReadRate(Rest(b, 5));
    5 + Width(r.index) + 4
    + if aot == 5 || aot == 29 then Width(ReadRate(Rest(r.rest, 4)).index) + 5 else 0
  }

  lemma RateCut(b: bits, m: nat)
    requires m <= |b|
    ensures var r, w := ReadRate(b), Width(ReadRate(b).index);
            && (4 <= m ==> ReadRate(b[..m]).index == r.index)
            && (w <= m ==> ReadRate(b[..m]).frequency == r.frequency
                           && r.rest == b[w..] && ReadRate(b[..m]).rest == r.rest[..m - w])
            && (m < w ==> ReadRate(b[..m]).rest == [])
  {
    hide Take;
    TakePrefix(b, m, 4);
    TakePrefix(b, m, 0);
    if 4 <= m {
      TakePrefix(Rest(b, 4), m - 4, 24);
      if ReadRate(b).index == 15 && 28 <= m {
        assert b[4..][24..] == b[28..];
      }
    }
  }

  lemma ExtensionCut(b: bits, m: nat, c: Config, aot: nat)
    requires m <= |b| && ParseExtension(b, c, aot).err == Ok
    ensures var need := Width(ReadRate(b).index) + 5;
            if need <= m then ParseExtension(b[..m], c, aot) == ParseExtension(b, c, aot)
            else ParseExtension(b[..m], c, aot).err == OutOfRange
  {
    hide Take, ReadRate;
    RateCut(b, m);
    var r, s := ReadRate(b), ReadRate(b[..m]);
    var w := Width(r.index);
    if w <= m {
      TakePrefix(r.rest, m - w, 5);
    }
    if |s.rest| < 5 {
      ShortTakeIsNot31(s.rest);
    }
  }

  lemma ShortTakeIsNot31(b: bits)
    requires |b| < 5
    ensures Take(b, 5) != 31
  {
    hide Take;
    TakeIsBelow(b, 5);
    assert Pow2(4) == 16;
    PowGrows(|b|, 4);
  }

  // Cut anywhere past the rate index: the parse is unchanged while the bits it
  // reads are all there, and reports a short read when any is missing.
  lemma CutBits(b: bits, m: nat, c: Config)
    requires 9 <= m <= |b| && ParseBits(b, c).err == Ok
    ensures if Consumed(b) <= m then ParseBits(b[..m], c) == ParseBits(b, c)
            else ParseBits(b[..m], c).err == OutOfRange
  {
    hide Take, ReadRate, ParseExtension;
    TakePrefix(b, m, 5);
    var aot := Take(b, 5);
    var b1 := Rest(b, 5);
    RateCut(b1, m - 5);
    var r, s, w := ReadRate(b1), ReadRate(b1[..m - 5]), Width(ReadRate(b1).index);
    PowersUsed();
    TakeIsBelow(b, 5);
    TakeIsBelow(r.rest, 4);
    if w <= m - 5 {
      var k := m - 5 - w;
      TakePrefix(r.rest, k, 4);
      if 4 <= k && (aot == 5 || aot == 29) {
        var c2 := c.(objectType := aot, index := r.index, frequency := r.frequency, channels := Take(r.rest, 4));
        ExtensionCut(Rest(r.rest, 4), k - 4, c2, aot);
      }
    }
    if |s.rest| < 4 {
      RestIsShort(s.rest, 4);
      TakeIsBelow(s.rest, 4);
      var c2 := c.(objectType := aot, index := s.index, frequency := s.frequency, channels := Take(s.rest, 4));
      NothingLeftToExtend(Rest(s.rest, 4), c2, aot);
    }
  }

  lemma NothingLeftToExtend(b: bits, c: Config, aot: nat)
    requires b == []
    ensures ParseExtension(b, c, aot).err == OutOfRange
  {
    hide Take, ReadRate;
    NothingLeft();
    ShortTakeIsNot31([]);
  }

  lemma ConsumedOf(c: Config, tail: bits)
    requires Canonical(c)
    ensures Consumed(ConfigBits(c) + tail) == |ConfigBits(c)| - 3
    ensures |ConfigBits(c)| == if c.sbr then 17 + Width(c.index) + Width(c.extIndex) else 12 + Width(c.index)
  {
    hide Field, Take, Rest, Pow2, ReadRate;
    PowersUsed();
    var ot: nat := if !c.sbr then c.objectType else if c.ps then 29 else 5;
    var h, r, ch := Field(ot, 5), RateBits(c.index, c.frequency), Field(c.channels, 4);
    var e := if c.sbr then ExtensionBits(c) else Field(0, 3);
    Assoc(h, r + (ch + e), tail);
    Assoc(r, ch + e, tail);
    Assoc(ch, e, tail);
    TakeField(ot, 5, r + (ch + (e + tail)));
    RateReadsBack(c.index, c.frequency, ch + (e + tail));
    TakeField(c.channels, 4, e + tail);
    if c.sbr {
      var x, i := RateBits(c.extIndex, c.extFrequency), Field(c.objectType, 5) + Field(0, 3);
      Assoc(x, i, tail);
      RateReadsBack(c.extIndex, c.extFrequency, i + tail);
    }
  }

  // A serialized config cut short is reported as out of range, with one
  // exception: the last byte of an SBR or PS config is never read, and without it
  // the same fields come back.
  lemma CutConfig(c: Config, k: nat)
    requires Canonical(c) && c.raw == [] && k < |Serialize(c)|
    ensures var o := Parse(Serialize(c)[..k], FRESH);
            if c.sbr && k == |Serialize(c)| - 1 then o == Outcome(c.(raw := Serialize(c)[..k]), Ok)
            else o.err == OutOfRange
  {
    hide BitsOf, Pack, ParseBits, ConfigBits, Zeros, Padding, Consumed;
    var s := Serialize(c);
    var b := ConfigBits(c);
    PackedBits(c);
    PackLength(b);
    var tail := Zeros(Padding(|b|));
    ConfigReadsBack(c, tail);
    ConsumedOf(c, tail);
    if k >= 2 {
      BitsOfPrefix(s, k);
      CutBits(b + tail, 8 * k, FRESH);
    }
  }

}
