// Strip undoes wrap over whole streams, accepts exactly the streams that are made
// of frames, and tells a cut inside a frame from a cut between frames.

module AdtsLaws {
  import opened Errors
  import opened Bytes
  import opened Numbers
  import opened Bits
  import opened AacConfig
  import opened AacConfigLaws
  import opened Adts

  // ---------------------------------------------------------------------
  // Streams of frames
  // ---------------------------------------------------------------------

  predicate IsFrame(f: bytes) {
    && |f| >= 7 && f[0] == 0xFF && f[1] / 16 == 15 && (f[1] / 2) % 4 == 0
    && LengthField(f) == |f| && HeaderSize(f) <= |f|
  }

  function PayloadOf(f: bytes): bytes
    requires IsFrame(f)
  {
    f[HeaderSize(f)..]
  }

  ghost predicate AllFrames(fs: seq<bytes>) {
    forall f <- fs :: IsFrame(f)
  }

  function Concat(parts: seq<bytes>): bytes {
    if parts == [] then [] else parts[0] + Concat(parts[1..])
  }

  ghost function Payloads(fs: seq<bytes>): bytes
    requires AllFrames(fs)
  {
    if fs == [] then [] else PayloadOf(fs[0]) + Payloads(fs[1..])
  }

  // A header reads the same whatever follows its frame.
  lemma FrameReads(f: bytes, rest: bytes)
    requires IsFrame(f)
    ensures var h := ReadHead(f + rest);
            && h.Head? && h.length == |f| && h.header == HeaderSize(f)
            && (f + rest)[h.header..h.length] == PayloadOf(f) && (f + rest)[h.length..] == rest
    ensures ReadHead(f + rest) == ReadHead(f)
  {
    Append(f, rest);
    var p := f + rest;
    assert p[0] == f[0] && p[1] == f[1] && p[2] == f[2] && p[3] == f[3] && p[4] == f[4] && p[5] == f[5];
  }

  lemma ReadIsFrame(p: bytes)
    requires ReadHead(p).Head?
    ensures IsFrame(p[..ReadHead(p).length])
    ensures p == p[..ReadHead(p).length] + p[ReadHead(p).length..]
  {
  }

  lemma {:induction false} FramesStrip(fs: seq<bytes>, raw: bytes)
    requires AllFrames(fs)
    ensures Frames(Concat(fs), raw) == Walk(raw + Payloads(fs), Ok)
  {
    hide ReadHead, IsFrame;
    if fs == [] {
      assert raw + [] == raw;
    } else {
      FrameReads(fs[0], Concat(fs[1..]));
      FramesStrip(fs[1..], raw + PayloadOf(fs[0]));
      Assoc(raw, PayloadOf(fs[0]), Payloads(fs[1..]));
    }
  }

  function Split(p: bytes): seq<bytes>
    decreases |p|
  {
    if ReadHead(p).Bad? then []
    else [p[..ReadHead(p).length]] + Split(p[ReadHead(p).length..])
  }

  lemma {:induction false} AcceptedSplits(p: bytes, raw: bytes)
    requires Frames(p, raw).err == Ok
    ensures AllFrames(Split(p)) && Concat(Split(p)) == p
    decreases |p|
  {
    hide ReadHead, IsFrame;
    if p == [] {
    } else {
      var h := ReadHead(p);
      ReadIsFrame(p);
      AcceptedSplits(p[h.length..], raw + p[h.header..h.length]);
      assert Split(p)[1..] == Split(p[h.length..]);
    }
  }

  // Strip accepts a framed stream exactly when it is a run of whole frames, and
  // then returns their payloads in order.
  lemma AcceptsExactlyFrameRuns(p: bytes, raw0: bytes, c0: Config)
    requires IsAdts(p)
    ensures Strip(p, raw0, c0).err == Ok <==> exists fs :: AllFrames(fs) && Concat(fs) == p
    ensures forall fs :: AllFrames(fs) && Concat(fs) == p ==> Strip(p, raw0, c0).raw == raw0 + Payloads(fs)
  {
    hide Frames, ReadHead, ConfigOf;
    if Strip(p, raw0, c0).err == Ok {
      AcceptedSplits(p, raw0);
    }
    forall fs | AllFrames(fs) && Concat(fs) == p
      ensures Frames(p, raw0) == Walk(raw0 + Payloads(fs), Ok)
    {
      FramesStrip(fs, raw0);
    }
  }

  // ---------------------------------------------------------------------
  // Strip undoes wrap
  // ---------------------------------------------------------------------

  // An access unit, and the config its frame is made with.
  datatype Unit = Unit(config: Config, data: bytes)

  predicate Fits(units: seq<Unit>) {
    forall u <- units :: |u.data| <= 8184
  }

  function FrameOf(u: Unit): bytes {
    Wrapped(u.config, u.data, []).out
  }

  function Stream(units: seq<Unit>): bytes {
    if units == [] then [] else FrameOf(units[0]) + Stream(units[1..])
  }

  function RawUnits(units: seq<Unit>): bytes {
    if units == [] then [] else units[0].data + RawUnits(units[1..])
  }

  lemma HeaderIsHeader(c: Config, data: bytes)
    requires |data| <= 8184
    ensures var f := Header(c, |data| + 7) + data;
            && IsFrame(f) && PayloadOf(f) == data && IsAdts(f)
            && ReadHead(f) == Head(Profile(c), RateIndex(c), c.channels % 8, 7, |data| + 7)
  {
    var n := |data| + 7;
    LengthParts(n);
    FieldParts(Profile(c), RateIndex(c), c.channels % 8, n / 2048);
    var h := Header(c, n);
    var f := h + data;
    assert f[0] == h[0] && f[1] == h[1] && f[2] == h[2] && f[3] == h[3] && f[4] == h[4] && f[5] == h[5];
    Append(h, data);
  }

  lemma LengthParts(n: nat)
    requires n < 8192
    ensures n / 2048 < 4 && (n / 2048) * 2048 + ((n / 8) % 256) * 8 + n % 8 == n
    ensures ((n % 8) * 32 + 31) / 32 == n % 8
  {
    var m := n / 8;
    assert n == m * 8 + n % 8 && m == m / 256 * 256 + m % 256;
    SameQuotient(2048, n / 2048, n % 2048, m / 256, m % 256 * 8 + n % 8);
  }

  lemma FieldParts(profile: nat, index: nat, channels: nat, top: nat)
    requires profile < 4 && index < 16 && channels < 8 && top < 4
    ensures var b := profile * 64 + index * 4 + channels / 4;
            b / 64 == profile && (b / 4) % 16 == index && b % 2 == channels / 4
    ensures var b := (channels % 4) * 64 + top;
            b / 64 == channels % 4 && b % 4 == top
    ensures (channels / 4) * 4 + channels % 4 == channels
  {
    HighParts(profile, index, channels / 4);
  }

  lemma HighParts(profile: nat, index: nat, high: nat)
    requires profile < 4 && index < 16 && high < 2
    ensures var b := profile * 64 + index * 4 + high;
            b / 64 == profile && (b / 4) % 16 == index && b % 2 == high
  {
  }

  // What the reader makes of any seven bytes behind a sync word, field by field: the
  // layer must be zero, the length must cover the header, and a header without
  // protection_absent is nine bytes long.
  lemma HeadByFields(id: nat, layer: nat, absent: nat, profile: nat, index: nat, private: nat, channels: nat,
                     flags: nat, length: nat, fullness: nat, last: byte, rest: bytes)
    requires id < 2 && layer < 4 && absent < 2 && profile < 4 && index < 16 && private < 2 && channels < 8
    requires flags < 16 && length < 8192 && fullness < 32
    ensures var p: bytes := [0xFF, 0xF0 + id * 8 + layer * 2 + absent,
                             profile * 64 + index * 4 + private * 2 + channels / 4,
                             channels % 4 * 64 + flags * 4 + length / 2048,
                             length / 8 % 256, length % 8 * 32 + fullness, last] + rest;
            ReadHead(p) == if layer != 0 then Bad(CorruptData)
                           else if length < (if absent == 1 then 7 else 9) then Bad(CorruptData)
                           else if length > 7 + |rest| then Bad(OutOfRange)
                           else Head(profile, index, channels, if absent == 1 then 7 else 9, length)
  {
    SecondOfHeader(id, layer, absent);
    ThirdOfHeader(profile, index, private, channels / 4);
    FourthOfHeader(channels % 4, flags, length / 2048);
    LengthParts(length);
    SixthOfHeader(length % 8, fullness);
  }

  lemma SecondOfHeader(id: nat, layer: nat, absent: nat)
    requires id < 2 && layer < 4 && absent < 2
    ensures var b := 0xF0 + id * 8 + layer * 2 + absent; b / 16 == 15 && b / 2 % 4 == layer && b % 2 == absent
  {
  }

  lemma ThirdOfHeader(profile: nat, index: nat, private: nat, high: nat)
    requires profile < 4 && index < 16 && private < 2 && high < 2
    ensures var b := profile * 64 + index * 4 + private * 2 + high;
            b / 64 == profile && b / 4 % 16 == index && b % 2 == high
  {
  }

  lemma FourthOfHeader(low: nat, flags: nat, top: nat)
    requires low < 4 && flags < 16 && top < 4
    ensures var b := low * 64 + flags * 4 + top; b / 64 == low && b % 4 == top
  {
  }

  lemma SixthOfHeader(low: nat, fullness: nat)
    requires low < 8 && fullness < 32
    ensures (low * 32 + fullness) / 32 == low
  {
  }

  // An access unit is framed if its frame, header included, fits 13 bits.
  lemma FramesWhatFits(c: Config, unit: bytes, out0: bytes)
    ensures |unit| <= 8184 ==>
              Wrapped(c, unit, out0).err == Ok && |Wrapped(c, unit, out0).out| == 7 + |unit|
              && Wrapped(c, unit, out0).out[7..] == unit
    ensures |unit| > 8184 ==> Wrapped(c, unit, out0) == Framed(out0, OutOfRange)
  {
  }

  // The fields a wrapped unit carries: the object type less one, low complexity for
  // types a header cannot name, and the rate's index where the config has none.
  lemma WrappedFields(c: Config, unit: bytes, out0: bytes)
    requires |unit| <= 8184
    ensures ReadHead(Wrapped(c, unit, out0).out)
            == Head(if 1 <= c.objectType <= 4 then c.objectType - 1 else 1,
                    if c.index < 13 then c.index else FrequencyToIndex(c.frequency),
                    c.channels % 8, 7, 7 + |unit|)
  {
    hide ReadHead, Header;
    HeaderIsHeader(c, unit);
  }

  // Bytes that do not begin with a sync word, or are fewer than seven.
  lemma HeadWithoutSync(p: bytes)
    ensures |p| < 7 ==> ReadHead(p) == Bad(OutOfRange)
    ensures |p| >= 7 && (p[0] != 0xFF || p[1] < 0xF0) ==> ReadHead(p) == Bad(CorruptData)
    ensures IsAdts(p) <==> |p| >= 2 && p[0] == 0xFF && p[1] >= 0xF0
  {
  }

  // ---------------------------------------------------------------------
  // The header, field by field
  // ---------------------------------------------------------------------

  // Section 6.2 of ISO/IEC 13818-7: syncword, ID and layer, protection_absent,
  // profile, sampling frequency index, private bit, channel configuration,
  // original, home and copyright bits, frame length, buffer fullness, blocks.
  function Layout(c: Config, framed: nat): bits {
    Field(0xFFF, 12) + (Field(0, 3) + (Field(1, 1)
    + (Field(Profile(c), 2) + (Field(RateIndex(c), 4) + (Field(0, 1) + (Field(c.channels % 8, 3)
    + (Field(0, 4) + (Field(framed, 13) + (Field(0x7FF, 11) + Field(0, 2))))))))))
  }

  // A field that straddles two bytes.
  lemma Straddle(a: bits, b: bits, c: bits, rest: bits)
    ensures (a + b) + (c + rest) == a + ((b + c) + rest)
  {
  }

  function ByteFields(h: bytes): bits {
    if h == [] then [] else Field(h[0], 8) + ByteFields(h[1..])
  }

  lemma {:induction false} BytesAreFields(h: bytes)
    ensures BitsOf(h) == ByteFields(h)
  {
    hide BitsOf, Field;
    if h == [] {
      NoBits();
    } else {
      BytesOne(h[0], h[1..]);
      BytesAreFields(h[1..]);
      assert h == [h[0]] + h[1..];
    }
  }

  lemma {:induction false} SevenBytes(h: bytes)
    requires |h| == 7
    ensures ByteFields(h) == Field(h[0], 8) + (Field(h[1], 8) + (Field(h[2], 8) + (Field(h[3], 8)
                             + (Field(h[4], 8) + (Field(h[5], 8) + Field(h[6], 8))))))
  {
    hide Field;
    assert ByteFields(h[4..]) == Field(h[4], 8) + (Field(h[5], 8) + Field(h[6], 8)) by {
      assert h[4..][1..] == h[5..] && h[5..][1..] == h[6..] && h[6..][1..] == [];
      assert Field(h[6], 8) + [] == Field(h[6], 8);
      assert ByteFields(h[6..]) == Field(h[6], 8) + ByteFields(h[6..][1..]);
      assert ByteFields(h[5..]) == Field(h[5], 8) + ByteFields(h[5..][1..]);
    }
    assert h[1..][1..] == h[2..] && h[2..][1..] == h[3..] && h[3..][1..] == h[4..];
    assert ByteFields(h[3..]) == Field(h[3], 8) + ByteFields(h[4..]);
    assert ByteFields(h[2..]) == Field(h[2], 8) + ByteFields(h[3..]);
    assert ByteFields(h[1..]) == Field(h[1], 8) + ByteFields(h[2..]);
  }

  lemma {:induction false} BytesOne(b: byte, rest: bytes)
    ensures BitsOf([b] + rest) == Field(b, 8) + BitsOf(rest)
  {
    BitsOfByte(b);
    BitsOfJoin([b], rest);
  }

  // The third and fourth bytes: profile, index, private bit, channels, four
  // zeros and the top of the length.
  lemma {:induction false} MiddleFields(profile: nat, index: nat, channels: nat, top: nat)
    requires profile < 4 && index < 16 && channels < 8 && top < 4
    ensures Field(profile * 64 + index * 4 + channels / 4, 8)
            == Field(profile, 2) + (Field(index, 4) + (Field(0, 1) + Field(channels / 4, 1)))
    ensures Field((channels % 4) * 64 + top, 8) == Field(channels % 4, 2) + (Field(0, 4) + Field(top, 2))
    ensures Field(channels, 3) == Field(channels / 4, 1) + Field(channels % 4, 2)
  {
    hide Field;
    SmallPowers();
    hide Pow2;
    ThirdByte(profile, index, channels / 4);
    FourthByte(channels % 4, top);
    Join(channels / 4, 1, channels % 4, 2, 4);
  }

  lemma {:induction false} ThirdByte(profile: nat, index: nat, high: nat)
    requires profile < 4 && index < 16 && high < 2
    ensures Field(profile * 64 + index * 4 + high, 8)
            == Field(profile, 2) + (Field(index, 4) + (Field(0, 1) + Field(high, 1)))
  {
    hide Field;
    SmallPowers();
    hide Pow2;
    Join(0, 1, high, 1, 2);
    Join(index, 4, high, 2, 4);
    Join(profile, 2, index * 4 + high, 6, 64);
  }

  lemma {:induction false} FourthByte(low: nat, top: nat)
    requires low < 4 && top < 4
    ensures Field(low * 64 + top, 8) == Field(low, 2) + (Field(0, 4) + Field(top, 2))
  {
    hide Field;
    SmallPowers();
    hide Pow2;
    Join(0, 4, top, 2, 4);
    Join(low, 2, top, 6, 64);
  }

  lemma {:induction false} LengthFields(n: nat)
    requires n < 8192
    ensures Field(n, 13) == Field(n / 2048, 2) + (Field(n / 8 % 256, 8) + Field(n % 8, 3))
    ensures Field((n % 8) * 32 + 31, 8) == Field(n % 8, 3) + Field(31, 5)
  {
    hide Field;
    assert Pow2(8) == 256 && Pow2(11) == 2048 by { assert Pow2(8) == 256; PowSum(8, 3); }
    LengthParts(n);
    FieldJoin(n / 8 % 256, 8, n % 8, 3);
    FieldJoin(n / 2048, 2, (n / 8 % 256) * 8 + n % 8, 11);
    FieldJoin(n % 8, 3, 31, 5);
  }

  lemma FixedFields()
    ensures Field(0xFFF, 12) == Field(0xFF, 8) + Field(0xF, 4)
    ensures Field(0xF1, 8) == Field(0xF, 4) + (Field(0, 3) + Field(1, 1))
    ensures Field(0x7FF, 11) == Field(31, 5) + Field(63, 6)
    ensures Field(0xFC, 8) == Field(63, 6) + Field(0, 2)
  {
    hide Field;
    FieldJoin(0xFF, 8, 0xF, 4);
    FieldJoin(0, 3, 1, 1);
    FieldJoin(0xF, 4, 1, 4);
    FieldJoin(31, 5, 63, 6);
    FieldJoin(63, 6, 0, 2);
  }

  // The header a frame is wrapped in is the standard's, bit for bit.
  lemma HeaderFollowsTheStandard(c: Config, framed: nat)
    requires framed <= MAX_FRAME
    ensures BitsOf(Header(c, framed)) == Layout(c, framed)
  {
    hide BitsOf, Field, Profile, RateIndex, ByteFields;
    var p, i, ch, n := Profile(c), RateIndex(c), c.channels % 8, framed;
    BytesAreFields(Header(c, n));
    SevenBytes(Header(c, n));
    FixedFields();
    MiddleFields(p, i, ch, n / 2048);
    LengthFields(n);
    Regroup(Field(0xFF, 8), Field(0xF, 4), Field(0, 3), Field(1, 1), Field(p, 2), Field(i, 4), Field(0, 1),
            Field(ch / 4, 1), Field(ch % 4, 2), Field(0, 4), Field(n / 2048, 2), Field(n / 8 % 256, 8),
            Field(n % 8, 3), Field(31, 5), Field(63, 6), Field(0, 2));
  }

  // The same bits, grouped by byte and by field.
  lemma Regroup(s8: bits, s4: bits, z3: bits, one: bits, p: bits, i: bits, z1: bits, c1: bits, c2: bits, z4: bits,
                n2: bits, n8: bits, n3: bits, f5: bits, f6: bits, z2: bits)
    ensures s8 + ((s4 + (z3 + one)) + ((p + (i + (z1 + c1))) + ((c2 + (z4 + n2)) + (n8 + ((n3 + f5) + (f6 + z2))))))
            == (s8 + s4) + (z3 + (one + (p + (i + (z1 + ((c1 + c2) + (z4 + ((n2 + (n8 + n3)) + ((f5 + f6) + z2)))))))))
  {
    var t1 := (f5 + f6) + z2;
    var t2 := (n2 + (n8 + n3)) + t1;
    var t3 := (c1 + c2) + (z4 + t2);
    Straddle(n3, f5, f6, z2);
    Assoc(n2, n8 + n3, t1);
    Assoc(n8, n3, t1);
    Assoc(c2, z4 + n2, n8 + (n3 + t1));
    Assoc(z4, n2, n8 + (n3 + t1));
    Assoc(c1, c2, z4 + t2);
    Assoc(p, i + (z1 + c1), c2 + (z4 + t2));
    Assoc(i, z1 + c1, c2 + (z4 + t2));
    Assoc(z1, c1, c2 + (z4 + t2));
    var t4 := p + (i + (z1 + t3));
    Assoc(s4, z3 + one, t4);
    Assoc(z3, one, t4);
    Assoc(s8, s4, z3 + (one + t4));
  }

  // The config strip recovers from a frame made with c.
  function Recovered(c: Config): Config {
    ConfigOf(Head(Profile(c), RateIndex(c), c.channels % 8, 7, 7), FRESH)
  }

  lemma {:induction false} StreamStrips(units: seq<Unit>, raw: bytes)
    requires Fits(units)
    ensures Frames(Stream(units), raw) == Walk(raw + RawUnits(units), Ok)
  {
    hide ReadHead, IsFrame, Header;
    if units == [] {
      assert raw + [] == raw;
    } else {
      var u := units[0];
      HeaderIsHeader(u.config, u.data);
      FrameReads(FrameOf(u), Stream(units[1..]));
      StreamStrips(units[1..], raw + u.data);
      Assoc(raw, u.data, RawUnits(units[1..]));
    }
  }

  // Stripping the concatenation of any wrapped units gives back the units, and
  // the config of the first.
  lemma {:induction false} StripUndoesWrap(units: seq<Unit>, raw0: bytes, c0: Config)
    requires units != [] && Fits(units)
    ensures Strip(Stream(units), raw0, c0) == Stripped(raw0 + RawUnits(units), Recovered(units[0].config), Ok)
  {
    hide ReadHead, IsFrame, Header, Frames;
    var u, rest := units[0], Stream(units[1..]);
    HeaderIsHeader(u.config, u.data);
    FrameReads(FrameOf(u), rest);
    assert (FrameOf(u) + rest)[0] == FrameOf(u)[0] && (FrameOf(u) + rest)[1] == FrameOf(u)[1];
    StreamStrips(units, raw0);
  }

  // The four fields come back unchanged exactly for profiles 1 to 4, channel
  // configurations below 8 and rates the header can name.
  lemma RecoversExactly(c: Config)
    ensures var r := Recovered(c);
            (r.objectType, r.index, r.frequency, r.channels) == (c.objectType, c.index, c.frequency, c.channels)
            <==> 1 <= c.objectType <= 4 && c.channels < 8
                 && (if c.index == 15 then c.frequency == 0 else c.index < 13 && c.frequency == RATES[c.index])
  {
    hide Serialize;
  }

  // The descriptor strip derives parses back to the config it was derived from,
  // except for the two reserved rate indices, which strip accepts and the
  // descriptor parser refuses.
  lemma DerivedDescriptorParses(h: Head)
    requires h.Head?
    ensures Parse(ConfigOf(h, FRESH).raw, FRESH) == Outcome(ConfigOf(h, FRESH), Ok) <==> h.index != 13 && h.index != 14
  {
    hide Parse, Serialize;
    RoundTripExactlyWhenCanonical(ConfigOf(h, FRESH).(raw := []));
  }

  // ---------------------------------------------------------------------
  // Cuts
  // ---------------------------------------------------------------------

  // How many whole frames lie within the first k bytes, and where they end.
  function Whole(fs: seq<bytes>, k: nat): (j: nat)
    ensures j <= |fs|
  {
    if fs == [] || k < |fs[0]| then 0 else 1 + Whole(fs[1..], k - |fs[0]|)
  }

  lemma CutInside(f: bytes, rest: bytes, k: nat)
    requires IsFrame(f) && 0 < k < |f|
    ensures ReadHead((f + rest)[..k]) == Bad(OutOfRange)
  {
    var p := (f + rest)[..k];
    if k >= 7 {
      assert p[0] == f[0] && p[1] == f[1] && p[3] == f[3] && p[4] == f[4] && p[5] == f[5];
    }
  }

  lemma {:induction false} CutFrames(fs: seq<bytes>, k: nat, raw: bytes)
    requires AllFrames(fs) && k <= |Concat(fs)|
    ensures var j := Whole(fs, k);
            && |Concat(fs[..j])| <= k
            && Frames(Concat(fs)[..k], raw) ==
               Walk(raw + Payloads(fs[..j]), if |Concat(fs[..j])| == k then Ok else OutOfRange)
  {
    hide ReadHead, IsFrame, PayloadOf;
    if fs == [] || k < |fs[0]| {
      assert fs[..0] == [] && raw + [] == raw;
      if k > 0 {
        CutInside(fs[0], Concat(fs[1..]), k);
      } else {
        assert Concat(fs)[..k] == [];
      }
    } else {
      var f, rest, m := fs[0], Concat(fs[1..]), k - |fs[0]|;
      var j := Whole(fs[1..], m);
      CutFrames(fs[1..], m, raw + PayloadOf(f));
      FrameReads(f, rest[..m]);
      assert (f + rest)[..k] == f + rest[..m];
      assert fs[..j + 1] == [f] + fs[1..][..j];
      assert fs[..j + 1][1..] == fs[1..][..j];
      Assoc(raw, PayloadOf(f), Payloads(fs[1..][..j]));
    }
  }

  // A stream of frames cut after k bytes: between frames strip sees the shorter
  // stream, inside one it reports a short read, and a single leading byte passes
  // for raw data.
  lemma {:induction false} StripOfCut(fs: seq<bytes>, k: nat, raw0: bytes, c0: Config)
    requires AllFrames(fs) && k < |Concat(fs)|
    ensures var r, j := Strip(Concat(fs)[..k], raw0, c0), Whole(fs, k);
            if k == 0 then r == Stripped(raw0, c0, Ok)
            else if k == 1 then r == Stripped([0xFF], c0, Ok)
            else r.raw == raw0 + Payloads(fs[..j])
                 && r.err == (if |Concat(fs[..j])| == k then Ok else OutOfRange)
                 && r.config == (if j == 0 then c0 else ConfigOf(ReadHead(fs[0]), c0))
  {
    hide ReadHead, ConfigOf, Frames, PayloadOf, LengthField, HeaderSize;
    var p := Concat(fs)[..k];
    CutFrames(fs, k, raw0);
    assert IsFrame(fs[0]);
    if k >= 1 {
      assert p[0] == fs[0][0];
      assert k == 1 ==> p == [0xFF];
    }
    if k >= 2 {
      assert p[1] == fs[0][1];
      if k < |fs[0]| {
        CutInside(fs[0], Concat(fs[1..]), k);
        BadKeepsConfig(ReadHead(p), c0);
      } else {
        var rest := Concat(fs[1..])[..k - |fs[0]|];
        assert p == fs[0] + rest;
        FrameReads(fs[0], rest);
      }
    }
  }
}
