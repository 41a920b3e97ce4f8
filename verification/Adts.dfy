// ADTS framing: a 7-byte header in front of each raw AAC access unit (9 bytes
// when a CRC follows it).

module Adts {
  import opened Errors
  import opened Bytes
  import opened AacConfig

  predicate IsAdts(p: bytes) {
    |p| >= 2 && p[0] == 0xFF && p[1] / 16 == 15
  }

  // ---------------------------------------------------------------------
  // Wrapping
  // ---------------------------------------------------------------------

  const MAX_FRAME: nat := 0x1FFF

  function Profile(c: Config): (profile: byte)
    ensures profile < 4
  {
    var aot := if c.objectType == 0 || c.objectType > 4 then 2 else c.objectType;
    aot - 1
  }

  function RateIndex(c: Config): (index: byte)
    ensures index < 16
  {
    if c.index >= 13 then FrequencyToIndex(c.frequency) else c.index
  }

  function Header(c: Config, framed: nat): (h: bytes)
    requires framed <= MAX_FRAME
    ensures |h| == 7
  {
    var channels := c.channels % 8;
    [0xFF, 0xF1,
     Profile(c) * 64 + RateIndex(c) * 4 + channels / 4,
     (channels % 4) * 64 + framed / 2048,
     (framed / 8) % 256,
     (framed % 8) * 32 + 31,
     0xFC]
  }

  datatype Framed = Framed(out: bytes, err: Error)

  // One access unit in its frame; `out0` is left alone when the unit is too long.
  function Wrapped(c: Config, unit: bytes, out0: bytes): Framed {
    if |unit| + 7 > MAX_FRAME then Framed(out0, OutOfRange)
    else Framed(Header(c, |unit| + 7) + unit, Ok)
  }

  method WrapFrame(c: Config, unit: bytes, out0: bytes) returns (r: Framed)
    ensures r == Wrapped(c, unit, out0)
  {
    var framed := |unit| + 7;
    if framed > MAX_FRAME { return Framed(out0, OutOfRange); }
    var index: int := c.index;
    if index >= 13 { index := FindIndex(c.frequency); }
    var aot: int := if c.objectType > 0 then c.objectType else 2;
    if aot > 4 { aot := 2; }
    var profile: int := aot - 1;
    var channels: int := c.channels % 8;
    var low: int := channels % 4;
    var header: bytes := [0xFF, 0xF1,
                          profile * 64 + index * 4 + channels / 4,
                          low * 64 + framed / 2048,
                          (framed / 8) % 256,
                          (framed % 8) * 32 + 31,
                          0xFC];
    return Framed(header + unit, Ok);
  }

  // ---------------------------------------------------------------------
  // Stripping
  // ---------------------------------------------------------------------

  type two_bits = x: int | 0 <= x < 4
  type three_bits = x: int | 0 <= x < 8
  type four_bits = x: int | 0 <= x < 16

  datatype Head =
    | Bad(err: Error)
    | Head(profile: two_bits, index: four_bits, channels: three_bits, header: nat, length: nat)

  function LengthField(p: bytes): nat
    requires |p| >= 7
  {
    var b3: int, b4: int, b5: int := p[3], p[4], p[5];
    (b3 % 4) * 2048 + b4 * 8 + b5 / 32
  }

  function HeaderSize(p: bytes): nat
    requires |p| >= 7
  {
    if p[1] % 2 == 1 then 7 else 9
  }

  function ReadHead(p: bytes): (h: Head)
    ensures h.Head? ==> 7 <= h.header <= h.length <= |p|
    ensures h.Bad? ==> h.err == OutOfRange || h.err == CorruptData
  {
    if |p| < 7 then Bad(OutOfRange)
    else if p[0] != 0xFF || p[1] / 16 != 15 then Bad(CorruptData)
    else if (p[1] / 2) % 4 != 0 then Bad(CorruptData)
    else if LengthField(p) < HeaderSize(p) then Bad(CorruptData)
    else if LengthField(p) > |p| then Bad(OutOfRange)
    else Head(p[2] / 64, (p[2] / 4) % 16, (p[2] % 2) * 4 + p[3] / 64, HeaderSize(p), LengthField(p))
  }

  // The config a header implies, with the descriptor derived from its fields.
  function ConfigOf(h: Head, c0: Config): Config {
    if h.Bad? then c0
    else
      var c := FRESH.(objectType := h.profile + 1, index := h.index,
                      frequency := IndexToFrequency(h.index), channels := h.channels);
      c.(raw := Serialize(c))
  }

  datatype Walk = Walk(raw: bytes, err: Error)

  // The frame walk: payloads are appended to `raw` until a header is refused.
  function Frames(p: bytes, raw: bytes): Walk
    decreases |p|
  {
    if p == [] then Walk(raw, Ok)
    else
      var h := ReadHead(p);
      if h.Bad? then Walk(raw, h.err)
      else Frames(p[h.length..], raw + p[h.header..h.length])
  }

  datatype Stripped = Stripped(raw: bytes, config: Config, err: Error)

  function Strip(p: bytes, raw0: bytes, c0: Config): Stripped {
    if p == [] then Stripped(raw0, c0, Ok)
    else if !IsAdts(p) then Stripped(p, c0, Ok)
    else
      var w, h := Frames(p, raw0), ReadHead(p);
      Stripped(w.raw, ConfigOf(h, c0), w.err)
  }

  method StripInto(p: bytes, raw0: bytes, c0: Config) returns (raw: bytes, c: Config, err: Error)
    ensures Stripped(raw, c, err) == Strip(p, raw0, c0)
  {
    hide ConfigOf, ReadHead;
    raw, c := raw0, c0;
    if |p| == 0 { return raw, c, Ok; }
    if !IsAdts(p) { return p, c, Ok; }
    var off, first := 0, true;
    assert p[0..] == p;
    while off < |p|
      invariant 0 <= off <= |p|
      invariant first == (off == 0)
      invariant Frames(p, raw0) == Frames(p[off..], raw)
      invariant c == if first then c0 else ConfigOf(ReadHead(p), c0)
    {
      var h := ReadHead(p[off..]);
      if h.Bad? {
        if first { BadKeepsConfig(h, c0); }
        return raw, c, h.err;
      }
      if first {
        c := ConfigOf(h, c0);
        first := false;
      }
      raw := raw + p[off..][h.header..h.length];
      assert p[off..][h.length..] == p[off + h.length..];
      off := off + h.length;
    }
    assert p[off..] == [];
    return raw, c, Ok;
  }

  lemma BadKeepsConfig(h: Head, c0: Config)
    requires h.Bad?
    ensures ConfigOf(h, c0) == c0
  {
  }
}
