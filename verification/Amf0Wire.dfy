// The AMF0 wire form byte by byte, sections 2.2 to 2.18 of the AMF0
// specification: what the writer's bytes are, and exactly which byte strings the
// reader takes for which tree.

module Amf0Wire {
  import opened Bytes
  import opened Numbers
  import opened Errors
  import opened Amf0
  import opened Amf0Laws
  import opened Amf0Framing

  // ---------------------------------------------------------------------
  // Words
  // ---------------------------------------------------------------------

  // Network byte order: the most significant byte first.
  function Word2(v: u16): (w: bytes)
    ensures |w| == 2
  {
    [v / 0x100, v % 0x100]
  }

  function Word4(v: u32): (w: bytes)
    ensures |w| == 4
  {
    [v / 0x100_0000, v / 0x1_0000 % 0x100, v / 0x100 % 0x100, v % 0x100]
  }

  function Word8(v: u64): (w: bytes)
    ensures |w| == 8
  {
    [v / 0x100_0000_0000_0000, v / 0x1_0000_0000_0000 % 0x100, v / 0x100_0000_0000 % 0x100,
     v / 0x1_0000_0000 % 0x100, v / 0x100_0000 % 0x100, v / 0x1_0000 % 0x100, v / 0x100 % 0x100, v % 0x100]
  }

  lemma StoredWords(a: u16, b: u32, c: u64)
    ensures StoreU16(a) == Word2(a) && StoreU32(b) == Word4(b) && StoreU64(c) == Word8(c)
  {
    hide StoreU32;
    StoredWord4(b);
    StoredWord8(c);
  }

  lemma StoredWord4(b: u32)
    ensures StoreU32(b) == Word4(b)
  {
    var h, l := b / 0x1_0000, b % 0x1_0000;
    SameQuotient(0x100_0000, b / 0x100_0000, b % 0x100_0000, h / 0x100, h % 0x100 * 0x1_0000 + l);
    SameQuotient(0x100, b / 0x100, b % 0x100, h * 0x100 + l / 0x100, l % 0x100);
    LowByte(h, l / 0x100);
  }

  lemma LowByte(h: nat, l: nat)
    requires l < 0x100
    ensures (h * 0x100 + l) % 0x100 == l
  {
    SameQuotient(0x100, (h * 0x100 + l) / 0x100, (h * 0x100 + l) % 0x100, h, l);
  }

  lemma StoredWord8(c: u64)
    ensures StoreU64(c) == Word8(c)
  {
    hide StoreU32;
    StoredWord4(c / TWO_32);
    StoredWord4(c % TWO_32);
    HighHalf(c / TWO_32, c % TWO_32, c);
    LowHalf(c / TWO_32, c % TWO_32, c);
  }

  lemma HighHalf(hi: u32, lo: u32, c: u64)
    requires c == hi * 0x1_0000_0000 + lo
    ensures hi / 0x100_0000 == c / 0x100_0000_0000_0000
    ensures hi / 0x1_0000 == c / 0x1_0000_0000_0000 && hi / 0x100 == c / 0x100_0000_0000
    ensures hi == c / 0x1_0000_0000
  {
  }

  lemma LowHalf(hi: u32, lo: u32, c: u64)
    requires c == hi * 0x1_0000_0000 + lo
    ensures lo / 0x100_0000 == c / 0x100_0000 % 0x100
    ensures lo / 0x1_0000 % 0x100 == c / 0x1_0000 % 0x100
    ensures lo / 0x100 % 0x100 == c / 0x100 % 0x100 && lo % 0x100 == c % 0x100
  {
    var a, b, d := lo / 0x100_0000, lo / 0x1_0000, lo / 0x100;
    SameQuotient(0x100_0000, c / 0x100_0000, c % 0x100_0000, hi * 0x100 + a, lo % 0x100_0000);
    SameQuotient(0x1_0000, c / 0x1_0000, c % 0x1_0000, hi * 0x1_0000 + b, lo % 0x1_0000);
    SameQuotient(0x100, c / 0x100, c % 0x100, hi * 0x100_0000 + d, lo % 0x100);
    LowByte(hi, a);
    LowByte(hi * 0x100 + b / 0x100, b % 0x100);
    LowByte(hi * 0x1_0000 + d / 0x100, d % 0x100);
  }

  // And the bytes of a word are those of the number it loads as.
  lemma LoadedWords(s: bytes)
    ensures |s| >= 2 ==> s[..2] == Word2(LoadU16(s))
    ensures |s| >= 4 ==> s[..4] == Word4(LoadU32(s))
    ensures |s| >= 8 ==> s[..8] == Word8(LoadU64(s))
  {
    if |s| >= 4 { LoadedWord4(s); }
    if |s| >= 8 {
      LoadedWord4(s[4..]);
      StoredWords(0, 0, LoadU64(s));
      StoredWord4(LoadU32(s));
      StoredWord4(LoadU32(s[4..]));
      assert s[..8] == s[..4] + s[4..][..4];
    }
  }

  lemma LoadedWord4(s: bytes)
    requires |s| >= 4
    ensures s[..4] == Word4(LoadU32(s))
  {
    hide LoadU16, StoreU16, Word4;
    StoredWord4(LoadU32(s));
    LoadedWord2(s);
    LoadedWord2(s[2..]);
    assert s[..4] == s[..2] + s[2..][..2];
  }

  lemma LoadedWord2(s: bytes)
    requires |s| >= 2
    ensures StoreU16(LoadU16(s)) == s[..2]
  {
  }

  // ---------------------------------------------------------------------
  // The writer
  // ---------------------------------------------------------------------

  function Wire(v: Value): bytes
    requires Encodable(v)
    decreases v, 1
  {
    match v
    case Number(x) => [0x00] + Word8(x)
    case Boolean(b) => [0x01, if b then 1 else 0]
    case String(s) => if |s| < 0x1_0000 then [0x02] + Word2(|s|) + s else [0x0C] + Word4(|s|) + s
    case Object(fields) => [0x03] + WireFields(fields) + [0x00, 0x00, 0x09]
    case Null => [0x05]
    case Undefined => [0x06]
    case Reference(i) => [0x07] + Word2(i)
    case EcmaArray(n, fields) => [0x08] + Word4(n) + WireFields(fields) + [0x00, 0x00, 0x09]
    case StrictArray(items) => [0x0A] + Word4(|items| % 0x1_0000_0000) + WireItems(items)
    case Date(ms, zone) => [0x0B] + Word8(ms) + Word2(zone)
    case Unsupported => [0x0D]
    case XmlDocument(s) => [0x0F] + Word4(|s|) + s
    case TypedObject(cls, fields) =>
      [0x10] + (Word2(|cls|) + cls) + WireFields(fields) + [0x00, 0x00, 0x09]
  }

  function WireItems(items: seq<Value>): bytes
    requires ItemsEncodable(items)
    decreases items, 0
  {
    if items == [] then [] else Wire(items[0]) + WireItems(items[1..])
  }

  function WireFields(fields: seq<Field>): bytes
    requires FieldsEncodable(fields)
    decreases fields, 0
  {
    if fields == [] then []
    else Word2(|fields[0].key|) + fields[0].key + Wire(fields[0].value) + WireFields(fields[1..])
  }

  // Every tree the writer accepts leaves as its wire form.
  lemma {:induction false} WritesTheWireForm(v: Value)
    requires Encodable(v)
    ensures Emit(v) == Emission(Wire(v), Ok)
    decreases v, 1
  {
    hide StoreU16, StoreU32, StoreU64, Word2, Word4, Word8, EmitItems, EmitFields, WireItems, WireFields,
      ItemsEncodable, FieldsEncodable;
    match v
    case Number(x) => StoredWords(0, 0, x);
    case String(s) => TextWords(s);
    case XmlDocument(s) => TextWords(s);
    case Date(ms, zone) => StoredWords(zone, 0, ms);
    case Reference(i) => StoredWords(i, 0, 0);
    case StrictArray(items) =>
      StoredWords(0, |items| % TWO_32, 0);
      WritesItems(items);
    case Object(fields) => WritesFields(fields);
    case EcmaArray(n, fields) =>
      StoredWords(0, n, 0);
      WritesFields(fields);
    case TypedObject(cls, fields) =>
      TextWords(cls);
      WritesFields(fields);
    case _ =>
  }

  // The length in front of a string.
  lemma TextWords(s: bytes)
    ensures |s| <= 0xFFFF ==> StoreU16(|s|) == Word2(|s|)
    ensures |s| <= 0xFFFF_FFFF ==> StoreU32(|s|) == Word4(|s|)
    ensures [0x02] + (Word2(|s| % 0x1_0000) + s) == [0x02] + Word2(|s| % 0x1_0000) + s
    ensures [0x0C] + (Word4(|s| % 0x1_0000_0000) + s) == [0x0C] + Word4(|s| % 0x1_0000_0000) + s
    ensures [0x0F] + (Word4(|s| % 0x1_0000_0000) + s) == [0x0F] + Word4(|s| % 0x1_0000_0000) + s
  {
    hide StoreU16, StoreU32, Word2, Word4;
    StoredWords(|s| % 0x1_0000, |s| % 0x1_0000_0000, 0);
    Assoc([0x02], Word2(|s| % 0x1_0000), s);
    Assoc([0x0C], Word4(|s| % 0x1_0000_0000), s);
    Assoc([0x0F], Word4(|s| % 0x1_0000_0000), s);
  }

  lemma {:induction false} WritesItems(items: seq<Value>)
    requires ItemsEncodable(items)
    ensures EmitItems(items) == Emission(WireItems(items), Ok)
    decreases items, 0
  {
    if items == [] {
    } else {
      hide Emit, Wire, Encodable;
      WritesTheWireForm(items[0]);
      WritesItems(items[1..]);
    }
  }

  lemma {:induction false} WritesFields(fields: seq<Field>)
    requires FieldsEncodable(fields)
    ensures EmitFields(fields) == Emission(WireFields(fields), Ok)
    decreases fields, 0
  {
    if fields == [] {
    } else {
      hide Emit, Wire, Encodable, StoreU16, Word2;
      StoredWords(|fields[0].key|, 0, 0);
      WritesTheWireForm(fields[0].value);
      WritesFields(fields[1..]);
    }
  }

  // ---------------------------------------------------------------------
  // The reader
  // ---------------------------------------------------------------------

  // The byte strings that spell a tree. A tree may have several: any byte but
  // zero is true, and a short string may stand behind the long marker.
  ghost predicate Spells(s: bytes, v: Value)
    decreases v, 1
  {
    match v
    case Number(x) => s == [0x00] + Word8(x)
    case Boolean(b) => |s| == 2 && s[0] == 0x01 && (b <==> s[1] != 0)
    case String(t) =>
      || (|t| < 0x1_0000 && s == [0x02] + (Word2(|t|) + t))
      || (|t| < 0x1_0000_0000 && s == [0x0C] + (Word4(|t|) + t))
    case Object(fields) => exists body :: FieldsSpell(body, fields) && s == [0x03] + body
    case Null => s == [0x05]
    case Undefined => s == [0x06]
    case Reference(i) => s == [0x07] + Word2(i)
    case EcmaArray(n, fields) => exists body :: FieldsSpell(body, fields) && s == [0x08] + (Word4(n) + body)
    case StrictArray(items) =>
      |items| < 0x1_0000_0000 && exists body :: ItemsSpell(body, items) && s == [0x0A] + (Word4(|items|) + body)
    case Date(ms, zone) => s == [0x0B] + (Word8(ms) + Word2(zone))
    case Unsupported => s == [0x0D]
    case XmlDocument(t) => |t| < 0x1_0000_0000 && s == [0x0F] + (Word4(|t|) + t)
    case TypedObject(cls, fields) =>
      |cls| < 0x1_0000 && exists body :: FieldsSpell(body, fields) && s == [0x10] + (Word2(|cls|) + (cls + body))
  }

  ghost predicate ItemsSpell(s: bytes, items: seq<Value>)
    decreases items, 0
  {
    if items == [] then s == []
    else exists a, b :: Spells(a, items[0]) && ItemsSpell(b, items[1..]) && s == a + b
  }

  ghost predicate FieldsSpell(s: bytes, fields: seq<Field>)
    decreases fields, 0
  {
    if fields == [] then s == [0x00, 0x00, 0x09]
    else
      var key := fields[0].key;
      && 0 < |key| < 0x1_0000
      && exists a, b :: Spells(a, fields[0].value) && FieldsSpell(b, fields[1..])
                        && s == Word2(|key|) + (key + (a + b))
  }

  // The reader takes whole byte strings for a tree exactly when they spell it.
  lemma {:induction false} ReadsExactlySpellings(s: bytes, v: Value)
    ensures ParseValue(s) == Got(v, |s|) <==> Spells(s, v)
  {
    hide ParseValue, Spells;
    if ParseValue(s) == Got(v, |s|) {
      ReadIsSpelled(s);
      assert s[..|s|] == s;
    }
    if Spells(s, v) {
      SpelledReads(s, v, []);
      assert s + [] == s;
    }
  }

  // The word in front of a counted payload, and what follows the word.
  lemma Counted(t: bytes)
    ensures |t| >= 2 ==> t == Word2(LoadU16(t)) + t[2..]
    ensures |t| >= 4 ==> t == Word4(LoadU32(t)) + t[4..]
    ensures |t| >= 8 ==> t == Word8(LoadU64(t)) + t[8..]
  {
    hide LoadU16, LoadU32, LoadU64, Word2, Word4, Word8;
    LoadedWords(t);
  }

  lemma {:induction false} ReadIsSpelled(s: bytes)
    requires ParseValue(s).Got?
    ensures var p := ParseValue(s); Spells(s[..p.used], p.value)
    decreases |s|, 0
  {
    hide ParsePayload, Spells;
    PayloadIsSpelled(s[0], s[1..]);
    var n := ParseValue(s).used;
    assert s[..n] == [s[0]] + s[1..][..n - 1];
  }

  lemma {:induction false} PayloadIsSpelled(marker: byte, t: bytes)
    requires ParsePayload(marker, t).Got?
    ensures var p := ParsePayload(marker, t); Spells([marker] + t[..p.used], p.value)
    decreases |t|, 2
  {
    hide LoadU16, LoadU32, LoadU64, Word2, Word4, Word8, ParseItems, ParseFields, ItemsSpell, FieldsSpell;
    var p := ParsePayload(marker, t);
    match marker
    case 0x00 => Counted(t);
    case 0x07 => Counted(t);
    case 0x02 =>
      Counted(t);
      CountedText(t, 2, Word2(LoadU16(t)), LoadU16(t));
    case 0x0C =>
      Counted(t);
      CountedText(t, 4, Word4(LoadU32(t)), LoadU32(t));
    case 0x0F =>
      Counted(t);
      CountedText(t, 4, Word4(LoadU32(t)), LoadU32(t));
    case 0x0B =>
      Counted(t);
      Counted(t[8..]);
      assert t[..10] == t[..8] + t[8..][..2];
    case 0x0A =>
      Counted(t);
      ItemsAreSpelled(t[4..], LoadU32(t));
      CountedText(t, 4, Word4(LoadU32(t)), p.used - 4);
    case 0x03 => FieldsAreSpelled(t);
    case 0x08 =>
      Counted(t);
      FieldsAreSpelled(t[4..]);
      CountedText(t, 4, Word4(LoadU32(t)), p.used - 4);
    case 0x10 => TypedIsSpelled(t);
    case _ =>
  }

  lemma {:induction false} TypedIsSpelled(t: bytes)
    requires ParsePayload(0x10, t).Got?
    ensures var p := ParsePayload(0x10, t); Spells([0x10] + t[..p.used], p.value)
    decreases |t|, 1, 1
  {
    hide Word2, FieldsSpell, Spells, ParsePayload, ParseFields, LoadU16;
    Counted(t);
    var n, u := TypedParts(t);
    FieldsAreSpelled(u);
    var cls, k := t[2..][..n], ParseFields(u).used;
    PrefixOfField(t, Word2(n), cls, u[..k], []);
    assert u[..k] + [] == u[..k];
    TypedSpells(cls, ParseFields(u).value, u[..k]);
  }

  lemma {:induction false} TypedSpells(cls: bytes, fields: seq<Field>, body: bytes)
    requires |cls| < 0x1_0000 && FieldsSpell(body, fields)
    ensures Spells([0x10] + (Word2(|cls|) + (cls + body)), TypedObject(cls, fields))
  {
    hide FieldsSpell, Word2;
  }

  // Where the class name of a typed object ends and its fields begin.
  lemma TypedParts(t: bytes) returns (n: nat, u: bytes)
    requires ParsePayload(0x10, t).Got?
    ensures |t| >= 2 && n == LoadU16(t) && 2 + n <= |t| && u == t[2..][n..]
    ensures ParseFields(u).Got?
    ensures ParsePayload(0x10, t)
            == Got(TypedObject(t[2..][..n], ParseFields(u).value), 2 + n + ParseFields(u).used)
  {
    hide LoadU16, ParseFields;
    n := LoadU16(t);
    u := t[2..][n..];
    assert t[2 + n..] == u;
  }

  lemma CountedText(t: bytes, w: nat, word: bytes, n: nat)
    requires w <= |t| && n <= |t| - w && t == word + t[w..]
    ensures t[..w + n] == word + t[w..][..n]
  {
  }

  lemma {:induction false} ItemsAreSpelled(s: bytes, count: nat)
    requires ParseItems(s, count).Got?
    ensures var p := ParseItems(s, count); ItemsSpell(s[..p.used], p.value)
    decreases |s|, 1, count
  {
    hide ParseValue, Spells;
    if count == 0 {
    } else {
      var head := ParseValue(s);
      var tail := ParseItems(s[head.used..], count - 1);
      ReadIsSpelled(s);
      ItemsAreSpelled(s[head.used..], count - 1);
      assert ([head.value] + tail.value)[1..] == tail.value;
      assert s[..head.used + tail.used] == s[..head.used] + s[head.used..][..tail.used];
    }
  }

  lemma {:induction false} FieldsAreSpelled(s: bytes)
    requires ParseFields(s).Got?
    ensures var p := ParseFields(s); FieldsSpell(s[..p.used], p.value)
    decreases |s|, 1
  {
    hide ParseValue, Spells, LoadU16, Word2;
    Counted(s);
    if LoadU16(s) > 0 {
      var n, u, head, tail := FieldParts(s);
      ReadIsSpelled(u);
      FieldsAreSpelled(u[head.used..]);
      var key, a, b := s[2..][..n], u[..head.used], u[head.used..][..tail.used];
      PrefixOfField(s, Word2(n), key, a, b);
      FieldIsSpelled(s[..ParseFields(s).used], Field(key, head.value), a, b, tail.value);
    } else {
      ZeroWord();
      assert s[..3] == [0x00, 0x00, 0x09];
    }
  }

  lemma ZeroWord()
    ensures Word2(0) == [0x00, 0x00]
  {
  }

  // The key, the value and the further fields of a body that is not at its end.
  lemma FieldParts(s: bytes)
    returns (n: nat, u: bytes, head: Parsed<Value>, tail: Parsed<seq<Field>>)
    requires ParseFields(s).Got? && LoadU16(s) > 0
    ensures n == LoadU16(s) && n <= |s| - 2 && u == s[2..][n..]
    ensures head == ParseValue(u) && head.Got? && tail == ParseFields(u[head.used..]) && tail.Got?
    ensures ParseFields(s)
            == Got([Field(s[2..][..n], head.value)] + tail.value, 2 + n + head.used + tail.used)
  {
    hide ParseValue, LoadU16;
    n := LoadU16(s);
    u := s[2..][n..];
    head := ParseValue(u);
    tail := ParseFields(u[head.used..]);
  }

  lemma PrefixOfField(s: bytes, w: bytes, key: bytes, a: bytes, b: bytes)
    requires |s| >= |w| + |key| + |a| + |b| && s[..|w|] == w && s[|w|..][..|key|] == key
    requires s[|w|..][|key|..][..|a|] == a && s[|w|..][|key|..][|a|..][..|b|] == b
    ensures s[..|w| + |key| + |a| + |b|] == w + (key + (a + b))
  {
    var t := s[|w|..];
    var u := t[|key|..];
    assert u[..|a| + |b|] == a + b;
    assert t[..|key| + |a| + |b|] == key + (a + b);
  }

  lemma {:induction false} FieldIsSpelled(s: bytes, f: Field, a: bytes, b: bytes, rest: seq<Field>)
    requires 0 < |f.key| < 0x1_0000 && Spells(a, f.value) && FieldsSpell(b, rest)
    requires s == Word2(|f.key|) + (f.key + (a + b))
    ensures FieldsSpell(s, [f] + rest)
  {
    hide Spells, Word2;
    assert ([f] + rest)[1..] == rest;
  }

  lemma {:induction false} SpelledReads(s: bytes, v: Value, rest: bytes)
    requires Spells(s, v)
    ensures ParseValue(s + rest) == Got(v, |s|)
    decreases v, 1
  {
    hide ParseValue, Word2, Word4, Word8, ItemsSpell, FieldsSpell, LoadU16, LoadU32, LoadU64;
    match v
    case StrictArray(items) =>
      var body :| ItemsSpell(body, items) && s == [0x0A] + (Word4(|items|) + body);
      SpelledItemsRead(body, items, rest);
      Behind(0x0A, |items|, body, rest);
    case Object(fields) =>
      var body :| FieldsSpell(body, fields) && s == [0x03] + body;
      SpelledFieldsRead(body, fields, rest);
      Assoc([0x03], body, rest);
      ParseMarked(0x03, body + rest);
    case EcmaArray(n, fields) =>
      var body :| FieldsSpell(body, fields) && s == [0x08] + (Word4(n) + body);
      SpelledFieldsRead(body, fields, rest);
      Behind(0x08, n, body, rest);
    case TypedObject(cls, fields) =>
      var body :| FieldsSpell(body, fields) && s == [0x10] + (Word2(|cls|) + (cls + body));
      SpelledFieldsRead(body, fields, rest);
      SpelledTypedReads(cls, fields, body, rest);
    case String(t) => SpelledTextReads(s, v, rest);
    case XmlDocument(t) => SpelledTextReads(s, v, rest);
    case _ => SpelledScalarReads(s, v, rest);
  }

  // A marker, a count and a body, with `rest` behind them.
  lemma {:induction false} Behind(marker: byte, n: u32, body: bytes, rest: bytes)
    requires marker == 0x0A || marker == 0x08
    ensures var s, t := [marker] + (Word4(n) + body), body + rest;
            ParseValue(s + rest) ==
            if marker == 0x0A
            then (var p := ParseItems(t, n); if p.Fail? then Fail(p.err) else Got(StrictArray(p.value), 5 + p.used))
            else (var p := ParseFields(t); if p.Fail? then Fail(p.err) else Got(EcmaArray(n, p.value), 5 + p.used))
  {
    hide ParseValue, ParseItems, ParseFields, StoreU32, Word4;
    StoredWords(0, n, 0);
    Assoc([marker], Word4(n) + body, rest);
    Assoc(Word4(n), body, rest);
    ParseCounted(marker, n, body + rest);
  }

  lemma {:induction false} SpelledTypedReads(cls: bytes, fields: seq<Field>, body: bytes, rest: bytes)
    requires |cls| <= 0xFFFF && ParseFields(body + rest) == Got(fields, |body|)
    ensures var s := [0x10] + (Word2(|cls|) + (cls + body));
            ParseValue(s + rest) == Got(TypedObject(cls, fields), |s|)
  {
    hide ParseValue, ParseFields, StoreU16, Word2;
    StoredWords(|cls|, 0, 0);
    var w := Word2(|cls|);
    Assoc([0x10], w + (cls + body), rest);
    Assoc(w, cls + body, rest);
    Assoc(cls, body, rest);
    Assoc(w, cls, body + rest);
    ParseTyped(cls, body + rest);
  }

  lemma {:induction false} SpelledTextReads(s: bytes, v: Value, rest: bytes)
    requires Spells(s, v) && (v.String? || v.XmlDocument?)
    ensures ParseValue(s + rest) == Got(v, |s|)
  {
    hide ParseShortString, ParseLongString, ParseValue, StoreU16, StoreU32, Word2, Word4;
    var t := if v.String? then v.text else v.xml;
    TextWords(t);
    if v.String? && |t| < 0x1_0000 && s == [0x02] + (Word2(|t|) + t) {
      ShortStringRoundTrip(t, rest);
      Assoc([0x02], Word2(|t|) + t, rest);
      ParseMarked(0x02, Word2(|t|) + t + rest);
    } else {
      var marker: byte := if v.String? then 0x0C else 0x0F;
      LongStringRoundTrip(t, rest);
      Assoc([marker], Word4(|t|) + t, rest);
      ParseMarked(marker, Word4(|t|) + t + rest);
    }
  }

  lemma {:induction false} SpelledScalarReads(s: bytes, v: Value, rest: bytes)
    requires Spells(s, v)
    requires v.Null? || v.Undefined? || v.Unsupported? || v.Boolean? || v.Reference? || v.Number? || v.Date?
    ensures ParseValue(s + rest) == Got(v, |s|)
  {
    if v.Boolean? {
      assert s + rest == [0x01] + ([s[1]] + rest);
      ParseMarked(0x01, [s[1]] + rest);
    } else {
      hide ParseValue, ParsePayload, StoreU16, StoreU64, Word2, Word8;
      if v.Reference? { StoredWords(v.index, 0, 0); }
      if v.Number? { StoredWords(0, 0, v.bits); }
      if v.Date? {
        StoredWords(v.timezone, 0, v.ms);
        Assoc([0x0B], Word8(v.ms), Word2(v.timezone));
      }
      ScalarRoundTrip(v, rest);
    }
  }

  lemma {:induction false} SpelledItemsRead(s: bytes, items: seq<Value>, rest: bytes)
    requires ItemsSpell(s, items)
    ensures ParseItems(s + rest, |items|) == Got(items, |s|)
    decreases items, 0
  {
    if items == [] {
      assert s + rest == rest;
    } else {
      hide ParseValue, Spells, ParseItems;
      var a, b :| Spells(a, items[0]) && ItemsSpell(b, items[1..]) && s == a + b;
      hide ItemsSpell;
      Assoc(a, b, rest);
      SpelledReads(a, items[0], b + rest);
      SpelledItemsRead(b, items[1..], rest);
      ItemsStep(a, b + rest, items);
    }
  }

  lemma {:induction false} ItemsStep(a: bytes, t: bytes, items: seq<Value>)
    requires items != [] && ParseValue(a + t) == Got(items[0], |a|)
    requires ParseItems(t, |items| - 1).Got? && ParseItems(t, |items| - 1).value == items[1..]
    ensures ParseItems(a + t, |items|) == Got(items, |a| + ParseItems(t, |items| - 1).used)
  {
    hide ParseValue;
    Append(a, t);
    assert [items[0]] + items[1..] == items;
  }

  lemma {:induction false} SpelledFieldsRead(s: bytes, fields: seq<Field>, rest: bytes)
    requires FieldsSpell(s, fields)
    ensures ParseFields(s + rest) == Got(fields, |s|)
    decreases fields, 0
  {
    if fields == [] {
      EndReads(rest);
    } else {
      hide ParseValue, Spells, ParseFields, StoreU16, Word2;
      var f := fields[0];
      var a, b :| Spells(a, f.value) && FieldsSpell(b, fields[1..]) && s == Word2(|f.key|) + (f.key + (a + b));
      hide FieldsSpell;
      SpelledReads(a, f.value, b + rest);
      SpelledFieldsRead(b, fields[1..], rest);
      FieldReads(f, a, b, fields[1..], rest);
      assert fields == [f] + fields[1..];
    }
  }

  lemma {:induction false} FieldReads(f: Field, a: bytes, b: bytes, more: seq<Field>, rest: bytes)
    requires 0 < |f.key| < 0x1_0000
    requires ParseValue(a + (b + rest)) == Got(f.value, |a|) && ParseFields(b + rest) == Got(more, |b|)
    ensures var s := Word2(|f.key|) + (f.key + (a + b)); ParseFields(s + rest) == Got([f] + more, |s|)
  {
    hide ParseValue, ParseFields, StoreU16, Word2;
    StoredWords(|f.key|, 0, 0);
    var w := Word2(|f.key|);
    Assoc(w, f.key + (a + b), rest);
    Assoc(f.key, a + b, rest);
    Assoc(a, b, rest);
    ParseFieldStep(f.key, a, b + rest);
  }

  lemma {:induction false} EndReads(rest: bytes)
    ensures ParseFields([0x00, 0x00, 0x09] + rest) == Got([], 3)
  {
    assert ([0x00, 0x00, 0x09] + rest)[2] == 0x09;
  }

  lemma {:induction false} EmptyObjectReads(rest: bytes)
    ensures ParseValue([0x03, 0x00, 0x00, 0x09] + rest) == Got(Object([]), 4)
  {
    hide ParseFields;
    EndReads(rest);
    assert [0x03] + [0x00, 0x00, 0x09] == [0x03, 0x00, 0x00, 0x09];
    Assoc([0x03], [0x00, 0x00, 0x09], rest);
    ParseMarked(0x03, [0x00, 0x00, 0x09] + rest);
  }

  // What the reader says of bytes that begin no tree.
  lemma {:induction false} FirstBytes(s: bytes)
    ensures s != [] && (s[0] in {0x04, 0x09, 0x0E} || s[0] > 0x11) ==> ParseValue(s) == Fail(CorruptData)
    ensures s != [] && s[0] == 0x11 ==> ParseValue(s) == Fail(NotSupported)
    ensures s == [] ==> ParseValue(s) == Fail(OutOfRange)
  {
    if s != [] { assert ParseValue(s) == Advance(1, ParsePayload(s[0], s[1..])); }
  }
}
