// The AMF0 value tree and its wire grammar: what the writer emits for a value,
// and what the reader makes of arbitrary bytes.

module Amf0 {
  import opened Bytes
  import opened Errors

  datatype Value =
    | Null
    | Undefined
    | Unsupported
    | Boolean(b: bool)
    | Number(bits: u64)
    | String(text: bytes)
    | XmlDocument(xml: bytes)
    | Date(ms: u64, timezone: u16)
    | Reference(index: u16)
    | StrictArray(items: seq<Value>)
    | Object(fields: seq<Field>)
    | EcmaArray(countHint: u32, fields: seq<Field>)
    | TypedObject(className: bytes, fields: seq<Field>)

  // Strings are carried as their UTF-8 bytes.
  datatype Field = Field(key: bytes, value: Value)

  const MARKER_NUMBER: byte := 0x00
  const MARKER_BOOLEAN: byte := 0x01
  const MARKER_STRING: byte := 0x02
  const MARKER_OBJECT: byte := 0x03
  const MARKER_NULL: byte := 0x05
  const MARKER_UNDEFINED: byte := 0x06
  const MARKER_REFERENCE: byte := 0x07
  const MARKER_ECMA_ARRAY: byte := 0x08
  const MARKER_OBJECT_END: byte := 0x09
  const MARKER_STRICT_ARRAY: byte := 0x0A
  const MARKER_DATE: byte := 0x0B
  const MARKER_LONG_STRING: byte := 0x0C
  const MARKER_UNSUPPORTED: byte := 0x0D
  const MARKER_XML_DOCUMENT: byte := 0x0F
  const MARKER_TYPED_OBJECT: byte := 0x10

  const OBJECT_END: bytes := [0x00, 0x00, MARKER_OBJECT_END]

  // ---------------------------------------------------------------------
  // Writing
  // ---------------------------------------------------------------------

  // Bytes appended so far, and the error that stopped the writer, if any.
  datatype Emission = Emission(out: bytes, err: Error) {
    function Then(next: Emission): Emission {
      if err.Ok? then Emission(out + next.out, next.err) else this
    }
  }

  function Put(s: bytes): Emission { Emission(s, Ok) }

  function EmitShortString(s: bytes): Emission {
    if |s| > 0xFFFF then Emission([], OutOfRange) else Put(StoreU16(|s|) + s)
  }

  function EmitLongString(s: bytes): Emission {
    if |s| > 0xFFFF_FFFF then Emission([], OutOfRange) else Put(StoreU32(|s|) + s)
  }

  function Emit(v: Value): Emission
    decreases v, 1
  {
    match v
    case Null => Put([MARKER_NULL])
    case Undefined => Put([MARKER_UNDEFINED])
    case Unsupported => Put([MARKER_UNSUPPORTED])
    case Boolean(b) => Put([MARKER_BOOLEAN, if b then 1 else 0])
    case Number(bits) => Put([MARKER_NUMBER] + StoreU64(bits))
    case String(s) =>
      if |s| <= 0xFFFF then Put([MARKER_STRING]).Then(EmitShortString(s))
      else Put([MARKER_LONG_STRING]).Then(EmitLongString(s))
    case XmlDocument(s) => Put([MARKER_XML_DOCUMENT]).Then(EmitLongString(s))
    case Date(ms, tz) => Put([MARKER_DATE] + StoreU64(ms) + StoreU16(tz))
    case Reference(i) => Put([MARKER_REFERENCE] + StoreU16(i))
    // The element count is narrowed to 32 bits without a check.
    case StrictArray(items) =>
      Put([MARKER_STRICT_ARRAY] + StoreU32(|items| % TWO_32)).Then(EmitItems(items))
    case Object(fields) => Put([MARKER_OBJECT]).Then(EmitFields(fields)).Then(Put(OBJECT_END))
    case EcmaArray(hint, fields) =>
      Put([MARKER_ECMA_ARRAY] + StoreU32(hint)).Then(EmitFields(fields)).Then(Put(OBJECT_END))
    case TypedObject(cls, fields) =>
      if |cls| > 0xFFFF then Emission([], OutOfRange)
      else Put([MARKER_TYPED_OBJECT]).Then(EmitShortString(cls)).Then(EmitFields(fields)).Then(Put(OBJECT_END))
  }

  function EmitItems(items: seq<Value>): Emission
    decreases items, 0
  {
    if items == [] then Put([]) else Emit(items[0]).Then(EmitItems(items[1..]))
  }

  function EmitFields(fields: seq<Field>): Emission
    decreases fields, 0
  {
    if fields == [] then Put([])
    else EmitShortString(fields[0].key).Then(Emit(fields[0].value)).Then(EmitFields(fields[1..]))
  }

  // ---------------------------------------------------------------------
  // Reading
  // ---------------------------------------------------------------------

  // A value together with the number of bytes it took, or the reason there is none.
  datatype Parsed<+T> = Got(value: T, used: nat) | Fail(err: Error)

  function ParseBytes(s: bytes, len: nat): (r: Parsed<bytes>)
    ensures r.Got? ==> r.used == len <= |s|
  {
    if |s| < len then Fail(OutOfRange) else Got(s[..len], len)
  }

  function ParseShortString(s: bytes): (r: Parsed<bytes>)
    ensures r.Got? ==> 0 < r.used <= |s|
  {
    if |s| < 2 then Fail(OutOfRange) else Advance(2, ParseBytes(s[2..], LoadU16(s)))
  }

  function ParseLongString(s: bytes): (r: Parsed<bytes>)
    ensures r.Got? ==> 0 < r.used <= |s|
  {
    if |s| < 4 then Fail(OutOfRange) else Advance(4, ParseBytes(s[4..], LoadU32(s)))
  }

  function Advance<T>(n: nat, p: Parsed<T>): Parsed<T> {
    match p
    case Got(v, used) => Got(v, n + used)
    case Fail(e) => Fail(e)
  }

  function ParseValue(s: bytes): (r: Parsed<Value>)
    ensures r.Got? ==> 0 < r.used <= |s|
    decreases |s|, 0
  {
    if |s| == 0 then Fail(OutOfRange) else Advance(1, ParsePayload(s[0], s[1..]))
  }

  // What follows a marker byte.
  function ParsePayload(marker: byte, t: bytes): (r: Parsed<Value>)
    ensures r.Got? ==> r.used <= |t|
    decreases |t|, 2
  {
    match marker
    case 0x00 => if |t| < 8 then Fail(OutOfRange) else Got(Number(LoadU64(t)), 8)
    case 0x01 => if |t| < 1 then Fail(OutOfRange) else Got(Boolean(t[0] != 0), 1)
    case 0x02 => AsString(ParseShortString(t))
    case 0x0C => AsString(ParseLongString(t))
    case 0x05 => Got(Null, 0)
    case 0x06 => Got(Undefined, 0)
    case 0x0D => Got(Unsupported, 0)
    case 0x07 => if |t| < 2 then Fail(OutOfRange) else Got(Reference(LoadU16(t)), 2)
    case 0x0B => if |t| < 10 then Fail(OutOfRange) else Got(Date(LoadU64(t), LoadU16(t[8..])), 10)
    case 0x0A =>
      if |t| < 4 then Fail(OutOfRange)
      else
        var p := ParseItems(t[4..], LoadU32(t));
        if p.Fail? then Fail(p.err) else Got(StrictArray(p.value), 4 + p.used)
    case 0x03 =>
      var p := ParseFields(t);
      if p.Fail? then Fail(p.err) else Got(Object(p.value), p.used)
    case 0x08 =>
      if |t| < 4 then Fail(OutOfRange)
      else
        var p := ParseFields(t[4..]);
        if p.Fail? then Fail(p.err) else Got(EcmaArray(LoadU32(t), p.value), 4 + p.used)
    case 0x10 =>
      var cls := ParseShortString(t);
      if cls.Fail? then Fail(cls.err)
      else
        var p := ParseFields(t[cls.used..]);
        if p.Fail? then Fail(p.err) else Got(TypedObject(cls.value, p.value), cls.used + p.used)
    case 0x0F =>
      var p := ParseLongString(t);
      if p.Fail? then Fail(p.err) else Got(XmlDocument(p.value), p.used)
    case 0x11 => Fail(NotSupported)   // the AMF3 switch
    // Object-end outside an object, the reserved Flash markers, and the rest.
    case _ => Fail(CorruptData)
  }

  function AsString(p: Parsed<bytes>): Parsed<Value> {
    if p.Fail? then Fail(p.err) else Got(String(p.value), p.used)
  }

  function ParseItems(s: bytes, count: nat): (r: Parsed<seq<Value>>)
    ensures r.Got? ==> r.used <= |s| && |r.value| == count
    decreases |s|, 1, count
  {
    if count == 0 then Got([], 0)
    else
      var head := ParseValue(s);
      if head.Fail? then Fail(head.err)
      else
        var tail := ParseItems(s[head.used..], count - 1);
        if tail.Fail? then Fail(tail.err)
        else Got([head.value] + tail.value, head.used + tail.used)
  }

  // An object body up to and including its 00 00 09 terminator.
  function ParseFields(s: bytes): (r: Parsed<seq<Field>>)
    ensures r.Got? ==> 0 < r.used <= |s|
    decreases |s|, 1
  {
    if |s| < 2 then Fail(OutOfRange)
    else
      var keyLen := LoadU16(s);
      if keyLen == 0 then
        if |s| < 3 then Fail(OutOfRange)
        else if s[2] != MARKER_OBJECT_END then Fail(CorruptData)
        else Got([], 3)
      else
        var t := s[2..];
        if |t| < keyLen then Fail(OutOfRange)
        else Advance(2 + keyLen, ParseAfterKey(t[..keyLen], t[keyLen..]))
  }

  // The value of the field just named, and the fields after it.
  function ParseAfterKey(key: bytes, s: bytes): (r: Parsed<seq<Field>>)
    ensures r.Got? ==> r.used <= |s|
    decreases |s|, 2
  {
    var head := ParseValue(s);
    if head.Fail? then Fail(head.err)
    else
      var tail := ParseFields(s[head.used..]);
      if tail.Fail? then Fail(tail.err)
      else Got([Field(key, head.value)] + tail.value, head.used + tail.used)
  }

  // Every value of a message, and the error that ended it early, if any.
  datatype ReadResult = ReadResult(values: seq<Value>, err: Error)

  function ReadAll(s: bytes): ReadResult
    decreases |s|
  {
    if s == [] then ReadResult([], Ok)
    else
      var head := ParseValue(s);
      if head.Fail? then ReadResult([], head.err)
      else
        var tail := ReadAll(s[head.used..]);
        ReadResult([head.value] + tail.values, tail.err)
  }
}
