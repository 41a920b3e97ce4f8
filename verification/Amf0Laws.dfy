// What the AMF0 wire grammar promises: encodings are self-delimiting, a tree
// comes back from its encoding exactly when no field has an empty key, and
// whatever the reader accepts survives being written again.

module Amf0Laws {
  import opened Bytes
  import opened Errors
  import opened Amf0

  // ---------------------------------------------------------------------
  // Trees the writer accepts, and trees the reader gives back
  // ---------------------------------------------------------------------

  // Every length fits the length field it is written into.
  predicate Encodable(v: Value)
    decreases v, 1
  {
    match v
    case String(s) => |s| <= 0xFFFF_FFFF
    case XmlDocument(s) => |s| <= 0xFFFF_FFFF
    case StrictArray(items) => ItemsEncodable(items)
    case Object(fields) => FieldsEncodable(fields)
    case EcmaArray(_, fields) => FieldsEncodable(fields)
    case TypedObject(cls, fields) => |cls| <= 0xFFFF && FieldsEncodable(fields)
    case _ => true
  }

  predicate ItemsEncodable(items: seq<Value>)
    decreases items, 0
  {
    items == [] || (Encodable(items[0]) && ItemsEncodable(items[1..]))
  }

  predicate FieldsEncodable(fields: seq<Field>)
    decreases fields, 0
  {
    fields == [] ||
    (|fields[0].key| <= 0xFFFF && Encodable(fields[0].value) && FieldsEncodable(fields[1..]))
  }

  // No field anywhere has an empty key, and no array outgrows its 32-bit count.
  predicate Faithful(v: Value)
    decreases v, 1
  {
    match v
    case StrictArray(items) => |items| < TWO_32 && ItemsFaithful(items)
    case Object(fields) => FieldsFaithful(fields)
    case EcmaArray(_, fields) => FieldsFaithful(fields)
    case TypedObject(_, fields) => FieldsFaithful(fields)
    case _ => true
  }

  predicate ItemsFaithful(items: seq<Value>)
    decreases items, 0
  {
    items == [] || (Faithful(items[0]) && ItemsFaithful(items[1..]))
  }

  predicate FieldsFaithful(fields: seq<Field>)
    decreases fields, 0
  {
    fields == [] ||
    (fields[0].key != [] && Faithful(fields[0].value) && FieldsFaithful(fields[1..]))
  }

  // The writer fails exactly on the trees with an over-long name or string.
  lemma {:induction false} EmitFailsOnlyOnLength(v: Value)
    ensures Emit(v).err == if Encodable(v) then Ok else OutOfRange
    decreases v, 1
  {
    match v
    case StrictArray(items) => EmitItemsFailsOnlyOnLength(items);
    case Object(fields) => EmitFieldsFailsOnlyOnLength(fields);
    case EcmaArray(_, fields) => EmitFieldsFailsOnlyOnLength(fields);
    case TypedObject(_, fields) => EmitFieldsFailsOnlyOnLength(fields);
    case _ =>
  }

  lemma {:induction false} EmitItemsFailsOnlyOnLength(items: seq<Value>)
    ensures EmitItems(items).err == if ItemsEncodable(items) then Ok else OutOfRange
    decreases items, 0
  {
    if items == [] {
    } else {
      EmitFailsOnlyOnLength(items[0]);
      EmitItemsFailsOnlyOnLength(items[1..]);
    }
  }

  lemma {:induction false} EmitFieldsFailsOnlyOnLength(fields: seq<Field>)
    ensures EmitFields(fields).err == if FieldsEncodable(fields) then Ok else OutOfRange
    decreases fields, 0
  {
    if fields == [] {
    } else {
      EmitFailsOnlyOnLength(fields[0].value);
      EmitFieldsFailsOnlyOnLength(fields[1..]);
    }
  }

  // No value starts with the object-end marker, so 00 00 09 is never a field.
  lemma {:induction false} NeverStartsWithObjectEnd(v: Value)
    requires Emit(v).err.Ok?
    ensures Emit(v).out != [] && Emit(v).out[0] != MARKER_OBJECT_END
  {
    match v
    case StrictArray(items) => assert EmitItems(items).err.Ok?;
    case Object(fields) => assert EmitFields(fields).err.Ok?;
    case EcmaArray(_, fields) => assert EmitFields(fields).err.Ok?;
    case TypedObject(_, fields) => assert EmitFields(fields).err.Ok?;
    case _ =>
  }

  // ---------------------------------------------------------------------
  // Round trip
  // ---------------------------------------------------------------------

  lemma ShortStringRoundTrip(s: bytes, rest: bytes)
    requires |s| <= 0xFFFF
    ensures ParseShortString(EmitShortString(s).out + rest) == Got(s, 2 + |s|)
  {
    Assoc(StoreU16(|s|), s, rest);
    StoreLoadU16(|s|, s + rest);
    Append(StoreU16(|s|), s + rest);
    Append(s, rest);
  }

  lemma LongStringRoundTrip(s: bytes, rest: bytes)
    requires |s| <= 0xFFFF_FFFF
    ensures ParseLongString(EmitLongString(s).out + rest) == Got(s, 4 + |s|)
  {
    Assoc(StoreU32(|s|), s, rest);
    StoreLoadU32(|s|, s + rest);
    Append(StoreU32(|s|), s + rest);
    Append(s, rest);
  }

  // How the reader unfolds behind each container marker.

  lemma {:induction false} ParseMarked(marker: byte, t: bytes)
    ensures ParseValue([marker] + t) == Advance(1, ParsePayload(marker, t))
  {
    hide ParsePayload;
    Append([marker], t);
  }

  lemma {:induction false} ParseCounted(marker: byte, n: u32, t: bytes)
    requires marker == MARKER_STRICT_ARRAY || marker == MARKER_ECMA_ARRAY
    ensures ParseValue([marker] + (StoreU32(n) + t)) ==
            if marker == MARKER_STRICT_ARRAY
            then (var p := ParseItems(t, n); if p.Fail? then Fail(p.err) else Got(StrictArray(p.value), 5 + p.used))
            else (var p := ParseFields(t); if p.Fail? then Fail(p.err) else Got(EcmaArray(n, p.value), 5 + p.used))
  {
    hide ParseItems, ParseFields, StoreU32, LoadU32;
    ParseMarked(marker, StoreU32(n) + t);
    StoreLoadU32(n, t);
    Append(StoreU32(n), t);
  }

  // One step of the body reader: a key, the value after it, and the rest.
  lemma {:induction false} ParseFieldStep(key: bytes, value: bytes, after: bytes)
    requires |key| <= 0xFFFF
    ensures var w := StoreU16(|key|) + (key + (value + after));
            var head := ParseValue(value + after);
            var tail := ParseFields(after);
            var p := ParseFields(w);
            && (key == [] && |value| > 0 ==>
                p == if value[0] != MARKER_OBJECT_END then Fail(CorruptData) else Got([], 3))
            && (key != [] && head.Fail? ==> p == Fail(head.err))
            && (key != [] && p.Got? ==> head.Got? && p.value != [] && p.value[0] == Field(key, head.value))
            && (key != [] && head.Got? && head.used == |value| ==>
                p == if tail.Fail? then Fail(tail.err)
                     else Got([Field(key, head.value)] + tail.value, 2 + |key| + |value| + tail.used))
  {
    hide StoreU16, LoadU16, ParseValue;
    var w := StoreU16(|key|) + (key + (value + after));
    StoreLoadU16(|key|, key + (value + after));
    Append(StoreU16(|key|), key + (value + after));
    Append(key, value + after);
    Append(value, after);
    if key == [] && |value| > 0 {
      assert w[2] == value[0];
    }
  }

  // How the bytes of an array or an object body split at its first element.

  lemma {:induction false} ItemBytes(items: seq<Value>, rest: bytes)
    requires items != [] && EmitItems(items).err.Ok?
    ensures Emit(items[0]).err.Ok? && EmitItems(items[1..]).err.Ok?
    ensures EmitItems(items).out == Emit(items[0]).out + EmitItems(items[1..]).out
    ensures EmitItems(items).out + rest == Emit(items[0]).out + (EmitItems(items[1..]).out + rest)
  {
    hide Emit;
    Assoc(Emit(items[0]).out, EmitItems(items[1..]).out, rest);
  }

  lemma {:induction false} FieldBytes(fields: seq<Field>, rest: bytes)
    requires fields != [] && EmitFields(fields).err.Ok?
    ensures var key, value, tail := fields[0].key, Emit(fields[0].value), EmitFields(fields[1..]);
            && |key| <= 0xFFFF && value.err.Ok? && tail.err.Ok?
            && |EmitFields(fields).out| == 2 + |key| + |value.out| + |tail.out|
            && EmitFields(fields).out + rest == StoreU16(|key|) + (key + (value.out + (tail.out + rest)))
  {
    hide Emit;
    var key, value, tail := fields[0].key, Emit(fields[0].value), EmitFields(fields[1..]);
    var n := StoreU16(|key|);
    assert EmitFields(fields).out == n + key + value.out + tail.out;
    Regroup(n, key, value.out, tail.out, rest);
  }

  lemma Regroup(a: bytes, b: bytes, c: bytes, d: bytes, e: bytes)
    ensures a + b + c + d + e == a + (b + (c + (d + e)))
  {
    Assoc(a + b + c, d, e);
    Assoc(a + b, c, d + e);
    Assoc(a, b, c + (d + e));
  }

  lemma {:induction false} ArrayBytes(items: seq<Value>, n: bytes, body: bytes, rest: bytes)
    requires EmitItems(items) == Emission(body, Ok) && n == StoreU32(|items| % TWO_32)
    ensures Emit(StrictArray(items)) == Emission([MARKER_STRICT_ARRAY] + n + body, Ok)
    ensures Emit(StrictArray(items)).out + rest == [MARKER_STRICT_ARRAY] + (n + (body + rest))
  {
    hide EmitItems;
    Assoc([MARKER_STRICT_ARRAY] + n, body, rest);
    Assoc([MARKER_STRICT_ARRAY], n, body + rest);
  }

  lemma {:induction false} ObjectBytes(fields: seq<Field>, rest: bytes)
    requires EmitFields(fields).err.Ok?
    ensures var body := EmitFields(fields).out;
            && Emit(Object(fields)) == Emission([MARKER_OBJECT] + body + OBJECT_END, Ok)
            && Emit(Object(fields)).out + rest == [MARKER_OBJECT] + (body + (OBJECT_END + rest))
  {
    hide EmitFields;
    var body := EmitFields(fields).out;
    Assoc([MARKER_OBJECT] + body, OBJECT_END, rest);
    Assoc([MARKER_OBJECT], body, OBJECT_END + rest);
  }

  lemma {:induction false} EcmaBytes(hint: u32, fields: seq<Field>, rest: bytes)
    requires EmitFields(fields).err.Ok?
    ensures var n, body := StoreU32(hint), EmitFields(fields).out;
            && Emit(EcmaArray(hint, fields)) == Emission([MARKER_ECMA_ARRAY] + n + body + OBJECT_END, Ok)
            && Emit(EcmaArray(hint, fields)).out + rest ==
               [MARKER_ECMA_ARRAY] + (n + (body + (OBJECT_END + rest)))
  {
    hide EmitFields, StoreU32;
    Regroup([MARKER_ECMA_ARRAY], StoreU32(hint), EmitFields(fields).out, OBJECT_END, rest);
  }

  lemma {:induction false} TypedBytes(cls: bytes, fields: seq<Field>, rest: bytes)
    requires |cls| <= 0xFFFF && EmitFields(fields).err.Ok?
    ensures var name, body := EmitShortString(cls).out, EmitFields(fields).out;
            && Emit(TypedObject(cls, fields)) == Emission([MARKER_TYPED_OBJECT] + name + body + OBJECT_END, Ok)
            && Emit(TypedObject(cls, fields)).out + rest ==
               [MARKER_TYPED_OBJECT] + (name + (body + (OBJECT_END + rest)))
  {
    hide EmitFields, StoreU16;
    Regroup([MARKER_TYPED_OBJECT], EmitShortString(cls).out, EmitFields(fields).out, OBJECT_END, rest);
  }

  lemma {:induction false} ParseTyped(cls: bytes, t: bytes)
    requires |cls| <= 0xFFFF
    ensures var p := ParseFields(t);
            ParseValue([MARKER_TYPED_OBJECT] + (EmitShortString(cls).out + t)) ==
            if p.Fail? then Fail(p.err) else Got(TypedObject(cls, p.value), 3 + |cls| + p.used)
  {
    hide ParseFields, ParseShortString, StoreU16;
    ParseMarked(MARKER_TYPED_OBJECT, EmitShortString(cls).out + t);
    ShortStringRoundTrip(cls, t);
    Append(EmitShortString(cls).out, t);
  }

  lemma {:induction false} ScalarRoundTrip(v: Value, rest: bytes)
    requires Emit(v).err.Ok?
    requires v.Null? || v.Undefined? || v.Unsupported? || v.Boolean? || v.Reference? || v.Number? || v.Date?
    ensures ParseValue(Emit(v).out + rest) == Got(v, |Emit(v).out|)
  {
    if v.Reference? {
      Assoc([MARKER_REFERENCE], StoreU16(v.index), rest);
      ParseMarked(MARKER_REFERENCE, StoreU16(v.index) + rest);
      StoreLoadU16(v.index, rest);
    } else if v.Number? {
      Assoc([MARKER_NUMBER], StoreU64(v.bits), rest);
      ParseMarked(MARKER_NUMBER, StoreU64(v.bits) + rest);
      StoreLoadU64(v.bits, rest);
    } else if v.Date? {
      DateRoundTrip(v.ms, v.timezone, rest);
    }
  }

  lemma {:induction false} DateRoundTrip(ms: u64, tz: u16, rest: bytes)
    ensures ParseValue(Emit(Date(ms, tz)).out + rest) == Got(Date(ms, tz), 11)
  {
    var t := StoreU16(tz) + rest;
    Assoc([MARKER_DATE] + StoreU64(ms), StoreU16(tz), rest);
    Assoc([MARKER_DATE], StoreU64(ms), t);
    ParseMarked(MARKER_DATE, StoreU64(ms) + t);
    StoreLoadU64(ms, t);
    Append(StoreU64(ms), t);
    StoreLoadU16(tz, rest);
  }

  // The short and the long string form decode to the same String.
  lemma {:induction false} TextRoundTrip(v: Value, rest: bytes)
    requires Emit(v).err.Ok? && (v.String? || v.XmlDocument?)
    ensures ParseValue(Emit(v).out + rest) == Got(v, |Emit(v).out|)
  {
    hide ParseShortString, ParseLongString, ParseValue, StoreU16, StoreU32;
    var s := if v.String? then v.text else v.xml;
    if v.String? && |s| <= 0xFFFF {
      ShortStringRoundTrip(s, rest);
      Assoc([MARKER_STRING], EmitShortString(s).out, rest);
      ParseMarked(MARKER_STRING, EmitShortString(s).out + rest);
    } else {
      var marker := if v.String? then MARKER_LONG_STRING else MARKER_XML_DOCUMENT;
      LongStringRoundTrip(s, rest);
      Assoc([marker], EmitLongString(s).out, rest);
      ParseMarked(marker, EmitLongString(s).out + rest);
    }
  }

  // The reader undoes the writer on every faithful tree, whatever follows it.
  lemma {:induction false} ReadsBackFaithful(v: Value, rest: bytes)
    requires Emit(v).err.Ok? && Faithful(v)
    ensures ParseValue(Emit(v).out + rest) == Got(v, |Emit(v).out|)
    decreases v, 1
  {
    hide EmitItems, EmitFields, ParseValue, ParseItems, ParseFields, ItemsFaithful, FieldsFaithful, StoreU32;
    match v
    case StrictArray(items) =>
      ArrayBytes(items, StoreU32(|items| % TWO_32), EmitItems(items).out, rest);
      ParseCounted(MARKER_STRICT_ARRAY, |items|, EmitItems(items).out + rest);
      ReadsBackItems(items, rest);
    case Object(fields) =>
      ObjectBytes(fields, rest);
      ParseMarked(MARKER_OBJECT, EmitFields(fields).out + (OBJECT_END + rest));
      ReadsBackFields(fields, rest);
    case EcmaArray(hint, fields) =>
      EcmaBytes(hint, fields, rest);
      ParseCounted(MARKER_ECMA_ARRAY, hint, EmitFields(fields).out + (OBJECT_END + rest));
      ReadsBackFields(fields, rest);
    case TypedObject(cls, fields) =>
      TypedBytes(cls, fields, rest);
      ParseTyped(cls, EmitFields(fields).out + (OBJECT_END + rest));
      ReadsBackFields(fields, rest);
    case String(_) => TextRoundTrip(v, rest);
    case XmlDocument(_) => TextRoundTrip(v, rest);
    case _ => ScalarRoundTrip(v, rest);
  }

  lemma {:induction false} ReadsBackItems(items: seq<Value>, rest: bytes)
    requires EmitItems(items).err.Ok? && ItemsFaithful(items)
    ensures ParseItems(EmitItems(items).out + rest, |items|) == Got(items, |EmitItems(items).out|)
    decreases items, 0
  {
    hide Emit, ParseValue, Faithful;
    if items == [] {
    } else {
      ItemBytes(items, rest);
      var after := EmitItems(items[1..]).out + rest;
      ReadsBackFaithful(items[0], after);
      Append(Emit(items[0]).out, after);
      ReadsBackItems(items[1..], rest);
      assert items == [items[0]] + items[1..];
    }
  }

  lemma {:induction false} EmptyBody(rest: bytes)
    ensures EmitFields([]).out + (OBJECT_END + rest) == OBJECT_END + rest
    ensures ParseFields(OBJECT_END + rest) == Got([], 3)
  {
    assert LoadU16(OBJECT_END + rest) == 0;
  }

  lemma {:induction false} ReadsBackFields(fields: seq<Field>, rest: bytes)
    requires EmitFields(fields).err.Ok? && FieldsFaithful(fields)
    ensures ParseFields(EmitFields(fields).out + (OBJECT_END + rest)) == Got(fields, |EmitFields(fields).out| + 3)
    decreases fields, 0
  {
    hide Emit, ParseValue, Faithful, ParseFields, LoadU16;
    var end := OBJECT_END + rest;
    if fields == [] {
      EmptyBody(rest);
    } else {
      FieldBytes(fields, end);
      var after := EmitFields(fields[1..]).out + end;
      ReadsBackFaithful(fields[0].value, after);
      ReadsBackFields(fields[1..], rest);
      ParseFieldStep(fields[0].key, Emit(fields[0].value).out, after);
      assert fields == [Field(fields[0].key, fields[0].value)] + fields[1..];
    }
  }

  // Conversely, a tree that comes back unchanged was faithful.
  lemma {:induction false} OnlyFaithfulReadsBack(v: Value, rest: bytes)
    requires Emit(v).err.Ok?
    requires var p := ParseValue(Emit(v).out + rest); p.Got? && p.value == v
    ensures Faithful(v)
    decreases v, 1
  {
    hide EmitItems, EmitFields, ParseValue, ParseItems, ParseFields, ItemsFaithful, FieldsFaithful, StoreU32;
    match v
    case StrictArray(items) =>
      ArrayBytes(items, StoreU32(|items| % TWO_32), EmitItems(items).out, rest);
      ParseCounted(MARKER_STRICT_ARRAY, |items| % TWO_32, EmitItems(items).out + rest);
      OnlyFaithfulItemsReadBack(items, rest);
    case Object(fields) =>
      ObjectBytes(fields, rest);
      ParseMarked(MARKER_OBJECT, EmitFields(fields).out + (OBJECT_END + rest));
      OnlyFaithfulFieldsReadBack(fields, rest);
    case EcmaArray(hint, fields) =>
      EcmaBytes(hint, fields, rest);
      ParseCounted(MARKER_ECMA_ARRAY, hint, EmitFields(fields).out + (OBJECT_END + rest));
      OnlyFaithfulFieldsReadBack(fields, rest);
    case TypedObject(cls, fields) =>
      TypedBytes(cls, fields, rest);
      ParseTyped(cls, EmitFields(fields).out + (OBJECT_END + rest));
      OnlyFaithfulFieldsReadBack(fields, rest);
    case _ =>
  }

  lemma {:induction false} OnlyFaithfulItemsReadBack(items: seq<Value>, rest: bytes)
    requires EmitItems(items).err.Ok?
    requires var p := ParseItems(EmitItems(items).out + rest, |items|); p.Got? && p.value == items
    ensures ItemsFaithful(items)
    decreases items, 0
  {
    hide Emit, ParseValue, Faithful;
    if items == [] {
    } else {
      ItemBytes(items, rest);
      var after := EmitItems(items[1..]).out + rest;
      OnlyFaithfulReadsBack(items[0], after);
      ReadsBackFaithful(items[0], after);
      Append(Emit(items[0]).out, after);
      OnlyFaithfulItemsReadBack(items[1..], rest);
    }
  }

  lemma {:induction false} OnlyFaithfulFieldsReadBack(fields: seq<Field>, rest: bytes)
    requires EmitFields(fields).err.Ok?
    requires var p := ParseFields(EmitFields(fields).out + (OBJECT_END + rest)); p.Got? && p.value == fields
    ensures FieldsFaithful(fields)
    decreases fields, 0
  {
    hide Emit, ParseValue, Faithful, ParseFields, StoreU16;
    if fields == [] {
    } else {
      var end := OBJECT_END + rest;
      var value, after := fields[0].value, EmitFields(fields[1..]).out + end;
      FieldBytes(fields, end);
      NeverStartsWithObjectEnd(value);
      ParseFieldStep(fields[0].key, Emit(value).out, after);
      if fields[0].key != [] {
        OnlyFaithfulReadsBack(value, after);
        ReadsBackFaithful(value, after);
        OnlyFaithfulFieldsReadBack(fields[1..], rest);
      }
    }
  }

  // The failing family seen from the reader: the first empty key of a body is
  // taken for a terminator, and the missing end marker makes it corrupt.
  lemma {:induction false} EmptyKeyReadsAsCorrupt(good: seq<Field>, f: Field, more: seq<Field>, rest: bytes)
    requires FieldsEncodable(good + [f] + more) && FieldsFaithful(good) && f.key == []
    ensures ParseFields(EmitFields(good + [f] + more).out + rest) == Fail(CorruptData)
    decreases |good|
  {
    hide ParseValue, Emit, Encodable, Faithful, ParseFields, StoreU16;
    var fields := good + [f] + more;
    EmitFieldsFailsOnlyOnLength(fields);
    FieldBytes(fields, rest);
    var value, after := fields[0].value, EmitFields(fields[1..]).out + rest;
    NeverStartsWithObjectEnd(value);
    ParseFieldStep(fields[0].key, Emit(value).out, after);
    if good == [] {
    } else {
      assert fields[1..] == good[1..] + [f] + more;
      ReadsBackFaithful(value, after);
      EmptyKeyReadsAsCorrupt(good[1..], f, more, rest);
    }
  }

  // The round trip, exactly: of the trees the writer accepts, those that come
  // back are the ones without empty keys or arrays of 2^32 items and more.
  lemma {:induction false} RoundTripExactlyWhenFaithful(v: Value, rest: bytes)
    requires Encodable(v)
    ensures Emit(v).err.Ok?
    ensures ParseValue(Emit(v).out + rest) == Got(v, |Emit(v).out|) <==> Faithful(v)
  {
    EmitFailsOnlyOnLength(v);
    if Faithful(v) {
      ReadsBackFaithful(v, rest);
    } else if ParseValue(Emit(v).out + rest) == Got(v, |Emit(v).out|) {
      OnlyFaithfulReadsBack(v, rest);
    }
  }
}
