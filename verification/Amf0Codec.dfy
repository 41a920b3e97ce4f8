// The AMF0 writer and reader as the library runs them: a writer that appends
// to its buffer step by step, and a reader that moves an offset through a byte
// range. Both are proved against the grammar in Amf0.

module Amf0Codec {
  import opened Bytes
  import opened Errors
  import opened Amf0

  class Writer {
    var out: bytes
    var bytesWritten: nat

    constructor (initial: bytes)
      ensures out == initial && bytesWritten == 0
    {
      out, bytesWritten := initial, 0;
    }

    // This call appended exactly the bytes of `e` and returned its error.
    twostate predicate Appended(e: Emission, err: Error)
      reads this
    {
      out == old(out) + e.out && bytesWritten == old(bytesWritten) + |e.out| && err == e.err
    }

    method AppendBytes(s: bytes)
      modifies this
      ensures Appended(Put(s), Ok)
    {
      out := out + s;
      bytesWritten := bytesWritten + |s|;
    }

    method AppendShortString(s: bytes) returns (err: Error)
      modifies this
      ensures Appended(EmitShortString(s), err)
    {
      if |s| > 0xFFFF { return OutOfRange; }
      AppendBytes(StoreU16(|s|));
      AppendBytes(s);
      return Ok;
    }

    method AppendLongString(s: bytes) returns (err: Error)
      modifies this
      ensures Appended(EmitLongString(s), err)
    {
      if |s| > 0xFFFF_FFFF { return OutOfRange; }
      AppendBytes(StoreU32(|s|));
      AppendBytes(s);
      return Ok;
    }

    method WriteString(s: bytes) returns (err: Error)
      modifies this
      ensures Appended(Emit(String(s)), err)
    {
      hide EmitShortString, EmitLongString;
      if |s| <= 0xFFFF {
        AppendBytes([MARKER_STRING]);
        err := AppendShortString(s);
      } else {
        AppendBytes([MARKER_LONG_STRING]);
        err := AppendLongString(s);
      }
    }

    method WriteStrictArray(items: seq<Value>) returns (err: Error)
      modifies this
      ensures Appended(Emit(StrictArray(items)), err)
      decreases items, 0
    {
      hide Emit, EmitItems, StoreU32;
      var head := [MARKER_STRICT_ARRAY] + StoreU32(|items| % TWO_32);
      EmitArray(items);
      AppendBytes(head);
      ghost var done: bytes := head;
      assert items[0..] == items;
      for i := 0 to |items|
        invariant out == old(out) + done && bytesWritten == old(bytesWritten) + |done|
        invariant Emit(StrictArray(items)) == Put(done).Then(EmitItems(items[i..]))
      {
        ItemsFrom(items, i);
        ThenStep(done, Emit(items[i]), EmitItems(items[i + 1..]));
        Assoc(old(out), done, Emit(items[i]).out);
        err := WriteValue(items[i]);
        if !err.Ok? { return; }
        done := done + Emit(items[i]).out;
      }
      NothingLeft(items, []);
      err := Ok;
    }

    // The field loop shared by the three object forms.
    method WriteFields(fields: seq<Field>) returns (err: Error)
      modifies this
      ensures Appended(EmitFields(fields), err)
      decreases fields, 0
    {
      hide Emit, EmitFields, EmitShortString;
      ghost var done: bytes := [];
      ThenStep([], EmitFields(fields), Put([]));
      assert fields[0..] == fields;
      for i := 0 to |fields|
        invariant out == old(out) + done && bytesWritten == old(bytesWritten) + |done|
        invariant EmitFields(fields) == Put(done).Then(EmitFields(fields[i..]))
      {
        FieldsFrom(fields, i);
        var key, value, rest := EmitShortString(fields[i].key), Emit(fields[i].value), EmitFields(fields[i + 1..]);
        ThenStep(done, key, value.Then(rest));
        Assoc(old(out), done, key.out);
        err := AppendShortString(fields[i].key);
        if !err.Ok? { return; }
        done := done + key.out;
        ThenStep(done, value, rest);
        Assoc(old(out), done, value.out);
        err := WriteValue(fields[i].value);
        if !err.Ok? { return; }
        done := done + value.out;
      }
      NothingLeft([], fields);
      err := Ok;
    }

    method WriteObject(fields: seq<Field>) returns (err: Error)
      modifies this
      ensures Appended(Emit(Object(fields)), err)
      decreases fields, 1
    {
      hide EmitFields;
      AppendBytes([MARKER_OBJECT]);
      err := WriteFields(fields);
      if err.Ok? { AppendBytes(OBJECT_END); }
    }

    method WriteEcmaArray(fields: seq<Field>, countHint: u32) returns (err: Error)
      modifies this
      ensures Appended(Emit(EcmaArray(countHint, fields)), err)
      decreases fields, 1
    {
      hide EmitFields, StoreU32;
      AppendBytes([MARKER_ECMA_ARRAY]);
      AppendBytes(StoreU32(countHint));
      err := WriteFields(fields);
      if err.Ok? { AppendBytes(OBJECT_END); }
    }

    method WriteTypedObject(className: bytes, fields: seq<Field>) returns (err: Error)
      modifies this
      ensures Appended(Emit(TypedObject(className, fields)), err)
      decreases fields, 1
    {
      hide EmitFields, StoreU16;
      if |className| > 0xFFFF { return OutOfRange; }
      AppendBytes([MARKER_TYPED_OBJECT]);
      err := AppendShortString(className);
      if !err.Ok? { return; }
      err := WriteFields(fields);
      if err.Ok? { AppendBytes(OBJECT_END); }
    }

    method WriteValue(v: Value) returns (err: Error)
      modifies this
      ensures Appended(Emit(v), err)
      decreases v, 1
    {
      hide EmitItems, EmitFields, EmitShortString, EmitLongString, StoreU16, StoreU32, StoreU64;
      match v
      case Null => AppendBytes([MARKER_NULL]); err := Ok;
      case Undefined => AppendBytes([MARKER_UNDEFINED]); err := Ok;
      case Unsupported => AppendBytes([MARKER_UNSUPPORTED]); err := Ok;
      case Boolean(b) => AppendBytes([MARKER_BOOLEAN, if b then 1 else 0]); err := Ok;
      case Number(bits) => AppendBytes([MARKER_NUMBER] + StoreU64(bits)); err := Ok;
      case Date(ms, tz) => AppendBytes([MARKER_DATE] + StoreU64(ms) + StoreU16(tz)); err := Ok;
      case Reference(i) => AppendBytes([MARKER_REFERENCE] + StoreU16(i)); err := Ok;
      case String(s) => err := WriteString(s);
      case XmlDocument(s) =>
        AppendBytes([MARKER_XML_DOCUMENT]);
        err := AppendLongString(s);
      case StrictArray(items) => err := WriteStrictArray(items);
      case Object(fields) => err := WriteObject(fields);
      case EcmaArray(hint, fields) => err := WriteEcmaArray(fields, hint);
      case TypedObject(cls, fields) => err := WriteTypedObject(cls, fields);
    }

    lemma {:induction false} EmitArray(items: seq<Value>)
      ensures Emit(StrictArray(items)) ==
              Put([MARKER_STRICT_ARRAY] + StoreU32(|items| % TWO_32)).Then(EmitItems(items))
    {
      hide EmitItems, StoreU32;
    }

    lemma ItemsFrom(items: seq<Value>, i: nat)
      requires i < |items|
      ensures EmitItems(items[i..]) == Emit(items[i]).Then(EmitItems(items[i + 1..]))
    {
      hide Emit;
      assert items[i..][0] == items[i] && items[i..][1..] == items[i + 1..];
    }

    lemma FieldsFrom(fields: seq<Field>, i: nat)
      requires i < |fields|
      ensures EmitFields(fields[i..]) ==
              EmitShortString(fields[i].key).Then(Emit(fields[i].value).Then(EmitFields(fields[i + 1..])))
    {
      hide Emit, EmitShortString;
      assert fields[i..][0] == fields[i] && fields[i..][1..] == fields[i + 1..];
      Assoc(EmitShortString(fields[i].key).out, Emit(fields[i].value).out, EmitFields(fields[i + 1..]).out);
    }

    lemma NothingLeft(items: seq<Value>, fields: seq<Field>)
      ensures EmitItems(items[|items|..]) == EmitFields(fields[|fields|..]) == Put([])
    {
    }

    // Appending one more element after what a loop has done so far.
    lemma ThenStep(done: bytes, a: Emission, rest: Emission)
      ensures Put(done).Then(a.Then(rest)) ==
              if a.err.Ok? then Put(done + a.out).Then(rest) else Emission(done + a.out, a.err)
      ensures Put([]).Then(a) == a
    {
      Assoc(done, a.out, rest.out);
    }
  }

  // ---------------------------------------------------------------------
  // Reading
  // ---------------------------------------------------------------------

  // The grammar at an offset of a byte range; past the end there is nothing.
  function ParseAt(data: bytes, offset: nat): Parsed<Value> {
    if offset > |data| then Fail(OutOfRange) else ParseValue(data[offset..])
  }

  // What a reader call that reached `next` with (err, out) says about `p`.
  ghost predicate Returned<T>(p: Parsed<T>, offset: nat, err: Error, out: T, next: nat) {
    match p
    case Got(v, used) => err == Ok && out == v && next == offset + used
    case Fail(e) => err == e && err != Ok
  }

  // Continuing a repetition that already holds `done` after `n` bytes.
  function Resume<T>(done: seq<T>, n: nat, p: Parsed<seq<T>>): Parsed<seq<T>> {
    match p
    case Got(vs, used) => Got(done + vs, n + used)
    case Fail(e) => Fail(e)
  }

  lemma ResumeStep<T>(done: seq<T>, n: nat, x: T, m: nat, p: Parsed<seq<T>>)
    ensures Resume([], 0, p) == p
    ensures Resume(done, n, Resume([x], m, p)) == Resume(done + [x], n + m, p)
  {
    if p.Got? {
      assert [] + p.value == p.value;
      Assoc(done, [x], p.value);
    }
  }

  // One round of the item loop, and of the object-body loop, at an offset.

  lemma {:induction false} ItemsAt(data: bytes, offset: nat, count: nat)
    requires offset <= |data| && count > 0
    ensures var head, p := ParseValue(data[offset..]), ParseItems(data[offset..], count);
            if head.Fail? then p == Fail(head.err)
            else p == Resume([head.value], head.used, ParseItems(data[offset + head.used..], count - 1))
  {
    hide ParseValue;
    var head := ParseValue(data[offset..]);
    if head.Got? { DropDrop(data, offset, head.used); }
  }

  lemma FieldsAt(data: bytes, offset: nat, keyLen: nat)
    requires offset + 2 <= |data| && keyLen == LoadU16(data[offset..]) > 0
    ensures var p := ParseFields(data[offset..]);
            if offset + 2 + keyLen > |data| then p == Fail(OutOfRange)
            else
              var after := offset + 2 + keyLen;
              var key, head := data[offset + 2..after], ParseValue(data[after..]);
              if head.Fail? then p == Fail(head.err)
              else p == Resume([Field(key, head.value)], 2 + keyLen + head.used, ParseFields(data[after + head.used..]))
  {
    hide ParseValue, LoadU16;
    DropDrop(data, offset, 2);
    if offset + 2 + keyLen <= |data| {
      var after := offset + 2 + keyLen;
      DropDrop(data, offset + 2, keyLen);
      assert data[offset + 2..][..keyLen] == data[offset + 2..after];
      var head := ParseValue(data[after..]);
      if head.Got? { DropDrop(data, after, head.used); }
    }
  }

  lemma DropDrop(s: bytes, i: nat, j: nat)
    requires i + j <= |s|
    ensures s[i..][j..] == s[i + j..]
  {
  }

  method ReadShortString(data: bytes, offset: nat) returns (err: Error, out: bytes, next: nat)
    requires offset <= |data|
    ensures Returned(ParseShortString(data[offset..]), offset, err, out, next)
  {
    out, next := [], offset;
    if offset + 2 > |data| { return OutOfRange, out, next; }
    var len := LoadU16(data[offset..]);
    next := offset + 2;
    DropDrop(data, offset, 2);
    if next + len > |data| { return OutOfRange, out, next; }
    out := data[next..next + len];
    assert out == data[next..][..len];
    next := next + len;
    err := Ok;
  }

  method ReadLongString(data: bytes, offset: nat) returns (err: Error, out: bytes, next: nat)
    requires offset <= |data|
    ensures Returned(ParseLongString(data[offset..]), offset, err, out, next)
  {
    out, next := [], offset;
    if offset + 4 > |data| { return OutOfRange, out, next; }
    var len := LoadU32(data[offset..]);
    next := offset + 4;
    DropDrop(data, offset, 4);
    if next + len > |data| { return OutOfRange, out, next; }
    out := data[next..next + len];
    assert out == data[next..][..len];
    next := next + len;
    err := Ok;
  }

  method ReadObjectBody(data: bytes, offset: nat) returns (err: Error, fields: seq<Field>, next: nat)
    requires offset <= |data|
    ensures Returned(ParseFields(data[offset..]), offset, err, fields, next)
    decreases |data| - offset, 1
  {
    hide ParseValue, ParseFields, LoadU16;
    fields, next := [], offset;
    ResumeStep([], 0, Field([], Null), 0, ParseFields(data[offset..]));
    while true
      invariant offset <= next <= |data|
      invariant ParseFields(data[offset..]) == Resume(fields, next - offset, ParseFields(data[next..]))
      decreases |data| - next
    {
      ShortBody(data[next..]);
      assert fields + [] == fields;
      if next + 2 > |data| { return OutOfRange, fields, next; }
      var keyLen := LoadU16(data[next..]);
      if keyLen == 0 {
        if next + 3 > |data| { return OutOfRange, fields, next; }
        if data[next + 2] != MARKER_OBJECT_END { return CorruptData, fields, next; }
        return Ok, fields, next + 3;
      }
      FieldsAt(data, next, keyLen);
      if next + 2 + keyLen > |data| { return OutOfRange, fields, next; }
      var key := data[next + 2..next + 2 + keyLen];
      var e, v, n := ReadValue(data, next + 2 + keyLen);
      if e != Ok { return e, fields, n; }
      ResumeStep(fields, next - offset, Field(key, v), n - next, ParseFields(data[n..]));
      fields, next := fields + [Field(key, v)], n;
    }
  }

  lemma {:induction false} ShortBody(s: bytes)
    ensures |s| < 2 ==> ParseFields(s) == Fail(OutOfRange)
    ensures |s| >= 2 && LoadU16(s) == 0 ==>
            ParseFields(s) == if |s| < 3 then Fail(OutOfRange)
                              else if s[2] != MARKER_OBJECT_END then Fail(CorruptData) else Got([], 3)
  {
    hide ParseAfterKey, LoadU16;
  }

  method ReadItems(data: bytes, offset: nat, count: nat) returns (err: Error, items: seq<Value>, next: nat)
    requires offset <= |data|
    ensures Returned(ParseItems(data[offset..], count), offset, err, items, next)
    decreases |data| - offset, 1
  {
    hide ParseValue, ParseItems;
    items, next := [], offset;
    ResumeStep([], 0, Null, 0, ParseItems(data[offset..], count));
    for i := 0 to count
      invariant offset <= next <= |data|
      invariant ParseItems(data[offset..], count) ==
                Resume(items, next - offset, ParseItems(data[next..], count - i))
    {
      ItemsAt(data, next, count - i);
      var e, v, n := ReadValue(data, next);
      if e != Ok { return e, items, n; }
      ResumeStep(items, next - offset, v, n - next, ParseItems(data[n..], count - i - 1));
      items, next := items + [v], n;
    }
    NoItems(data[next..]);
    assert items + [] == items;
    err := Ok;
  }

  lemma {:induction false} NoItems(s: bytes)
    ensures ParseItems(s, 0) == Got([], 0)
  {
  }

  method ReadValue(data: bytes, offset: nat) returns (err: Error, out: Value, next: nat)
    ensures Returned(ParseAt(data, offset), offset, err, out, next)
    ensures err == Ok ==> offset < next <= |data|
    decreases |data| - offset, 0
  {
    if offset >= |data| { return OutOfRange, Null, offset; }
    err, out, next := ReadPayload(data, data[offset], offset + 1);
    DropDrop(data, offset, 1);
  }

  method ReadPayload(data: bytes, marker: byte, offset: nat) returns (err: Error, out: Value, next: nat)
    requires offset <= |data|
    ensures Returned(ParsePayload(marker, data[offset..]), offset, err, out, next)
    decreases |data| - offset, 2
  {
    hide LoadU16, LoadU32, LoadU64, ParseShortString, ParseLongString, ParseItems, ParseFields;
    out, next, err := Null, offset, Ok;
    var len := |data|;
    match marker
    case 0x00 =>
      if offset + 8 > len { return OutOfRange, out, next; }
      out, next := Number(LoadU64(data[offset..])), offset + 8;
    case 0x01 =>
      if offset + 1 > len { return OutOfRange, out, next; }
      out, next := Boolean(data[offset] != 0), offset + 1;
    case 0x02 =>
      var s;
      err, s, next := ReadShortString(data, offset);
      if err == Ok { out := String(s); }
    case 0x0C =>
      var s;
      err, s, next := ReadLongString(data, offset);
      if err == Ok { out := String(s); }
    case 0x05 => out := Null;
    case 0x06 => out := Undefined;
    case 0x0D => out := Unsupported;
    case 0x07 =>
      if offset + 2 > len { return OutOfRange, out, next; }
      out, next := Reference(LoadU16(data[offset..])), offset + 2;
    case 0x0B =>
      if offset + 10 > len { return OutOfRange, out, next; }
      DropDrop(data, offset, 8);
      out, next := Date(LoadU64(data[offset..]), LoadU16(data[offset + 8..])), offset + 10;
    case 0x0A =>
      if offset + 4 > len { return OutOfRange, out, next; }
      var items;
      err, items, next := ReadItems(data, offset + 4, LoadU32(data[offset..]));
      DropDrop(data, offset, 4);
      if err == Ok { out := StrictArray(items); }
    case 0x03 =>
      var fields;
      err, fields, next := ReadObjectBody(data, offset);
      if err == Ok { out := Object(fields); }
    case 0x08 =>
      if offset + 4 > len { return OutOfRange, out, next; }
      var fields;
      err, fields, next := ReadObjectBody(data, offset + 4);
      DropDrop(data, offset, 4);
      if err == Ok { out := EcmaArray(LoadU32(data[offset..]), fields); }
    case 0x10 =>
      var cls, fields;
      err, cls, next := ReadShortString(data, offset);
      if err != Ok { return; }
      DropDrop(data, offset, next - offset);
      err, fields, next := ReadObjectBody(data, next);
      if err == Ok { out := TypedObject(cls, fields); }
    case 0x0F =>
      var s;
      err, s, next := ReadLongString(data, offset);
      if err == Ok { out := XmlDocument(s); }
    case 0x11 => err := NotSupported;
    case _ => err := CorruptData;
  }

  method Read(data: bytes) returns (r: ReadResult)
    ensures r == ReadAll(data)
  {
    hide ParseValue;
    var values: seq<Value>, offset := [], 0;
    while offset < |data|
      invariant offset <= |data|
      invariant ReadAll(data) ==
                ReadResult(values + ReadAll(data[offset..]).values, ReadAll(data[offset..]).err)
    {
      var err, v, next := ReadValue(data, offset);
      if err != Ok { return ReadResult(values, err); }
      DropDrop(data, offset, next - offset);
      values, offset := values + [v], next;
    }
    assert data[offset..] == [];
    return ReadResult(values, Ok);
  }
}
