// How AMF0 values sit in a byte stream: the reader never looks past the value
// it returns, every cut is reported as truncation, and whatever it accepts is
// a tree the writer can emit again.

module Amf0Framing {
  import opened Bytes
  import opened Errors
  import opened Amf0
  import opened Amf0Laws

  // The outcome on a prefix: the same, or "ran off the end", and the latter
  // only if the prefix does not hold the whole value.
  ghost predicate Cuts<T>(whole: Parsed<T>, part: Parsed<T>, k: nat) {
    && (part == whole || part == Fail(OutOfRange))
    && (whole.Got? && whole.used <= k ==> part == whole)
  }

  lemma TakeDrop<T>(s: seq<T>, k: nat, i: nat)
    requires i <= k <= |s|
    ensures s[..k][i..] == s[i..][..k - i]
    ensures s[..k][..i] == s[..i]
  {
  }

  lemma LoadPrefix(s: bytes, k: nat)
    requires k <= |s|
    ensures k >= 2 ==> LoadU16(s[..k]) == LoadU16(s)
    ensures k >= 4 ==> LoadU32(s[..k]) == LoadU32(s)
    ensures k >= 8 ==> LoadU64(s[..k]) == LoadU64(s)
  {
    if k >= 4 {
      assert s[..k][2..][0] == s[2..][0] && s[..k][2..][1] == s[2..][1];
    }
    if k >= 8 {
      TakeDrop(s, k, 4);
      LoadPrefix(s[4..], k - 4);
    }
  }

  lemma CutShortString(s: bytes, k: nat)
    requires k <= |s|
    ensures Cuts(ParseShortString(s), ParseShortString(s[..k]), k)
  {
    hide LoadU16;
    LoadPrefix(s, k);
    if k >= 2 {
      TakeDrop(s, k, 2);
      if k - 2 >= LoadU16(s) {
        TakeDrop(s[2..], k - 2, LoadU16(s));
      }
    }
  }

  lemma CutLongString(s: bytes, k: nat)
    requires k <= |s|
    ensures Cuts(ParseLongString(s), ParseLongString(s[..k]), k)
  {
    hide LoadU32;
    LoadPrefix(s, k);
    if k >= 4 {
      TakeDrop(s, k, 4);
      if k - 4 >= LoadU32(s) {
        TakeDrop(s[4..], k - 4, LoadU32(s));
      }
    }
  }

  lemma {:induction false} CutValue(s: bytes, k: nat)
    requires k <= |s|
    ensures Cuts(ParseValue(s), ParseValue(s[..k]), k)
    decreases |s|, 0
  {
    hide ParsePayload;
    if k > 0 {
      TakeDrop(s, k, 1);
      CutPayload(s[0], s[1..], k - 1);
    }
  }

  lemma {:induction false} CutPayload(marker: byte, t: bytes, k: nat)
    requires k <= |t|
    ensures Cuts(ParsePayload(marker, t), ParsePayload(marker, t[..k]), k)
    decreases |t|, 2
  {
    hide LoadU16, LoadU32, LoadU64, ParseShortString, ParseLongString, ParseItems, ParseFields;
    LoadPrefix(t, k);
    match marker
    case 0x02 => CutShortString(t, k);
    case 0x0C => CutLongString(t, k);
    case 0x0F => CutLongString(t, k);
    case 0x0B =>
      if k >= 10 {
        TakeDrop(t, k, 8);
        LoadPrefix(t[8..], k - 8);
      }
    case 0x0A =>
      if k >= 4 {
        TakeDrop(t, k, 4);
        CutItems(t[4..], LoadU32(t), k - 4);
      }
    case 0x03 => CutFields(t, k);
    case 0x08 =>
      if k >= 4 {
        TakeDrop(t, k, 4);
        CutFields(t[4..], k - 4);
      }
    case 0x10 => CutTyped(t, k);
    case _ =>
  }

  lemma {:induction false} CutTyped(t: bytes, k: nat)
    requires k <= |t|
    ensures Cuts(ParsePayload(MARKER_TYPED_OBJECT, t), ParsePayload(MARKER_TYPED_OBJECT, t[..k]), k)
    decreases |t|, 1, 1
  {
    hide ParseShortString, ParseFields;
    CutShortString(t, k);
    var cls := ParseShortString(t);
    if cls.Got? && cls.used <= k {
      TakeDrop(t, k, cls.used);
      CutFields(t[cls.used..], k - cls.used);
    }
  }

  lemma {:induction false} CutItems(s: bytes, count: nat, k: nat)
    requires k <= |s|
    ensures Cuts(ParseItems(s, count), ParseItems(s[..k], count), k)
    decreases |s|, 1, count
  {
    hide ParseValue;
    if count == 0 {
    } else {
      CutValue(s, k);
      var head := ParseValue(s);
      if head.Got? && head.used <= k {
        TakeDrop(s, k, head.used);
        CutItems(s[head.used..], count - 1, k - head.used);
      }
    }
  }

  lemma {:induction false} CutFields(s: bytes, k: nat)
    requires k <= |s|
    ensures Cuts(ParseFields(s), ParseFields(s[..k]), k)
    decreases |s|, 1
  {
    hide ParseAfterKey, LoadU16;
    LoadPrefix(s, k);
    if k >= 2 {
      var n, t := LoadU16(s), s[2..];
      TakeDrop(s, k, 2);
      if 0 < n <= k - 2 {
        TakeDrop(t, k - 2, n);
        CutAfterKey(t[..n], t[n..], k - 2 - n);
      }
    }
  }

  lemma {:induction false} CutAfterKey(key: bytes, s: bytes, k: nat)
    requires k <= |s|
    ensures Cuts(ParseAfterKey(key, s), ParseAfterKey(key, s[..k]), k)
    decreases |s|, 2
  {
    hide ParseValue, ParseFields;
    CutValue(s, k);
    var head := ParseValue(s);
    if head.Got? && head.used <= k {
      TakeDrop(s, k, head.used);
      CutFields(s[head.used..], k - head.used);
    }
  }

  // The reader's answer depends on no byte after the value it returned.
  lemma {:induction false} ReadsNoFurther(s: bytes, more: bytes)
    requires ParseValue(s).Got?
    ensures ParseValue(s + more) == ParseValue(s)
    ensures ParseValue(s[..ParseValue(s).used]) == ParseValue(s)
  {
    assert (s + more)[..|s|] == s;
    CutValue(s + more, |s|);
    CutValue(s, ParseValue(s).used);
  }

  // Any cut through a value, of any bytes at all, reads as truncated.
  lemma {:induction false} EveryCutIsOutOfRange(s: bytes, k: nat)
    requires ParseValue(s).Got? && k < ParseValue(s).used
    ensures ParseValue(s[..k]) == Fail(OutOfRange)
  {
    CutValue(s, k);
  }

  // Two encodings can only be prefixes of one another if they are equal.
  lemma {:induction false} EncodingsArePrefixFree(v: Value, w: Value, rest: bytes)
    requires Encodable(v) && Faithful(v) && Encodable(w) && Faithful(w)
    requires Emit(w).out == Emit(v).out + rest
    ensures v == w && rest == []
  {
    RoundTripExactlyWhenFaithful(v, rest);
    RoundTripExactlyWhenFaithful(w, []);
    assert Emit(w).out + [] == Emit(w).out;
  }

  // ---------------------------------------------------------------------
  // Decoding, then encoding
  // ---------------------------------------------------------------------

  // Whatever the reader accepts, the writer can emit in no more bytes, and
  // reading that gives the same tree.
  lemma {:induction false} AcceptedIsFaithful(s: bytes)
    requires ParseValue(s).Got?
    ensures var p := ParseValue(s);
            Encodable(p.value) && Faithful(p.value) && |Emit(p.value).out| <= p.used
    decreases |s|, 0
  {
    hide ParsePayload;
    AcceptedPayload(s[0], s[1..]);
  }

  lemma {:induction false} AcceptedPayload(marker: byte, t: bytes)
    requires ParsePayload(marker, t).Got?
    ensures var p := ParsePayload(marker, t);
            Encodable(p.value) && Faithful(p.value) && |Emit(p.value).out| <= 1 + p.used
    decreases |t|, 2
  {
    hide ParseItems, ParseFields, LoadU16, LoadU32, LoadU64, StoreU16, StoreU32, StoreU64,
      EmitItems, EmitFields, ItemsEncodable, ItemsFaithful, FieldsEncodable, FieldsFaithful;
    match marker
    case 0x0A =>
      AcceptedItems(t[4..], LoadU32(t));
    case 0x03 =>
      AcceptedFields(t);
    case 0x08 =>
      AcceptedFields(t[4..]);
    case 0x10 =>
      AcceptedFields(t[ParseShortString(t).used..]);
    case _ =>
  }

  lemma {:induction false} AcceptedItems(s: bytes, count: nat)
    requires ParseItems(s, count).Got?
    ensures var p := ParseItems(s, count);
            ItemsEncodable(p.value) && ItemsFaithful(p.value) && |EmitItems(p.value).out| <= p.used
    decreases |s|, 1, count
  {
    hide ParseValue, Emit, Encodable, Faithful;
    if count == 0 {
    } else {
      var head := ParseValue(s);
      var tail := ParseItems(s[head.used..], count - 1);
      AcceptedIsFaithful(s);
      AcceptedItems(s[head.used..], count - 1);
      assert ([head.value] + tail.value)[1..] == tail.value;
    }
  }

  lemma {:induction false} AcceptedFields(s: bytes)
    requires ParseFields(s).Got?
    ensures var p := ParseFields(s);
            FieldsEncodable(p.value) && FieldsFaithful(p.value) && |EmitFields(p.value).out| + 3 <= p.used
    decreases |s|, 1
  {
    hide ParseValue, Emit, Encodable, Faithful, LoadU16, StoreU16;
    if LoadU16(s) > 0 {
      var u := s[2..][LoadU16(s)..];
      var head := ParseValue(u);
      var tail := ParseFields(u[head.used..]);
      AcceptedIsFaithful(u);
      AcceptedFields(u[head.used..]);
      assert ParseFields(s).value[1..] == tail.value;
    }
  }

  lemma {:induction false} DecodeEncodeDecode(s: bytes)
    requires ParseValue(s).Got?
    ensures var p := ParseValue(s);
            && Emit(p.value).err.Ok?
            && |Emit(p.value).out| <= p.used
            && ParseValue(Emit(p.value).out) == Got(p.value, |Emit(p.value).out|)
  {
    AcceptedIsFaithful(s);
    var v := ParseValue(s).value;
    RoundTripExactlyWhenFaithful(v, []);
    assert Emit(v).out + [] == Emit(v).out;
  }

  // ---------------------------------------------------------------------
  // Whole messages
  // ---------------------------------------------------------------------

  // A message of encodings cut anywhere: every value that is still whole comes
  // back, and the error tells whether the cut fell between two values.
  lemma {:induction false} ReadCutMessage(vs: seq<Value>, k: nat) returns (n: nat)
    requires ItemsEncodable(vs) && ItemsFaithful(vs) && k <= |EmitItems(vs).out|
    ensures n <= |vs| && |EmitItems(vs[..n]).out| <= k
    ensures n < |vs| ==> k < |EmitItems(vs[..n + 1]).out|
    ensures ReadAll(EmitItems(vs).out[..k]) ==
            ReadResult(vs[..n], if |EmitItems(vs[..n]).out| == k then Ok else OutOfRange)
  {
    var s := EmitItems(vs).out;
    if vs == [] {
      n := 0;
      assert s[..k] == [] && vs[..0] == [];
    } else {
      var head, tail := Emit(vs[0]).out, EmitItems(vs[1..]).out;
      EmitItemsFailsOnlyOnLength(vs);
      ItemBytes(vs, []);
      ReadsBackFaithful(vs[0], tail);
      NeverStartsWithObjectEnd(vs[0]);
      FirstItems(vs, 1);
      CutValue(s, k);
      if k < |head| {
        n := 0;
        assert vs[..0] == [];
      } else {
        TakeDrop(s, k, |head|);
        Append(head, tail);
        var m := ReadCutMessage(vs[1..], k - |head|);
        n := m + 1;
        FirstItems(vs, m + 1);
        if m + 2 <= |vs| { FirstItems(vs, m + 2); }
      }
    }
  }

  lemma {:induction false} FirstItems(vs: seq<Value>, n: nat)
    requires 0 < n <= |vs| && EmitItems(vs).err.Ok?
    ensures vs[..n] == [vs[0]] + vs[1..][..n - 1]
    ensures EmitItems(vs[..n]).out == Emit(vs[0]).out + EmitItems(vs[1..][..n - 1]).out
  {
    hide Emit;
    assert vs[..n][1..] == vs[1..][..n - 1];
    assert vs[..n][0] == vs[0];
  }

  // The uncut message gives back the whole list.
  lemma {:induction false} ReadWholeMessage(vs: seq<Value>)
    requires ItemsEncodable(vs) && ItemsFaithful(vs)
    ensures ReadAll(EmitItems(vs).out) == ReadResult(vs, Ok)
  {
    var s := EmitItems(vs).out;
    var n := ReadCutMessage(vs, |s|);
    assert s[..|s|] == s;
    if n == |vs| {
      assert vs[..n] == vs;
    } else {
      EmitItemsFailsOnlyOnLength(vs);
      ItemsPrefixLength(vs, n + 1);
    }
  }

  lemma {:induction false} ItemsPrefixLength(vs: seq<Value>, n: nat)
    requires n <= |vs| && EmitItems(vs).err.Ok?
    ensures |EmitItems(vs[..n]).out| <= |EmitItems(vs).out|
  {
    hide Emit;
    if n == 0 {
      assert vs[..0] == [];
    } else {
      FirstItems(vs, n);
      ItemBytes(vs, []);
      ItemsPrefixLength(vs[1..], n - 1);
    }
  }
}
