// Formatting, parsing and streaming a channel map, entry by entry.

module ChannelMapCodec {
  import opened Bytes
  import opened Text
  import opened ChannelRoles
  import opened ChannelText

  // ---------------------------------------------------------------------
  // Text
  // ---------------------------------------------------------------------

  method IsSingleStream(m: ChannelMap) returns (single: bool)
    ensures single == SingleStream(m)
  {
    if m == [] { return true; }
    var i := 1;
    while i < |m|
      invariant 1 <= i <= |m|
      invariant forall k :: 0 < k < i ==> m[k].stream == m[0].stream
    {
      if m[i].stream != m[0].stream { return false; }
      i := i + 1;
    }
    return true;
  }

  method FindLayoutByRoles(roles: seq<Role>) returns (k: nat)
    ensures k == ByRoles(0, roles)
  {
    k := 0;
    while k < |LAYOUTS|
      invariant 0 <= k <= |LAYOUTS|
      invariant ByRoles(0, roles) == ByRoles(k, roles)
    {
      if LAYOUTS[k].roles == roles { return; }
      k := k + 1;
    }
  }

  method FindLayoutByName(name: string) returns (k: nat)
    ensures k == ByName(0, name)
  {
    k := 0;
    while k < |LAYOUTS|
      invariant 0 <= k <= |LAYOUTS|
      invariant ByName(0, name) == ByName(k, name)
    {
      if LAYOUTS[k].name == name { return; }
      k := k + 1;
    }
  }

  method FindWellKnownName(m: ChannelMap) returns (name: string)
    ensures name == WellKnownName(m)
  {
    hide ByRoles;
    var single := IsSingleStream(m);
    if m == [] || !single { return ""; }
    var k := FindLayoutByRoles(RolesOf(m));
    if k >= |LAYOUTS| { return ""; }
    name := StreamPrefix(m[0].stream) + LAYOUTS[k].name;
  }

  // The text the per-channel loop has built when `m` is still to come.
  function Commaed(out: string, m: ChannelMap, first: bool): string
    decreases |m|
  {
    if m == [] then out
    else Commaed((if first then out else out + ",") + EntryText(m[0]), m[1..], false)
  }

  lemma {:induction false} CommaedIsJoin(out: string, m: ChannelMap, first: bool)
    ensures Commaed(out, m, first)
            == if m == [] then out
               else out + ((if first then "" else ",") + Join(EntryTexts(m), ','))
    decreases |m|
  {
    if m == [] {
    } else {
      hide EntryText, EntryTexts, Join;
      var p, sep, rest := EntryText(m[0]), if first then "" else ",", EntryTexts(m[1..]);
      CommaedIsJoin((if first then out else out + ",") + p, m[1..], false);
      MoreTexts(m);
      JoinMore(p, rest, ',');
      assert out + "" == out;
      ListMore(out, sep, p, "," + Join(rest, ','));
    }
  }

  method ToText(m: ChannelMap) returns (out: string)
    ensures out == MapText(m)
  {
    hide WellKnownName, EntryText, Join, EntryTexts;
    var name := FindWellKnownName(m);
    if name != "" { return name; }
    out := "";
    var i := 0;
    assert m[0..] == m;
    while i < |m|
      invariant 0 <= i <= |m|
      invariant Commaed("", m, true) == Commaed(out, m[i..], i == 0)
    {
      assert m[i..][1..] == m[i + 1..];
      if i > 0 { out := out + ","; }
      out := out + EntryText(m[i]);
      i := i + 1;
    }
    assert m[i..] == [];
    CommaedIsJoin("", m, true);
    NoTexts();
    assert "" + Join(EntryTexts(m), ',') == Join(EntryTexts(m), ',');
  }

  lemma NoTexts()
    ensures Join(EntryTexts([]), ',') == ""
  {
  }

  method FromText(text: string) returns (r: MapResult)
    ensures r == ParseMap(text)
  {
    hide Split1, Trim, ParseItems, ByName, Split;
    var s := Trim(text);
    if s == "" { return Channels([]); }
    if ',' !in s {
      var l := Split1(s);
      var k := FindLayoutByName(l.tag);
      if k < |LAYOUTS| {
        return Channels(OnStream(l.stream, LAYOUTS[k].roles));
      }
    }
    r := ReadItems(Split(s, ','));
  }

  method ReadItems(items: seq<string>) returns (r: MapResult)
    ensures r == ParseItems(items)
  {
    hide ParseItem;
    var channels: ChannelMap := [];
    var k := 0;
    assert items[0..] == items;
    while k < |items|
      invariant 0 <= k <= |items|
      invariant ParseItems(items) == Joined(channels, ParseItems(items[k..]))
    {
      var e := ParseItem(items[k]);
      if e.InvalidMap? { return InvalidMap; }
      assert items[k..][1..] == items[k + 1..];
      JoinedTwice(channels, e.channels, ParseItems(items[k + 1..]));
      channels := channels + e.channels;
      k := k + 1;
    }
    assert items[k..] == [] && channels + [] == channels;
    r := Channels(channels);
  }

  function Joined(m: ChannelMap, r: MapResult): MapResult {
    if r.InvalidMap? then r else Channels(m + r.channels)
  }

  lemma JoinedTwice(a: ChannelMap, b: ChannelMap, r: MapResult)
    ensures r.Channels? ==> Joined(a, Channels(b + r.channels)) == Joined(a + b, r)
    ensures Joined([], r) == r
  {
    if r.Channels? {
      Assoc(a, b, r.channels);
      assert [] + r.channels == r.channels;
    }
  }

  // ---------------------------------------------------------------------
  // The binary form, as the typed words the data stream frames
  // ---------------------------------------------------------------------

  datatype Word = U32(count: u32) | Str(text: string) | I32(value: Role)

  function StreamText(s: Stream): string {
    if s == Undefined then "Undefined" else s.name
  }

  function EntryWords(m: ChannelMap): seq<Word> {
    if m == [] then [] else [Str(StreamText(m[0].stream)), I32(m[0].role)] + EntryWords(m[1..])
  }

  // The channel count is narrowed to 32 bits.
  function MapWords(m: ChannelMap): seq<Word> {
    [U32(|m| % TWO_32)] + EntryWords(m)
  }

  method WriteToStream(m: ChannelMap, out0: seq<Word>) returns (out: seq<Word>)
    ensures out == out0 + MapWords(m)
  {
    out := out0 + [U32(|m| % TWO_32)];
    var i := 0;
    assert m[0..] == m;
    while i < |m|
      invariant 0 <= i <= |m|
      invariant out + EntryWords(m[i..]) == out0 + MapWords(m)
    {
      assert m[i..][1..] == m[i + 1..];
      Assoc(out, [Str(StreamText(m[i].stream)), I32(m[i].role)], EntryWords(m[i + 1..]));
      out := out + [Str(StreamText(m[i].stream)), I32(m[i].role)];
      i := i + 1;
    }
    assert m[i..] == [] && out + [] == out;
  }

  // A stream name read back: the empty name and "Undefined" mean no stream.
  function StreamRead(name: string): Stream {
    if name == "" || name == "Undefined" then Undefined else StreamOf(name)
  }

  datatype WordsResult = Read(channels: ChannelMap, rest: seq<Word>) | ReadError

  function ReadEntries(n: nat, ws: seq<Word>): WordsResult {
    if n == 0 then Read([], ws)
    else if |ws| < 2 || !ws[0].Str? || !ws[1].I32? then ReadError
    else
      var r := ReadEntries(n - 1, ws[2..]);
      if r.ReadError? then ReadError
      else Read([Entry(StreamRead(ws[0].text), ws[1].value)] + r.channels, r.rest)
  }

  function ReadMap(ws: seq<Word>): WordsResult {
    if ws == [] || !ws[0].U32? then ReadError else ReadEntries(ws[0].count, ws[1..])
  }

  // The reader keeps looping after a failed word; the failure decides the result.
  method ReadFromStream(ws: seq<Word>) returns (r: WordsResult)
    ensures r == ReadMap(ws)
  {
    if ws == [] || !ws[0].U32? { return ReadError; }
    var n := ws[0].count;
    var rest, ok, m := ws[1..], true, [];
    var i := 0;
    while i < n
      invariant 0 <= i <= n
      invariant ok ==> ReadMap(ws) == ReadAfter(m, ReadEntries(n - i, rest))
      invariant !ok ==> ReadMap(ws) == ReadError
    {
      var name, role := "", 0;
      if ok && rest != [] && rest[0].Str? {
        name := rest[0].text;
        if |rest| > 1 && rest[1].I32? {
          role := rest[1].value;
          AfterOne(m, Entry(StreamRead(name), role), ReadEntries(n - i - 1, rest[2..]));
          rest := rest[2..];
        } else {
          ok := false;
        }
      } else {
        ok := false;
      }
      m := m + [Entry(StreamRead(name), role)];
      i := i + 1;
    }
    if !ok { return ReadError; }
    assert m + [] == m;
    return Read(m, rest);
  }

  function ReadAfter(m: ChannelMap, r: WordsResult): WordsResult {
    if r.ReadError? then r else Read(m + r.channels, r.rest)
  }

  lemma AfterOne(m: ChannelMap, e: Entry, r: WordsResult)
    ensures r.Read? ==> ReadAfter(m, Read([e] + r.channels, r.rest)) == ReadAfter(m + [e], r)
    ensures ReadAfter([], r) == r
  {
    if r.Read? {
      Assoc(m, [e], r.channels);
      assert [] + r.channels == r.channels;
    }
  }

  predicate NoneNamedUndefined(m: ChannelMap) {
    forall i :: 0 <= i < |m| ==> m[i].stream != Named("Undefined")
  }

  // What entry by entry reading makes of a written map.
  function Reread(m: ChannelMap): (r: ChannelMap)
    ensures |r| == |m|
    ensures forall i :: 0 <= i < |m| ==> r[i] == Entry(StreamRead(StreamText(m[i].stream)), m[i].role)
  {
    if m == [] then []
    else [Entry(StreamRead(StreamText(m[0].stream)), m[0].role)] + Reread(m[1..])
  }

  lemma {:induction false} EntriesReadBack(m: ChannelMap, k: nat, rest: seq<Word>)
    requires k <= |m|
    ensures var r := ReadEntries(k, EntryWords(m) + rest);
            r.Read? && r.channels == Reread(m[..k])
            && (k == |m| ==> r.rest == rest)
  {
    hide StreamRead, StreamText;
    if k == 0 {
      assert m[..0] == [];
      if m == [] { assert EntryWords(m) + rest == rest; }
    } else {
      var two := [Str(StreamText(m[0].stream)), I32(m[0].role)];
      Assoc(two, EntryWords(m[1..]), rest);
      assert (two + (EntryWords(m[1..]) + rest))[2..] == EntryWords(m[1..]) + rest;
      EntriesReadBack(m[1..], k - 1, rest);
      assert m[..k][1..] == m[1..][..k - 1];
    }
  }

  lemma StreamReadsBack(s: Stream)
    ensures StreamRead(StreamText(s)) == s <==> s != Named("Undefined")
  {
  }

  // A map, followed by anything, is read back from the stream exactly when its
  // channel count fits 32 bits and no stream is itself named "Undefined".
  lemma StreamRoundTripExactly(m: ChannelMap, rest: seq<Word>)
    ensures ReadMap(MapWords(m) + rest) == Read(m, rest) <==> |m| < TWO_32 && NoneNamedUndefined(m)
  {
    hide StreamRead, StreamText;
    var k := |m| % TWO_32;
    EntriesReadBack(m, k, rest);
    assert (MapWords(m) + rest)[1..] == EntryWords(m) + rest;
    forall i | 0 <= i < |m|
      ensures StreamRead(StreamText(m[i].stream)) == m[i].stream <==> m[i].stream != Named("Undefined")
    {
      StreamReadsBack(m[i].stream);
    }
    assert |m| < TWO_32 ==> m[..k] == m;
    var back := Reread(m[..k]);
    if |m| < TWO_32 && NoneNamedUndefined(m) {
      assert back == m;
    } else if |m| < TWO_32 {
      var i :| 0 <= i < |m| && m[i].stream == Named("Undefined");
      assert back[i] != m[i];
    } else {
      assert |back| < |m|;
    }
  }
}
