// Exactly which channel maps come back from their own text.

module ChannelTextLaws {
  import opened Text
  import opened ChannelRoles
  import opened ChannelText
  import opened ChannelTables

  // A channel the text form can carry: a registered role, and a stream whose name
  // has no white space at either end.
  predicate Sayable(e: Entry) {
    Registered(e.role) && (e.stream.Named? ==> Trimmed(e.stream.name))
  }

  predicate AllSayable(m: ChannelMap) {
    forall i :: 0 <= i < |m| ==> Sayable(m[i])
  }

  // ---------------------------------------------------------------------
  // One entry
  // ---------------------------------------------------------------------

  lemma StreamReads(s: Stream)
    requires s.Named? ==> Trimmed(s.name)
    ensures s.Named? ==> StreamOf(Trim(s.name)) == s
  {
    if s.Named? { TrimKeeps(s.name); }
  }

  // "Stream:tag", or the bare tag of the undefined stream, splits where it was
  // joined.
  lemma PrefixSplits(s: Stream, tag: string)
    requires Clean(tag) && (s.Named? ==> Trimmed(s.name))
    ensures var t := StreamPrefix(s) + tag;
            t != "" && Trimmed(t) && Without(t, ',') && Split1(t) == Labelled(s, tag)
  {
    hide Find, Trim;
    var t := StreamPrefix(s) + tag;
    TrimKeeps(tag);
    if s.Named? {
      assert t == s.name + ([':'] + tag);
      FindSeparator(s.name, ':', tag);
      StreamReads(s);
    } else {
      assert t == tag;
      FindNone(tag, ':');
    }
  }

  lemma EntryReads(e: Entry)
    requires Sayable(e)
    ensures var t := EntryText(e);
            t != "" && Trimmed(t) && Without(t, ',') && ParseItem(t) == Channels([e])
    ensures Split1(EntryText(e)).tag == ROLE_NAMES[e.role]
  {
    hide Split1, Trim, StreamPrefix, Clean, Trimmed;
    RoleNamesAreClean(e.role);
    PrefixSplits(e.stream, ROLE_NAMES[e.role]);
    TrimKeeps(EntryText(e));
    RoleReads(0, e.role);
  }

  lemma {:induction false} EntriesRead(m: ChannelMap)
    requires AllSayable(m)
    ensures ParseItems(EntryTexts(m)) == Channels(m)
    ensures Pieces(EntryTexts(m), ',')
  {
    hide ParseItem, EntryText, Sayable;
    if m == [] {
    } else {
      EntryReads(m[0]);
      EntriesRead(m[1..]);
      assert EntryTexts(m)[1..] == EntryTexts(m[1..]);
      assert m == [m[0]] + m[1..];
    }
  }

  // ---------------------------------------------------------------------
  // Reading a map back
  // ---------------------------------------------------------------------

  lemma WellKnownReads(m: ChannelMap)
    requires AllSayable(m) && WellKnownName(m) != ""
    ensures ParseMap(WellKnownName(m)) == Channels(m)
  {
    hide Split1, Trim, StreamPrefix, Clean, ByRoles, ByName;
    var k := ByRoles(0, RolesOf(m));
    LayoutNamesAreClean(k);
    assert Sayable(m[0]);
    PrefixSplits(m[0].stream, LAYOUTS[k].name);
    TrimKeeps(WellKnownName(m));
    LayoutReads(0, k);
    assert OnStream(m[0].stream, RolesOf(m)) == m;
  }

  lemma {:induction false} NoLayoutFrom(i: nat, r: Role)
    requires i <= |LAYOUTS| && Registered(r) && r != MONO
    ensures ByName(i, ROLE_NAMES[r]) == |LAYOUTS|
    decreases |LAYOUTS| - i
  {
    if i == |LAYOUTS| {
    } else {
      RolesAreNoLayouts(r, i);
      NoLayoutFrom(i + 1, r);
    }
  }

  // A single channel whose role doubles as a layout name is that layout.
  lemma SingleIsWellKnown(m: ChannelMap)
    requires |m| == 1 && m[0].role == MONO
    ensures WellKnownName(m) != ""
  {
    assert RolesOf(m) == LAYOUTS[0].roles;
    LayoutNamesAreClean(0);
  }

  lemma ListReads(m: ChannelMap)
    requires AllSayable(m) && m != [] && WellKnownName(m) == ""
    ensures ParseMap(Join(EntryTexts(m), ',')) == Channels(m)
  {
    hide Split1, EntryText, ParseItems, WellKnownName, Sayable, Join, Split, Trim;
    var ts := EntryTexts(m);
    var s := Join(ts, ',');
    EntriesRead(m);
    JoinEnds(ts, ',');
    SplitJoin(ts, ',');
    var n := |m| - 1;
    EntryReads(m[0]);
    EntryReads(m[n]);
    TrimKeeps(s);
    if n == 0 {
      JoinOne(ts);
      if m[0].role == MONO { SingleIsWellKnown(m); }
      NoLayoutFrom(0, m[0].role);
    } else {
      JoinManyHasSeparator(ts);
    }
  }

  lemma {:induction false} JoinOne(ts: seq<string>)
    requires |ts| == 1
    ensures Join(ts, ',') == ts[0]
  {
  }

  lemma {:induction false} JoinManyHasSeparator(ts: seq<string>)
    requires |ts| > 1
    ensures ',' in Join(ts, ',')
  {
    assert Join(ts, ',')[|ts[0]|] == ',';
  }

  // ---------------------------------------------------------------------
  // What a parse returns
  // ---------------------------------------------------------------------

  lemma Split1IsTrimmed(s: string)
    ensures Split1(s).stream.Named? ==> Trimmed(Split1(s).stream.name)
  {
    hide Trim, Trimmed, Find;
    var c := Find(s, ':');
    TrimIsTrimmed(s[..c]);
  }

  lemma {:induction false} ItemsAreSayable(items: seq<string>)
    requires ParseItems(items).Channels?
    ensures AllSayable(ParseItems(items).channels)
  {
    if items == [] {
    } else {
      hide Split1, Trim, Trimmed, ParseItems, ValueFrom;
      ItemsStep(items);
      ItemsAreSayable(items[1..]);
      ItemIsSayable(items[0]);
    }
  }

  lemma {:induction false} ItemsStep(items: seq<string>)
    requires items != [] && ParseItems(items).Channels?
    ensures ParseItem(items[0]).Channels? && ParseItems(items[1..]).Channels?
    ensures ParseItems(items).channels == ParseItem(items[0]).channels + ParseItems(items[1..]).channels
  {
    hide ParseItem;
  }

  lemma ItemIsSayable(item: string)
    requires ParseItem(item).Channels?
    ensures AllSayable(ParseItem(item).channels)
  {
    hide Split1, Trim, Trimmed;
    Split1IsTrimmed(Trim(item));
  }

  lemma ParsedIsSayable(text: string)
    requires ParseMap(text).Channels?
    ensures AllSayable(ParseMap(text).channels)
  {
    hide Split1, Trim, Trimmed, ParseItems, ByName, Split, Registered;
    var s := Trim(text);
    if s != "" {
      var l := Split1(s);
      var k := ByName(0, l.tag);
      if ',' !in s && k < |LAYOUTS| {
        Split1IsTrimmed(s);
        forall i | 0 <= i < |LAYOUTS[k].roles| ensures Registered(LAYOUTS[k].roles[i]) {
          LayoutRolesAreRegistered(k, i);
        }
      } else {
        ItemsAreSayable(Split(s, ','));
      }
    }
  }

  // A map comes back from its own text exactly when every role is registered and
  // no stream name begins or ends with white space.
  lemma RoundTripExactlyWhenSayable(m: ChannelMap)
    ensures ParseMap(MapText(m)) == Channels(m) <==> AllSayable(m)
  {
    hide ParseMap, WellKnownName, AllSayable, EntryTexts, Join;
    if ParseMap(MapText(m)) == Channels(m) {
      ParsedIsSayable(MapText(m));
    }
    if AllSayable(m) {
      if m == [] {
        EmptyMapReads();
      } else if WellKnownName(m) != "" {
        WellKnownReads(m);
      } else {
        ListReads(m);
      }
    }
  }

  lemma EmptyMapReads()
    ensures MapText([]) == "" && ParseMap("") == Channels([])
  {
  }

  // Whatever text a map was parsed from, formatting it and parsing again gives the
  // same map.
  lemma ParsedMapsRoundTrip(text: string)
    requires ParseMap(text).Channels?
    ensures ParseMap(MapText(ParseMap(text).channels)) == ParseMap(text)
  {
    hide ParseMap, MapText, AllSayable;
    ParsedIsSayable(text);
    RoundTripExactlyWhenSayable(ParseMap(text).channels);
  }
}
