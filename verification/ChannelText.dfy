// The text form of a channel map: a well-known layout name, or one role a channel.

module ChannelText {
  import opened Text
  import opened ChannelRoles

  // The registered role names; a role's value is its place in the list.
  const ROLE_NAMES: seq<string> := [
    "Unused", "Mono", "FrontLeft", "FrontRight", "FrontCenter", "LFE", "BackLeft", "BackRight",
    "BackCenter", "SideLeft", "SideRight", "FrontLeftOfCenter", "FrontRightOfCenter",
    "TopFrontLeft", "TopFrontCenter", "TopFrontRight", "TopBackLeft", "TopBackCenter",
    "TopBackRight", "TopCenter", "AmbisonicW", "AmbisonicX", "AmbisonicY", "AmbisonicZ", "Aux0",
    "Aux1", "Aux2", "Aux3", "Aux4", "Aux5", "Aux6", "Aux7", "LeftTotal", "RightTotal"]

  predicate Registered(role: Role) {
    0 <= role < |ROLE_NAMES|
  }

  // The name of a role; roles outside the list have none.
  function ValueName(role: Role): string {
    if Registered(role) then ROLE_NAMES[role] else ""
  }

  function ValueFrom(i: nat, name: string): (role: int)
    requires i <= |ROLE_NAMES|
    ensures role == -1 || (i <= role < |ROLE_NAMES| && ROLE_NAMES[role] == name)
    decreases |ROLE_NAMES| - i
  {
    if i == |ROLE_NAMES| then -1 else if ROLE_NAMES[i] == name then i else ValueFrom(i + 1, name)
  }

  // ---------------------------------------------------------------------
  // Layouts
  // ---------------------------------------------------------------------

  datatype Layout = Layout(name: string, roles: seq<Role>)

  const SURROUND_71: seq<Role> := SURROUND_51 + [SIDE_LEFT, SIDE_RIGHT]

  const LAYOUTS: seq<Layout> := [
    Layout("Mono", [MONO]),
    Layout("Stereo", [FRONT_LEFT, FRONT_RIGHT]),
    Layout("2.1", [FRONT_LEFT, FRONT_RIGHT, LFE]),
    Layout("3.0", [FRONT_LEFT, FRONT_RIGHT, FRONT_CENTER]),
    Layout("Quad", [FRONT_LEFT, FRONT_RIGHT, BACK_LEFT, BACK_RIGHT]),
    Layout("4.0", [FRONT_LEFT, FRONT_RIGHT, BACK_LEFT, BACK_RIGHT]),
    Layout("5.0", [FRONT_LEFT, FRONT_RIGHT, FRONT_CENTER, BACK_LEFT, BACK_RIGHT]),
    Layout("5.1", SURROUND_51),
    Layout("6.0", [FRONT_LEFT, FRONT_RIGHT, FRONT_CENTER, SIDE_LEFT, SIDE_RIGHT, BACK_CENTER]),
    Layout("6.1", [FRONT_LEFT, FRONT_RIGHT, FRONT_CENTER, LFE, BACK_CENTER, SIDE_LEFT, SIDE_RIGHT]),
    Layout("7.0", [FRONT_LEFT, FRONT_RIGHT, FRONT_CENTER, BACK_LEFT, BACK_RIGHT, SIDE_LEFT, SIDE_RIGHT]),
    Layout("7.1", SURROUND_71),
    Layout("5.1.2", SURROUND_51 + [TOP_FRONT_LEFT, TOP_FRONT_RIGHT]),
    Layout("5.1.4", SURROUND_51 + [TOP_FRONT_LEFT, TOP_FRONT_RIGHT, TOP_BACK_LEFT, TOP_BACK_RIGHT]),
    Layout("7.1.2", SURROUND_71 + [TOP_FRONT_LEFT, TOP_FRONT_RIGHT]),
    Layout("7.1.4", SURROUND_71 + [TOP_FRONT_LEFT, TOP_FRONT_RIGHT, TOP_BACK_LEFT, TOP_BACK_RIGHT]),
    Layout("FOA", [AMBISONIC_W, AMBISONIC_W + 1, AMBISONIC_W + 2, AMBISONIC_W + 3])]

  // The first layout with these roles, or with this name; |Layouts| when none.
  function ByRoles(i: nat, roles: seq<Role>): (k: nat)
    requires i <= |LAYOUTS|
    ensures i <= k <= |LAYOUTS| && (k < |LAYOUTS| ==> LAYOUTS[k].roles == roles)
    ensures forall j :: i <= j < k ==> LAYOUTS[j].roles != roles
    decreases |LAYOUTS| - i
  {
    if i == |LAYOUTS| || LAYOUTS[i].roles == roles then i else ByRoles(i + 1, roles)
  }

  function ByName(i: nat, name: string): (k: nat)
    requires i <= |LAYOUTS|
    ensures i <= k <= |LAYOUTS| && (k < |LAYOUTS| ==> LAYOUTS[k].name == name)
    ensures forall j :: i <= j < k ==> LAYOUTS[j].name != name
    decreases |LAYOUTS| - i
  {
    if i == |LAYOUTS| || LAYOUTS[i].name == name then i else ByName(i + 1, name)
  }

  // ---------------------------------------------------------------------
  // Formatting
  // ---------------------------------------------------------------------

  predicate SingleStream(m: ChannelMap) {
    forall i :: 0 < i < |m| ==> m[i].stream == m[0].stream
  }

  function StreamPrefix(s: Stream): string {
    if s == Undefined then "" else s.name + ":"
  }

  function WellKnownName(m: ChannelMap): string {
    if m == [] || !SingleStream(m) then ""
    else
      var k := ByRoles(0, RolesOf(m));
      if k == |LAYOUTS| then "" else StreamPrefix(m[0].stream) + LAYOUTS[k].name
  }

  function EntryText(e: Entry): string {
    StreamPrefix(e.stream) + ValueName(e.role)
  }

  function EntryTexts(m: ChannelMap): (ts: seq<string>)
    ensures |ts| == |m|
    ensures forall i :: 0 <= i < |m| ==> ts[i] == EntryText(m[i])
  {
    seq(|m|, i requires 0 <= i < |m| => EntryText(m[i]))
  }

  lemma MoreTexts(m: ChannelMap)
    requires m != []
    ensures EntryTexts(m) == [EntryText(m[0])] + EntryTexts(m[1..])
  {
    hide EntryText;
  }

  function MapText(m: ChannelMap): string {
    if WellKnownName(m) != "" then WellKnownName(m) else Join(EntryTexts(m), ',')
  }

  // ---------------------------------------------------------------------
  // Parsing
  // ---------------------------------------------------------------------

  // The stream a name denotes: empty names and names holding a delimiter are
  // rejected in favour of the undefined stream.
  function StreamOf(name: string): Stream {
    if name == "" || ':' in name || ',' in name then Undefined else Named(name)
  }

  function OnStream(stream: Stream, roles: seq<Role>): (m: ChannelMap)
    ensures |m| == |roles|
    ensures forall i :: 0 <= i < |m| ==> m[i] == Entry(stream, roles[i])
  {
    seq(|roles|, i requires 0 <= i < |roles| => Entry(stream, roles[i]))
  }

  datatype Labelled = Labelled(stream: Stream, tag: string)

  // "Stream:tag" or "tag".
  function Split1(s: string): Labelled {
    var c := Find(s, ':');
    if c < |s| then Labelled(StreamOf(Trim(s[..c])), Trim(s[c + 1..])) else Labelled(Undefined, s)
  }

  datatype MapResult = Channels(channels: ChannelMap) | InvalidMap

  function ParseItem(raw: string): MapResult {
    var l := Split1(Trim(raw));
    var role := ValueFrom(0, l.tag);
    if role < 0 then InvalidMap else Channels([Entry(l.stream, role)])
  }

  function ParseItems(items: seq<string>): MapResult {
    if items == [] then Channels([])
    else
      var first := ParseItem(items[0]);
      if first.InvalidMap? then InvalidMap
      else
        var rest := ParseItems(items[1..]);
        if rest.InvalidMap? then InvalidMap else Channels(first.channels + rest.channels)
  }

  function ParseMap(text: string): MapResult {
    var s := Trim(text);
    if s == "" then Channels([])
    else
      var l := Split1(s);
      var k := ByName(0, l.tag);
      if ',' !in s && k < |LAYOUTS| then Channels(OnStream(l.stream, LAYOUTS[k].roles))
      else ParseItems(Split(s, ','))
  }
}
