// Channel roles and streams: what an audio channel map says of each channel.

module ChannelRoles {
  // Roles are the library's own numbers; only the ones below are registered.
  type Role = x: int | -0x8000_0000 <= x < 0x8000_0000

  const UNUSED: Role := 0
  const MONO: Role := 1
  const FRONT_LEFT: Role := 2
  const FRONT_RIGHT: Role := 3
  const FRONT_CENTER: Role := 4
  const LFE: Role := 5
  const BACK_LEFT: Role := 6
  const BACK_RIGHT: Role := 7
  const BACK_CENTER: Role := 8
  const SIDE_LEFT: Role := 9
  const SIDE_RIGHT: Role := 10
  const TOP_FRONT_LEFT: Role := 13
  const TOP_FRONT_RIGHT: Role := 15
  const TOP_BACK_LEFT: Role := 16
  const TOP_BACK_RIGHT: Role := 18
  const AMBISONIC_W: Role := 20
  const LEFT_TOTAL: Role := 32
  const RIGHT_TOTAL: Role := 33

  const SURROUND_51: seq<Role> := [FRONT_LEFT, FRONT_RIGHT, FRONT_CENTER, LFE, BACK_LEFT, BACK_RIGHT]

  // Stream names are registered only when non-empty and free of the delimiters.
  type StreamName = s: string | s != "" && ':' !in s && ',' !in s witness "Main"

  datatype Stream = Undefined | Named(name: StreamName)

  datatype Entry = Entry(stream: Stream, role: Role)

  type ChannelMap = seq<Entry>

  function RolesOf(m: ChannelMap): (r: seq<Role>)
    ensures |r| == |m|
    ensures forall i :: 0 <= i < |m| ==> r[i] == m[i].role
  {
    seq(|m|, i requires 0 <= i < |m| => m[i].role)
  }

  // A map with these roles and no stream identity.
  function Anonymous(roles: seq<Role>): (m: ChannelMap)
    ensures |m| == |roles|
    ensures forall i :: 0 <= i < |m| ==> m[i] == Entry(Undefined, roles[i])
  {
    seq(|roles|, i requires 0 <= i < |roles| => Entry(Undefined, roles[i]))
  }

  lemma AnonymousRoles(m: ChannelMap)
    ensures Anonymous(RolesOf(m)) == m <==> forall e <- m :: e.stream == Undefined
  {
    if forall e <- m :: e.stream == Undefined {
      forall i | 0 <= i < |m| ensures Anonymous(RolesOf(m))[i] == m[i] {
        assert m[i] in m;
      }
    }
  }
}
