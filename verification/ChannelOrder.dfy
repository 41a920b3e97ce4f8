// SMPTE ST 2110-30 channel orders: a channel map as a list of grouping symbols.

module ChannelOrder {
  import opened Bytes
  import opened Text
  import opened ChannelRoles

  // ---------------------------------------------------------------------
  // Grouping
  // ---------------------------------------------------------------------

  const ROLES_71: seq<Role> :=
    [FRONT_LEFT, FRONT_RIGHT, FRONT_CENTER, LFE, SIDE_LEFT, SIDE_RIGHT, BACK_LEFT, BACK_RIGHT]

  // A grouping symbol: one of the fixed sequences, or n unlabelled channels.
  datatype Group = Group71 | Group51 | LtRt | ST | M | U(n: nat)

  function Expand(g: Group): seq<Role> {
    match g
    case Group71 => ROLES_71
    case Group51 => SURROUND_51
    case LtRt => [LEFT_TOTAL, RIGHT_TOTAL]
    case ST => [FRONT_LEFT, FRONT_RIGHT]
    case M => [MONO]
    case U(n) => Blanks(n)
  }

  function Blanks(n: nat): (r: seq<Role>)
    ensures |r| == n
    ensures forall i :: 0 <= i < n ==> r[i] == UNUSED
  {
    if n == 0 then [] else [UNUSED] + Blanks(n - 1)
  }

  // The longest fixed sequence the roles begin with, or U(0).
  function MatchOf(r: seq<Role>): (g: Group)
    ensures g == U(0) || (!g.U? && Expand(g) != [] && Expand(g) <= r)
  {
    if ROLES_71 <= r then Group71
    else if SURROUND_51 <= r then Group51
    else if [LEFT_TOTAL, RIGHT_TOTAL] <= r then LtRt
    else if [FRONT_LEFT, FRONT_RIGHT] <= r then ST
    else if [MONO] <= r then M
    else U(0)
  }

  // How many channels, up to the cap, come before the next match.
  function RunOf(r: seq<Role>, cap: nat): (n: nat)
    ensures n <= cap && n <= |r|
    ensures cap > 0 && r != [] && MatchOf(r) == U(0) ==> n > 0
  {
    if r == [] || cap == 0 || MatchOf(r) != U(0) then 0 else 1 + RunOf(r[1..], cap - 1)
  }

  function NextGroup(r: seq<Role>): (g: Group)
    requires r != []
    ensures 1 <= |Expand(g)| <= |r|
    ensures g.U? ==> 1 <= g.n <= 64
  {
    if MatchOf(r) != U(0) then MatchOf(r) else U(RunOf(r, 64))
  }

  function Groups(r: seq<Role>): seq<Group>
    decreases |r|
  {
    if r == [] then [] else [NextGroup(r)] + Groups(r[|Expand(NextGroup(r))|..])
  }

  function ExpandAll(gs: seq<Group>): seq<Role> {
    if gs == [] then [] else Expand(gs[0]) + ExpandAll(gs[1..])
  }

  // ---------------------------------------------------------------------
  // Formatting
  // ---------------------------------------------------------------------

  function Digit(n: nat): char
    requires n < 10
  {
    '0' + n as char
  }

  function Symbol(g: Group): string {
    match g
    case Group71 => "71"
    case Group51 => "51"
    case LtRt => "LtRt"
    case ST => "ST"
    case M => "M"
    case U(n) => ['U', Digit(n / 10 % 10), Digit(n % 10)]
  }

  predicate Sized(gs: seq<Group>) {
    forall i :: 0 <= i < |gs| ==> gs[i].U? ==> 1 <= gs[i].n <= 64
  }

  function Symbols(gs: seq<Group>): (ss: seq<string>)
    ensures |ss| == |gs|
    ensures forall i :: 0 <= i < |gs| ==> ss[i] == Symbol(gs[i])
  {
    if gs == [] then [] else [Symbol(gs[0])] + Symbols(gs[1..])
  }

  lemma {:induction false} GroupsAreSized(r: seq<Role>)
    ensures Sized(Groups(r))
    decreases |r|
  {
    if r == [] {
    } else {
      GroupsAreSized(r[|Expand(NextGroup(r))|..]);
    }
  }

  function OrderText(m: ChannelMap): string {
    if m == [] then "" else "(" + Join(Symbols(Groups(RolesOf(m))), ',') + ")"
  }

  // The text so far, group by group, as the formatter accumulates it.
  function Listed(out: string, gs: seq<Group>, first: bool): string
    decreases |gs|
  {
    if gs == [] then out
    else Listed((if first then out else out + ",") + Symbol(gs[0]), gs[1..], false)
  }

  lemma {:induction false} ListedIsJoin(out: string, gs: seq<Group>, first: bool)
    ensures Listed(out, gs, first)
            == if gs == [] then out
               else out + ((if first then "" else ",") + Join(Symbols(gs), ','))
    decreases |gs|
  {
    if gs == [] {
    } else {
      hide Symbol, Join;
      var p, sep, rest := Symbol(gs[0]), if first then "" else ",", Symbols(gs[1..]);
      ListedIsJoin((if first then out else out + ",") + p, gs[1..], false);
      assert Symbols(gs) == [p] + rest;
      JoinMore(p, rest, ',');
      assert out + "" == out;
      ListMore(out, sep, p, "," + Join(rest, ','));
    }
  }

  method MatchesGrouping(r: seq<Role>, offset: nat, roles: seq<Role>) returns (ok: bool)
    requires offset <= |r|
    ensures ok == (roles <= r[offset..])
  {
    if offset + |roles| > |r| { return false; }
    var i := 0;
    while i < |roles|
      invariant 0 <= i <= |roles|
      invariant roles[..i] == r[offset..][..i]
    {
      if r[offset + i] != roles[i] {
        assert r[offset..][i] != roles[i];
        return false;
      }
      i := i + 1;
    }
    return true;
  }

  const DETECTION: seq<Group> := [Group71, Group51, LtRt, ST, M]

  method Detect(r: seq<Role>, offset: nat) returns (g: Group)
    requires offset <= |r|
    ensures g == MatchOf(r[offset..])
  {
    var i := 0;
    while i < |DETECTION|
      invariant 0 <= i <= |DETECTION|
      invariant forall k :: 0 <= k < i ==> !(Expand(DETECTION[k]) <= r[offset..])
    {
      var ok := MatchesGrouping(r, offset, Expand(DETECTION[i]));
      if ok {
        Found(r[offset..], i);
        return DETECTION[i];
      }
      i := i + 1;
    }
    NotFound(r[offset..]);
    return U(0);
  }

  lemma Found(s: seq<Role>, i: nat)
    requires i < |DETECTION| && Expand(DETECTION[i]) <= s
    requires forall k :: 0 <= k < i ==> !(Expand(DETECTION[k]) <= s)
    ensures MatchOf(s) == DETECTION[i]
  {
    assert i > 0 ==> !(Expand(DETECTION[0]) <= s);
    assert i > 1 ==> !(Expand(DETECTION[1]) <= s);
    assert i > 2 ==> !(Expand(DETECTION[2]) <= s);
    assert i > 3 ==> !(Expand(DETECTION[3]) <= s);
  }

  lemma NotFound(s: seq<Role>)
    requires forall k :: 0 <= k < |DETECTION| ==> !(Expand(DETECTION[k]) <= s)
    ensures MatchOf(s) == U(0)
  {
    assert !(Expand(DETECTION[0]) <= s) && !(Expand(DETECTION[1]) <= s) && !(Expand(DETECTION[2]) <= s);
    assert !(Expand(DETECTION[3]) <= s) && !(Expand(DETECTION[4]) <= s);
  }

  method UnlabelledRun(r: seq<Role>, start: nat) returns (pos: nat)
    requires start < |r| && MatchOf(r[start..]) == U(0)
    ensures pos == start + RunOf(r[start..], 64) && pos <= |r|
  {
    hide MatchOf, RunOf;
    pos := start;
    var g := U(0);
    while pos < |r| && pos - start < 64 && g == U(0)
      invariant start <= pos <= |r| && pos - start <= 64
      invariant pos < |r| ==> g == MatchOf(r[pos..])
      invariant RunOf(r[start..], 64) == pos - start + RunOf(r[pos..], 64 - (pos - start))
    {
      RunStep(r, pos, 64 - (pos - start));
      pos := pos + 1;
      if pos < |r| { g := Detect(r, pos); }
    }
    RunStops(r[pos..], 64 - (pos - start));
  }

  // The group at pos, and where the next one starts.
  method TakeGroup(r: seq<Role>, pos: nat) returns (g: Group, end: nat)
    requires pos < |r|
    ensures pos < end <= |r| && Groups(r[pos..]) == [g] + Groups(r[end..])
  {
    hide MatchOf, RunOf, Expand, Groups;
    g := Detect(r, pos);
    ghost var rest := r[pos..];
    if g == U(0) {
      end := UnlabelledRun(r, pos);
      g := U(end - pos);
      BlanksLength(g);
    } else {
      end := pos + |Expand(g)|;
    }
    NextIs(rest, g);
    assert rest[|Expand(g)|..] == r[end..];
  }

  method ToChannelOrder(m: ChannelMap) returns (out: string)
    ensures out == OrderText(m)
  {
    if m == [] {
      assert OrderText(m) == "";
      return "";
    }
    hide *;
    var r := RolesOf(m);
    assert OrderText(m) == "(" + Join(Symbols(Groups(r)), ',') + ")" by { OrderTextIs(m); }
    var pos, first := 0, true;
    out := "(";
    assert r[0..] == r;
    while pos < |r|
      invariant 0 <= pos <= |r|
      invariant Listed("(", Groups(r), true) == Listed(out, Groups(r[pos..]), first)
    {
      var g, end := TakeGroup(r, pos);
      ListedStep(out, g, Groups(r[end..]), first);
      if !first { out := out + ","; }
      out := out + Symbol(g);
      first := false;
      pos := end;
    }
    AllListed(r);
    out := out + ")";
  }

  lemma BlanksLength(g: Group)
    ensures g.U? ==> |Expand(g)| == g.n
  {
  }

  lemma {:induction false} ListedStep(out: string, g: Group, gs: seq<Group>, first: bool)
    ensures Listed(out, [g] + gs, first) == Listed((if first then out else out + ",") + Symbol(g), gs, false)
  {
    assert ([g] + gs)[1..] == gs;
  }

  lemma {:induction false} SomeGroup(r: seq<Role>)
    requires r != []
    ensures Groups(r) != []
  {
  }

  lemma {:induction false} AllListed(r: seq<Role>)
    requires r != []
    ensures Listed("(", Groups(r), true) == "(" + Join(Symbols(Groups(r)), ',')
  {
    hide Symbol, Groups, Listed, Join, Symbols;
    ListedIsJoin("(", Groups(r), true);
    SomeGroup(r);
    var j := Join(Symbols(Groups(r)), ',');
    assert "" + j == j;
  }

  lemma OrderTextIs(m: ChannelMap)
    requires m != []
    ensures OrderText(m) == "(" + Join(Symbols(Groups(RolesOf(m))), ',') + ")"
  {
  }

  lemma {:induction false} RunStep(r: seq<Role>, pos: nat, cap: nat)
    requires pos < |r| && cap > 0 && MatchOf(r[pos..]) == U(0)
    ensures RunOf(r[pos..], cap) == 1 + RunOf(r[pos + 1..], cap - 1)
  {
    assert r[pos..][1..] == r[pos + 1..];
  }

  lemma {:induction false} RunStops(r: seq<Role>, cap: nat)
    requires r == [] || cap == 0 || MatchOf(r) != U(0)
    ensures RunOf(r, cap) == 0
  {
  }

  lemma {:induction false} NextIs(rest: seq<Role>, g: Group)
    requires rest != []
    requires g == if MatchOf(rest) != U(0) then MatchOf(rest) else U(RunOf(rest, 64))
    ensures 1 <= |Expand(g)| <= |rest|
    ensures Groups(rest) == [g] + Groups(rest[|Expand(g)|..])
  {
    hide RunOf, MatchOf, Expand;
    assert g == NextGroup(rest);
  }

  // ---------------------------------------------------------------------
  // Parsing
  // ---------------------------------------------------------------------

  datatype Tokens = Roles(roles: seq<Role>) | Refused

  predicate IsDigit(c: char) {
    '0' <= c <= '9'
  }

  function DigitValue(c: char): nat
    requires IsDigit(c)
  {
    (c - '0') as nat
  }

  // The library's lenient integer parse of a two-character text: a sign, white
  // space or digit separator may stand in for the first digit, and a separator
  // for the second. -1 when it is no number.
  function TwoCharNumber(a: char, b: char): int {
    if IsDigit(a) && IsDigit(b) then 10 * DigitValue(a) + DigitValue(b)
    else if IsDigit(b) && (IsSpace(a) || a == '+' || a == '\'' || a == '_') then DigitValue(b)
    else if IsDigit(a) && (b == '\'' || b == '_') then DigitValue(a)
    else -1
  }

  function TokenRoles(t: string): Tokens {
    if t == "M" then Roles([MONO])
    else if t == "DM" then Roles([MONO, MONO])
    else if t == "ST" then Roles([FRONT_LEFT, FRONT_RIGHT])
    else if t == "LtRt" then Roles([LEFT_TOTAL, RIGHT_TOTAL])
    else if t == "51" then Roles(SURROUND_51)
    else if t == "71" then Roles(ROLES_71)
    else if t == "SGRP" then Roles(Blanks(4))
    else if t == "222" then Roles(Blanks(24))
    else if |t| == 3 && t[0] == 'U' then
      var n := TwoCharNumber(t[1], t[2]);
      if 1 <= n <= 64 then Roles(Blanks(n)) else Refused
    else Refused
  }

  function Before(roles: seq<Role>, rest: Tokens): Tokens {
    if rest.Roles? then Roles(roles + rest.roles) else Refused
  }

  function TokensRoles(ts: seq<string>): Tokens {
    if ts == [] then Roles([])
    else
      var t := TokenRoles(Trim(ts[0]));
      if t.Refused? then Refused else Before(t.roles, TokensRoles(ts[1..]))
  }

  function WithoutConvention(s: string): string {
    if "SMPTE2110." <= s then Trim(s[10..])
    else if "SMPTE2110" <= s then Trim(s[9..])
    else s
  }

  predicate StrayComma(s: string)
    requires s != ""
  {
    s[0] == ',' || s[|s| - 1] == ','
    || exists i :: 0 <= i < |s| - 1 && s[i] == ',' && s[i + 1] == ','
  }

  datatype OrderResult = Order(channels: ChannelMap) | InvalidOrder

  function ParseOrder(value: string): OrderResult {
    var s := WithoutConvention(Trim(value));
    if |s| < 2 || s[0] != '(' || s[|s| - 1] != ')' then InvalidOrder
    else ParseBody(Trim(s[1..|s| - 1]))
  }

  function ParseBody(body: string): OrderResult {
    if body == "" then Order([])
    else if StrayComma(body) then InvalidOrder
    else
      var t := TokensRoles(Split(body, ','));
      if t.Roles? then Order(Anonymous(t.roles)) else InvalidOrder
  }

  method FromChannelOrder(value: string) returns (r: OrderResult)
    ensures r == ParseOrder(value)
  {
    var s := WithoutConvention(Trim(value));
    if |s| < 2 || s[0] != '(' || s[|s| - 1] != ')' { return InvalidOrder; }
    var body := Trim(s[1..|s| - 1]);
    if body == "" { return Order([]); }
    if StrayComma(body) { return InvalidOrder; }
    r := ReadTokens(Split(body, ','));
  }

  method ReadTokens(tokens: seq<string>) returns (r: OrderResult)
    ensures r == (var t := TokensRoles(tokens);
                  if t.Roles? then Order(Anonymous(t.roles)) else InvalidOrder)
  {
    hide TokenRoles, Trim, Anonymous;
    var channels: ChannelMap := [];
    ghost var roles: seq<Role> := [];
    var k := 0;
    BeforeNothing(TokensRoles(tokens));
    assert tokens[0..] == tokens;
    while k < |tokens|
      invariant 0 <= k <= |tokens|
      invariant channels == Anonymous(roles)
      invariant TokensRoles(tokens) == Before(roles, TokensRoles(tokens[k..]))
    {
      var t := TokenRoles(Trim(tokens[k]));
      if t.Refused? { return InvalidOrder; }
      assert tokens[k..][1..] == tokens[k + 1..];
      BeforeBoth(roles, t.roles, TokensRoles(tokens[k + 1..]));
      var more := Expanded(t.roles);
      channels := channels + more;
      roles := roles + t.roles;
      k := k + 1;
    }
    assert tokens[k..] == [] && roles + [] == roles;
    r := Order(channels);
  }

  // The per-token loop: one entry per role, on no stream.
  method Expanded(roles: seq<Role>) returns (m: ChannelMap)
    ensures m == Anonymous(roles)
  {
    m := [];
    var i := 0;
    while i < |roles|
      invariant 0 <= i <= |roles| && |m| == i
      invariant forall k :: 0 <= k < i ==> m[k] == Entry(Undefined, roles[k])
    {
      m := m + [Entry(Undefined, roles[i])];
      i := i + 1;
    }
  }

  lemma BeforeNothing(t: Tokens)
    ensures Before([], t) == t && Anonymous([]) == []
  {
    if t.Roles? { assert [] + t.roles == t.roles; }
  }

  lemma BeforeBoth(a: seq<Role>, b: seq<Role>, t: Tokens)
    ensures Before(a, Before(b, t)) == Before(a + b, t)
  {
    if t.Roles? { Assoc(a, b, t.roles); }
  }
}
