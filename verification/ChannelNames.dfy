// The registered names in plain figures: which text each role number and each
// layout is written as and read from, and what the ST 2110-30 symbols stand for.

module ChannelNames {
  import opened Bytes
  import opened Text
  import opened ChannelRoles
  import opened ChannelText
  import opened ChannelTables
  import opened ChannelTextLaws
  import opened ChannelOrder
  import opened ChannelOrderLaws
  import opened ChannelMapCodec

  // ---------------------------------------------------------------------
  // White space
  // ---------------------------------------------------------------------

  predicate OnlySpaces(s: string) {
    forall c <- s :: c in {' ', '\t', '\n', '\r', '\U{000B}', '\U{000C}'}
  }

  // Trimming takes the six ASCII space characters from both ends, and no others.
  lemma TrimTakesSpaces(a: string, s: string, b: string)
    requires OnlySpaces(a) && OnlySpaces(b) && s != ""
    requires !OnlySpaces([s[0]]) && !OnlySpaces([s[|s| - 1]])
    ensures Trim(a + s + b) == s
  {
    hide Trim;
    assert forall c <- a :: IsSpace(c);
    assert forall c <- b :: IsSpace(c);
    assert s[0] in [s[0]] && s[|s| - 1] in [s[|s| - 1]];
    TrimPadded(a, s, b);
  }

  // ---------------------------------------------------------------------
  // Single roles
  // ---------------------------------------------------------------------

  // The registry, number by number.
  function RoleName(r: nat): string
    requires r < 34
  {
    match r
    case 0 => "Unused"
    case 1 => "Mono"
    case 2 => "FrontLeft"
    case 3 => "FrontRight"
    case 4 => "FrontCenter"
    case 5 => "LFE"
    case 6 => "BackLeft"
    case 7 => "BackRight"
    case 8 => "BackCenter"
    case 9 => "SideLeft"
    case 10 => "SideRight"
    case 11 => "FrontLeftOfCenter"
    case 12 => "FrontRightOfCenter"
    case 13 => "TopFrontLeft"
    case 14 => "TopFrontCenter"
    case 15 => "TopFrontRight"
    case 16 => "TopBackLeft"
    case 17 => "TopBackCenter"
    case 18 => "TopBackRight"
    case 19 => "TopCenter"
    case 20 => "AmbisonicW"
    case 21 => "AmbisonicX"
    case 22 => "AmbisonicY"
    case 23 => "AmbisonicZ"
    case 24 => "Aux0"
    case 25 => "Aux1"
    case 26 => "Aux2"
    case 27 => "Aux3"
    case 28 => "Aux4"
    case 29 => "Aux5"
    case 30 => "Aux6"
    case 31 => "Aux7"
    case 32 => "LeftTotal"
    case 33 => "RightTotal"
  }

  function Prefix(stream: Stream): string {
    if stream.Named? then stream.name + ":" else ""
  }

  // A single channel is written as its role's name, behind its stream's name and a
  // colon if it has one, and read from that.
  lemma RolesInFigures(stream: Stream, r: Role)
    requires 0 <= r < 34 && (stream.Named? ==> Trimmed(stream.name))
    ensures var m, text := [Entry(stream, r)], Prefix(stream) + RoleName(r);
            MapText(m) == text && ParseMap(text) == Channels(m)
  {
    hide ParseMap, Trimmed;
    var m := [Entry(stream, r)];
    NamesAreRegistered(r);
    assert Sayable(m[0]) && AllSayable(m);
    if r == 1 {
      MonoIsALayout(stream);
    } else {
      NoSingleLayout(0, r);
      assert RolesOf(m) == [r];
      assert WellKnownName(m) == "";
      JoinOne(EntryTexts(m));
    }
    RoundTripExactlyWhenSayable(m);
  }

  lemma NamesAreRegistered(r: nat)
    requires r < 34
    ensures Registered(r) && ROLE_NAMES[r] == RoleName(r)
  {
  }

  lemma MonoIsALayout(stream: Stream)
    ensures MapText([Entry(stream, 1)]) == Prefix(stream) + "Mono"
  {
    var m := [Entry(stream, 1)];
    assert RolesOf(m) == [1] == LAYOUTS[0].roles;
    assert ByRoles(0, RolesOf(m)) == 0;
    assert LAYOUTS[0].name == "Mono";
    NotEmpty(StreamPrefix(stream), "Mono");
  }

  lemma NotEmpty(a: string, b: string)
    requires b != ""
    ensures a + b != ""
  {
    assert |a + b| > 0;
  }

  lemma {:induction false} NoSingleLayout(i: nat, r: Role)
    requires i <= |LAYOUTS| && r != 1
    ensures ByRoles(i, [r]) == |LAYOUTS|
    decreases |LAYOUTS| - i
  {
    if i < |LAYOUTS| {
      NotSingle(i, r);
      NoSingleLayout(i + 1, r);
    }
  }

  lemma NotSingle(i: nat, r: Role)
    requires i < |LAYOUTS| && r != 1
    ensures LAYOUTS[i].roles != [r]
  {
  }

  // White space around a name, and around the stream's name and the colon, is no part
  // of either; an empty stream's name stands for no stream.
  lemma DressedRoleReads(stream: Stream, r: Role, a: string, b: string, c: string, d: string)
    requires 0 <= r < 34 && (stream.Named? ==> Trimmed(stream.name))
    requires OnlySpaces(a) && OnlySpaces(b) && OnlySpaces(c) && OnlySpaces(d)
    ensures ParseItem(a + RoleName(r) + d) == Channels([Entry(Undefined, r)])
    ensures stream.Named? ==>
              ParseItem(a + (stream.name + b + (":" + (c + RoleName(r)))) + d) == Channels([Entry(stream, r)])
    ensures ParseItem(a + (":" + (c + RoleName(r))) + d) == Channels([Entry(Undefined, r)])
  {
    hide ParseItem, Trimmed, OnlySpaces, RoleName;
    NamesAreRegistered(r);
    RoleNamesAreClean(r);
    BareSplits(RoleName(r));
    CleanIs(RoleName(r));
    DressedItem(Undefined, r, a, RoleName(r), d);
    ColonSplits("", c, RoleName(r));
    NoStream();
    assert "" + (":" + (c + RoleName(r))) == ":" + (c + RoleName(r));
    DressedItem(Undefined, r, a, ":" + (c + RoleName(r)), d);
    if stream.Named? {
      StreamSplits(stream, b, c, RoleName(r));
      DressedItem(stream, r, a, stream.name + b + (":" + (c + RoleName(r))), d);
    }
  }

  lemma NoStream()
    ensures StreamOf(Trim("")) == Undefined
  {
  }

  // What stands before the colon, and the name behind it.
  lemma ColonSplits(before: string, c: string, name: string)
    requires Without(before, ':') && OnlySpaces(c) && Clean(name)
    requires before != "" ==> !IsSpace(before[0])
    ensures var x := before + (":" + (c + name));
            x != "" && Trimmed(x) && Split1(x) == Labelled(StreamOf(Trim(before)), name)
  {
    hide Find, Trim, StreamOf, Trimmed, IsSpace;
    var x := before + (":" + (c + name));
    FindSeparator(before, ':', c + name);
    SpacesAreBlank(c);
    TrimPadded(c, name, "");
    assert c + name + "" == c + name;
    EndsOf(before, c, name);
  }

  lemma SpacesAreBlank(c: string)
    requires OnlySpaces(c)
    ensures Blank(c) && Blank("")
  {
  }

  lemma EndsOf(before: string, c: string, name: string)
    requires Clean(name) && (before != "" ==> !IsSpace(before[0]))
    ensures Trimmed(before + (":" + (c + name)))
  {
    var x := before + (":" + (c + name));
    assert x[|x| - 1] == name[|name| - 1];
    assert x[0] == if before == "" then ':' else before[0];
  }

  lemma StreamSplits(stream: Stream, b: string, c: string, name: string)
    requires stream.Named? && Trimmed(stream.name) && OnlySpaces(b) && OnlySpaces(c) && Clean(name)
    ensures var x := stream.name + b + (":" + (c + name));
            x != "" && Trimmed(x) && Split1(x) == Labelled(stream, name)
  {
    hide Trim, Split1;
    var before := stream.name + b;
    assert ':' !in b;
    ColonSplits(before, c, name);
    TrimPadded("", stream.name, b);
    assert "" + stream.name + b == before;
  }

  // An item that splits into a stream and a role's name, with white space around it.
  lemma DressedItem(stream: Stream, r: Role, a: string, x: string, d: string)
    requires Registered(r) && OnlySpaces(a) && OnlySpaces(d)
    requires x != "" && Trimmed(x) && Split1(x) == Labelled(stream, ROLE_NAMES[r])
    ensures ParseItem(a + x + d) == Channels([Entry(stream, r)])
  {
    hide Split1, Trim, Trimmed;
    TrimPadded(a, x, d);
    RoleReads(0, r);
  }

  lemma CleanIs(name: string)
    requires Clean(name)
    ensures name != "" && Trimmed(name)
  {
  }

  lemma BareSplits(name: string)
    requires Clean(name)
    ensures Split1(name) == Labelled(Undefined, name)
  {
    hide Find, Trim;
    FindNone(name, ':');
  }

  // ---------------------------------------------------------------------
  // Layouts
  // ---------------------------------------------------------------------

  function LayoutRow(k: nat): Layout
    requires k < 17
  {
    match k
    case 0 => Layout("Mono", [1])
    case 1 => Layout("Stereo", [2, 3])
    case 2 => Layout("2.1", [2, 3, 5])
    case 3 => Layout("3.0", [2, 3, 4])
    case 4 => Layout("Quad", [2, 3, 6, 7])
    case 5 => Layout("4.0", [2, 3, 6, 7])
    case 6 => Layout("5.0", [2, 3, 4, 6, 7])
    case 7 => Layout("5.1", [2, 3, 4, 5, 6, 7])
    case 8 => Layout("6.0", [2, 3, 4, 9, 10, 8])
    case 9 => Layout("6.1", [2, 3, 4, 5, 8, 9, 10])
    case 10 => Layout("7.0", [2, 3, 4, 6, 7, 9, 10])
    case 11 => Layout("7.1", [2, 3, 4, 5, 6, 7, 9, 10])
    case 12 => Layout("5.1.2", [2, 3, 4, 5, 6, 7, 13, 15])
    case 13 => Layout("5.1.4", [2, 3, 4, 5, 6, 7, 13, 15, 16, 18])
    case 14 => Layout("7.1.2", [2, 3, 4, 5, 6, 7, 9, 10, 13, 15])
    case 15 => Layout("7.1.4", [2, 3, 4, 5, 6, 7, 9, 10, 13, 15, 16, 18])
    case 16 => Layout("FOA", [20, 21, 22, 23])
  }

  // A layout's name, behind its stream's, reads as its roles in that order; and the
  // roles are written as the name, the two names of one layout both as "Quad".
  lemma LayoutsInFigures(stream: Stream, k: nat)
    requires k < 17 && (stream.Named? ==> Trimmed(stream.name))
    ensures var l := LayoutRow(k);
            && ParseMap(Prefix(stream) + l.name) == Channels(OnStream(stream, l.roles))
            && MapText(OnStream(stream, l.roles)) == Prefix(stream) + (if k == 5 then "Quad" else l.name)
  {
    hide Split1, Trim, ByRoles, ByName, Clean, Trimmed, LayoutRow;
    LayoutsAreRegistered(k);
    var m := OnStream(stream, LAYOUTS[k].roles);
    LayoutNamesAreClean(k);
    PrefixSplits(stream, LAYOUTS[k].name);
    TrimKeeps(Prefix(stream) + LAYOUTS[k].name);
    LayoutReads(0, k);
    assert RolesOf(m) == LAYOUTS[k].roles;
    FirstWithRoles(k);
    QuadName();
    NotEmpty(StreamPrefix(stream), LAYOUTS[if k == 5 then 4 else k].name);
  }

  lemma LayoutsAreRegistered(k: nat)
    requires k < 17
    ensures |LAYOUTS| == 17 && LAYOUTS[k] == LayoutRow(k) && LAYOUTS[k].roles != []
  {
  }

  lemma QuadName()
    ensures LAYOUTS[4].name == "Quad"
  {
  }

  lemma FirstWithRoles(k: nat)
    requires k < 17
    ensures ByRoles(0, LAYOUTS[k].roles) == if k == 5 then 4 else k
  {
    hide ByRoles;
    LayoutsAreRegistered(k);
    RolesReadFrom(0, if k == 5 then 4 else k, LAYOUTS[k].roles);
  }

  lemma {:induction false} RolesReadFrom(i: nat, k: nat, roles: seq<Role>)
    requires i <= k < |LAYOUTS| && LAYOUTS[k].roles == roles && k != 5
    ensures ByRoles(i, roles) == k
    decreases k - i
  {
    if i < k {
      RolesDiffer(i, k);
      RolesReadFrom(i + 1, k, roles);
    }
  }

  lemma RolesDiffer(i: nat, k: nat)
    requires i < k < |LAYOUTS| && k != 5
    ensures LAYOUTS[i].roles != LAYOUTS[k].roles
  {
    var a, b := LAYOUTS[i].roles, LAYOUTS[k].roles;
    assert || |a| != |b| || a[0] != b[0]
           || (|a| > 2 && a[2] != b[2]) || (|a| > 3 && a[3] != b[3]) || (|a| > 6 && a[6] != b[6]);
  }

  // ---------------------------------------------------------------------
  // The binary form
  // ---------------------------------------------------------------------

  // A count, and for each channel its stream's name and its role's number.
  lemma OneChannelInWords(e: Entry)
    ensures MapWords([e]) == [U32(1), Str(if e.stream.Named? then e.stream.name else "Undefined"), I32(e.role)]
  {
    assert [e][1..] == [];
    assert EntryWords([e]) == [Str(StreamText(e.stream)), I32(e.role)] + EntryWords([e][1..]);
  }

  // ---------------------------------------------------------------------
  // ST 2110-30 symbols
  // ---------------------------------------------------------------------

  // A channel order of one symbol.
  lemma OneSymbol(t: string)
    requires t != "" && Trimmed(t) && Without(t, ',')
    ensures ParseOrder("(" + t + ")")
            == if TokenRoles(t).Roles? then Order(Anonymous(TokenRoles(t).roles)) else InvalidOrder
  {
    hide TokenRoles, Trim, Find;
    var s := "(" + t + ")";
    TrimKeeps(s);
    TrimKeeps(t);
    assert s[1..|s| - 1] == t;
    FindNone(t, ',');
    assert t[..|t|] == t;
    assert Split(t, ',') == [t];
    assert !StrayComma(t);
    OneToken(t);
  }

  lemma OneToken(t: string)
    requires Trimmed(t)
    ensures TokensRoles([t]) == TokenRoles(t)
  {
    hide TokenRoles, Trim;
    TrimKeeps(t);
    assert [t][1..] == [];
    if TokenRoles(t).Roles? { assert TokenRoles(t).roles + [] == TokenRoles(t).roles; }
  }

  lemma SymbolsInFigures()
    ensures ParseOrder("(M)") == Order(Anonymous([1]))
    ensures ParseOrder("(DM)") == Order(Anonymous([1, 1]))
    ensures ParseOrder("(ST)") == Order(Anonymous([2, 3]))
    ensures ParseOrder("(LtRt)") == Order(Anonymous([32, 33]))
    ensures ParseOrder("(51)") == Order(Anonymous([2, 3, 4, 5, 6, 7]))
    ensures ParseOrder("(71)") == Order(Anonymous([2, 3, 4, 5, 9, 10, 6, 7]))
    ensures ParseOrder("(SGRP)") == Order(Anonymous([0, 0, 0, 0]))
    ensures ParseOrder("(222)") == Order(Anonymous(seq(24, _ => 0)))
  {
    hide ParseOrder, TokenRoles, Anonymous;
    TokensInFigures();
    SymbolReads("M", "(M)");
    SymbolReads("DM", "(DM)");
    SymbolReads("ST", "(ST)");
    SymbolReads("LtRt", "(LtRt)");
    SymbolReads("51", "(51)");
    SymbolReads("71", "(71)");
    SymbolReads("SGRP", "(SGRP)");
    SymbolReads("222", "(222)");
  }

  lemma SymbolReads(t: string, text: string)
    requires t != "" && Trimmed(t) && Without(t, ',') && text == "(" + t + ")"
    ensures TokenRoles(t).Roles? ==> ParseOrder(text) == Order(Anonymous(TokenRoles(t).roles))
  {
    hide ParseOrder, TokenRoles, Trimmed;
    OneSymbol(t);
  }

  lemma TokensInFigures()
    ensures TokenRoles("M") == Roles([1]) && TokenRoles("DM") == Roles([1, 1])
    ensures TokenRoles("ST") == Roles([2, 3]) && TokenRoles("LtRt") == Roles([32, 33])
    ensures TokenRoles("51") == Roles([2, 3, 4, 5, 6, 7])
    ensures TokenRoles("71") == Roles([2, 3, 4, 5, 9, 10, 6, 7])
    ensures TokenRoles("SGRP") == Roles([0, 0, 0, 0]) && TokenRoles("222") == Roles(seq(24, _ => 0))
  {
    assert Blanks(24) == seq(24, _ => 0);
    assert Blanks(4) == [0, 0, 0, 0];
  }

  // Unlabelled channels: a U and a number of two digits, from 1 to 64. A sign, white
  // space or a digit separator may stand for the first digit, and a separator for
  // the second.
  lemma UnlabelledInFigures(a: char, b: char)
    ensures '0' <= a <= '9' && '0' <= b <= '9' ==> UnlabelledAs(a, b, 10 * ((a - '0') as nat) + (b - '0') as nat)
    ensures a in " \t\n\r\U{000B}\U{000C}+'_" && '0' <= b <= '9' ==> UnlabelledAs(a, b, (b - '0') as nat)
    ensures '0' <= a <= '9' && (b == '_' || b == '\'') ==> UnlabelledAs(a, b, (a - '0') as nat)
    ensures 'a' <= a <= 'z' && '0' <= b <= '9' ==> UnlabelledAs(a, b, 0)
  {
    hide TokenRoles, ParseOrder, UnlabelledAs;
    if !IsSpace(b) && a != ',' && b != ',' { UnlabelledReads(a, b); }
  }

  lemma UnlabelledReads(a: char, b: char)
    requires !IsSpace(b) && a != ',' && b != ','
    ensures var n := TwoCharNumber(a, b); UnlabelledAs(a, b, if n < 0 then 0 else n)
  {
    hide ParseOrder, TwoCharNumber;
    var t, n := ['U', a, b], TwoCharNumber(a, b);
    OneSymbol(t);
    assert "(" + t + ")" == ['(', 'U', a, b, ')'];
    if 1 <= n <= 64 { assert Blanks(n) == seq(n, _ => 0); }
  }

  predicate UnlabelledAs(a: char, b: char, n: nat) {
    ParseOrder(['(', 'U', a, b, ')'])
    == if 1 <= n <= 64 then Order(Anonymous(seq(n, _ => 0))) else InvalidOrder
  }

  // Commas that separate nothing are refused wherever they stand.
  lemma StrayCommasAreRefused(a: string, b: string)
    ensures ParseOrder("(" + (a + ",," + b) + ")") == InvalidOrder
    ensures ParseOrder("(" + ("," + b) + ")") == InvalidOrder
    ensures ParseOrder("(" + (a + ",") + ")") == InvalidOrder
  {
    hide ParseOrder, StrayComma, Trim, TrimLeft, TrimRight;
    TrimAround(a, ",,", b);
    TrimAround("", ",", b);
    TrimAround(a, ",", "");
    var x, y := TrimLeft(a), TrimRight(b);
    assert "" + "," + b == "," + b && a + "," + "" == a + ",";
    TrimNothing();
    assert "" + "," + y == "," + y && x + "," + "" == x + ",";
    Stray(x + ",," + y, |x|);
    Stray("," + y, 0);
    Stray(x + ",", |x|);
    Refuses(a + ",," + b);
    Refuses("," + b);
    Refuses(a + ",");
  }

  lemma TrimNothing()
    ensures TrimLeft("") == "" && TrimRight("") == ""
  {
  }

  lemma Stray(s: string, i: nat)
    requires i < |s| && s[i] == ','
    requires i == 0 || i == |s| - 1 || (i + 1 < |s| && s[i + 1] == ',')
    ensures StrayComma(s)
  {
  }

  lemma Refuses(x: string)
    requires Trim(x) != "" && StrayComma(Trim(x))
    ensures ParseOrder("(" + x + ")") == InvalidOrder
  {
    hide Trim, StrayComma;
    var s := "(" + x + ")";
    TrimKeeps(s);
    assert s[1..|s| - 1] == x;
  }

  // Trimming stops at a text without white space at its ends, wherever it stands.
  lemma {:induction false} TrimAround(a: string, c: string, b: string)
    requires c != "" && !IsSpace(c[0]) && !IsSpace(c[|c| - 1])
    ensures Trim(a + c + b) == TrimLeft(a) + c + TrimRight(b)
  {
    hide TrimLeft, TrimRight;
    Assoc(a, c, b);
    TrimLeftStops(a, c + b);
    Assoc(TrimLeft(a), c, b);
    TrimRightStops(TrimLeft(a) + c, b);
  }

  lemma {:induction false} TrimLeftStops(a: string, s: string)
    requires s != "" && !IsSpace(s[0])
    ensures TrimLeft(a + s) == TrimLeft(a) + s
  {
    if a == "" {
      assert a + s == s;
    } else {
      assert (a + s)[1..] == a[1..] + s;
      TrimLeftStops(a[1..], s);
    }
  }

  lemma {:induction false} TrimRightStops(s: string, b: string)
    requires s != "" && !IsSpace(s[|s| - 1])
    ensures TrimRight(s + b) == s + TrimRight(b)
  {
    if b == "" {
      assert s + b == s;
    } else {
      assert (s + b)[..|s + b| - 1] == s + b[..|b| - 1];
      TrimRightStops(s, b[..|b| - 1]);
    }
  }
}
