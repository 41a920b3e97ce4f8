// Channel orders: every map is covered group by group, and the maps the grammar
// can describe are exactly those that come back from their own text.

module ChannelOrderLaws {
  import opened Bytes
  import opened Text
  import opened ChannelRoles
  import opened ChannelOrder
  import opened ChannelText

  // What the grammar keeps of a map's roles: every channel outside a fixed
  // sequence is unlabelled.
  function Kept(r: seq<Role>): seq<Role> {
    ExpandAll(Groups(r))
  }

  lemma KeptStep(r: seq<Role>)
    requires r != []
    ensures var g := NextGroup(r); Kept(r) == Expand(g) + Kept(r[|Expand(g)|..])
  {
    hide NextGroup, Expand;
    assert Groups(r)[1..] == Groups(r[|Expand(NextGroup(r))|..]);
  }

  function TotalSize(gs: seq<Group>): nat {
    if gs == [] then 0 else |Expand(gs[0])| + TotalSize(gs[1..])
  }

  // The groups cover every channel exactly once, whatever the roles: no channel
  // is dropped or doubled, no label is invented, and no group exceeds 64.
  lemma {:induction false} GroupsCoverTheMap(r: seq<Role>)
    ensures TotalSize(Groups(r)) == |r| == |Kept(r)| && Sized(Groups(r))
    ensures forall i :: 0 <= i < |r| ==> Kept(r)[i] == r[i] || Kept(r)[i] == UNUSED
    decreases |r|
  {
    if r == [] {
      NothingIsKept();
    } else {
      hide NextGroup, Expand, Kept;
      var g := NextGroup(r);
      var n := |Expand(g)|;
      GroupsCoverTheMap(r[n..]);
      GroupsAreSized(r);
      assert Groups(r)[1..] == Groups(r[n..]);
      KeptStep(r);
      var k := Kept(r[n..]);
      forall i | 0 <= i < |r| ensures Kept(r)[i] == r[i] || Kept(r)[i] == UNUSED {
        if i >= n { assert (Expand(g) + k)[i] == k[i - n] && r[i] == r[n..][i - n]; }
      }
    }
  }

  // ---------------------------------------------------------------------
  // Reading symbols back
  // ---------------------------------------------------------------------

  lemma SymbolReadsBack(g: Group)
    requires g.U? ==> 1 <= g.n <= 64
    ensures TokenRoles(Symbol(g)) == Roles(Expand(g))
    ensures Symbol(g) != "" && Trimmed(Symbol(g)) && Without(Symbol(g), ',')
  {
    if g.U? {
      TwoDigits(g.n);
    }
  }

  lemma TwoDigits(n: nat)
    requires 1 <= n <= 64
    ensures TwoCharNumber(Digit(n / 10 % 10), Digit(n % 10)) == n
    ensures IsDigit(Digit(n / 10 % 10)) && IsDigit(Digit(n % 10))
  {
  }

  lemma {:induction false} SymbolsReadBack(gs: seq<Group>)
    requires Sized(gs)
    ensures TokensRoles(Symbols(gs)) == Roles(ExpandAll(gs))
    ensures Pieces(Symbols(gs), ',')
  {
    hide TokenRoles, Symbol, Expand, Trim;
    if gs == [] {
    } else {
      SymbolReadsBack(gs[0]);
      TrimKeeps(Symbol(gs[0]));
      SymbolsReadBack(gs[1..]);
      assert Symbols(gs)[1..] == Symbols(gs[1..]);
    }
  }

  // The body between the parentheses: trimmed, no stray commas, and split back
  // into its symbols.
  lemma {:induction false} BodyReadsBack(gs: seq<Group>)
    requires Sized(gs) && gs != []
    ensures var body := Join(Symbols(gs), ',');
            && body != "" && Trimmed(body)
            && ParseBody(body) == Order(Anonymous(ExpandAll(gs)))
  {
    hide Symbol, TokensRoles, Join, Split, Expand;
    var parts := Symbols(gs);
    SymbolsReadBack(gs);
    JoinEnds(parts, ',');
    SplitJoin(parts, ',');
    SymbolReadsBack(gs[0]);
    SymbolReadsBack(gs[|gs| - 1]);
  }

  // However the attribute is dressed - white space outside, the convention prefix
  // with or without its dot - the formatted text reads as the kept roles.
  lemma FormattedTextReads(m: ChannelMap, before: string, prefix: string, between: string, after: string)
    requires m != [] && Blank(before) && Blank(after) && Blank(between)
    requires prefix == "SMPTE2110." || prefix == "SMPTE2110" || (prefix == "" && between == "")
    ensures ParseOrder(before + (prefix + between + OrderText(m)) + after)
            == Order(Anonymous(Kept(RolesOf(m))))
  {
    hide Groups, Join, Symbols, ParseBody, Trim;
    var r := RolesOf(m);
    var body := Join(Symbols(Groups(r)), ',');
    GroupsAreSized(r);
    SomeGroup(r);
    BodyReadsBack(Groups(r));
    TrimKeeps(body);
    var text := "(" + body + ")";
    OrderTextIs(m);
    assert text[1..|text| - 1] == body;
    DressedText(before, prefix, between, text, after);
  }

  lemma DressedText(before: string, prefix: string, between: string, text: string, after: string)
    requires Blank(before) && Blank(after) && Blank(between)
    requires |text| >= 2 && text[0] == '(' && text[|text| - 1] == ')'
    requires prefix == "SMPTE2110." || prefix == "SMPTE2110" || (prefix == "" && between == "")
    ensures WithoutConvention(Trim(before + (prefix + between + text) + after)) == text
  {
    hide Trim;
    var s := prefix + between + text;
    TrimPadded(before, s, after);
    if prefix == "" {
      assert s == text;
    } else {
      var n := |prefix|;
      assert s[..n] == prefix && s[n..] == between + text;
      assert prefix == "SMPTE2110" ==> s[9] != '.' by {
        assert prefix == "SMPTE2110" ==> s[9] == (between + text)[0];
        assert between != "" ==> between[0] in between;
      }
      assert between + text + "" == between + text;
      TrimPadded(between, text, "");
    }
  }

  lemma PlainTextReads(m: ChannelMap)
    requires m != []
    ensures ParseOrder(OrderText(m)) == Order(Anonymous(Kept(RolesOf(m))))
  {
    hide ParseOrder, OrderText, Kept, Anonymous, RolesOf;
    FormattedTextReads(m, "", "", "", "");
    assert "" + ("" + "" + OrderText(m)) + "" == OrderText(m);
  }

  // ---------------------------------------------------------------------
  // Which maps survive
  // ---------------------------------------------------------------------

  // The maps the grammar can describe: each position is unlabelled or begins a
  // whole fixed sequence.
  predicate Described(r: seq<Role>)
    decreases |r|
  {
    r == [] ||
    if MatchOf(r) != U(0) then Described(r[|Expand(MatchOf(r))|..])
    else r[0] == UNUSED && Described(r[1..])
  }

  lemma {:induction false} DescribedAfterRun(r: seq<Role>, cap: nat)
    requires Described(r)
    ensures var n := RunOf(r, cap); r[..n] == Blanks(n) && Described(r[n..])
    decreases cap
  {
    hide MatchOf, Expand;
    if !(r == [] || cap == 0 || MatchOf(r) != U(0)) {
      DescribedAfterRun(r[1..], cap - 1);
      var n := RunOf(r[1..], cap - 1);
      hide Described, RunOf;
      assert r[..n + 1] == [r[0]] + r[1..][..n];
      assert r[1..][n..] == r[n + 1..];
    } else {
      assert r[0..] == r;
    }
  }

  lemma NothingIsKept()
    ensures Kept([]) == []
  {
  }

  lemma {:induction false} DescribedStep(r: seq<Role>)
    requires Described(r) && r != []
    ensures var g := NextGroup(r);
            r[..|Expand(g)|] == Expand(g) && Described(r[|Expand(g)|..])
  {
    hide MatchOf, RunOf, Blanks;
    if MatchOf(r) == U(0) { DescribedAfterRun(r, 64); }
  }

  lemma {:induction false} DescribedIsKept(r: seq<Role>)
    requires Described(r)
    ensures Kept(r) == r
    decreases |r|
  {
    hide *;
    if r == [] {
      NothingIsKept();
    } else {
      var a := Expand(NextGroup(r));
      DescribedStep(r);
      DescribedIsKept(r[|a|..]);
      KeptStep(r);
    }
  }

  // Nothing that can follow a group continues it into a longer one.
  lemma {:induction false} DescribedHead(r: seq<Role>)
    requires Described(r) && r != []
    ensures r[0] in {UNUSED, FRONT_LEFT, LEFT_TOTAL, MONO}
  {
  }

  lemma {:induction false} BlanksAreDescribed(n: nat, r: seq<Role>)
    requires Described(r)
    ensures Described(Blanks(n) + r)
  {
    if n == 0 {
      assert Blanks(0) + r == r;
    } else {
      hide MatchOf;
      BlanksAreDescribed(n - 1, r);
      Assoc([UNUSED], Blanks(n - 1), r);
      assert ([UNUSED] + (Blanks(n - 1) + r))[1..] == Blanks(n - 1) + r;
      UnusedMatchesNothing(Blanks(n) + r);
    }
  }

  lemma UnusedMatchesNothing(r: seq<Role>)
    requires r != [] && r[0] == UNUSED
    ensures MatchOf(r) == U(0)
  {
  }

  lemma FixedMatches(g: Group, r: seq<Role>)
    requires !g.U? && (r != [] ==> r[0] != FRONT_CENTER)
    ensures MatchOf(Expand(g) + r) == g
  {
    var s := Expand(g) + r;
    assert s[0] == Expand(g)[0] && s[1..] == Expand(g)[1..] + r;
    if g == Group51 {
      assert s[4] == BACK_LEFT && ROLES_71[4] == SIDE_LEFT;
    } else if g == ST {
      assert |s| > 2 ==> s[2] == r[0];
      assert SURROUND_51[2] == FRONT_CENTER && ROLES_71[2] == FRONT_CENTER;
      assert !(ROLES_71 <= s) && !(SURROUND_51 <= s);
    }
  }

  lemma {:induction false} FixedIsDescribed(g: Group, r: seq<Role>)
    requires !g.U? && Described(r)
    ensures Described(Expand(g) + r)
  {
    hide MatchOf;
    Append(Expand(g), r);
    if r != [] { DescribedHead(r); }
    FixedMatches(g, r);
  }

  lemma {:induction false} ExpansionsAreDescribed(gs: seq<Group>)
    ensures Described(ExpandAll(gs))
  {
    hide Described, Expand;
    if gs == [] {
      NothingIsDescribed();
    } else {
      ExpansionsAreDescribed(gs[1..]);
      if gs[0].U? {
        BlanksAreDescribed(gs[0].n, ExpandAll(gs[1..]));
        UExpands(gs[0]);
      } else {
        FixedIsDescribed(gs[0], ExpandAll(gs[1..]));
      }
    }
  }

  lemma NothingIsDescribed()
    ensures Described([])
  {
  }

  lemma UExpands(g: Group)
    requires g.U?
    ensures Expand(g) == Blanks(g.n)
  {
  }

  // The description is what it says: the maps a list of groups expands to.
  lemma {:induction false} DescribedExactlyByGroups(r: seq<Role>)
    ensures Described(r) <==> exists gs :: ExpandAll(gs) == r
    ensures Described(r) <==> Kept(r) == r
  {
    if gs :| ExpandAll(gs) == r { ExpansionsAreDescribed(gs); }
    ExpansionsAreDescribed(Groups(r));
    if Described(r) { DescribedIsKept(r); }
  }

  // A map comes back from its own channel order exactly when it is non-empty, has
  // no stream identities and is made of the grammar's groups.
  lemma RoundTripExactlyWhenDescribed(m: ChannelMap)
    ensures ParseOrder(OrderText(m)) == Order(m)
            <==> m != [] && (forall e <- m :: e.stream == Undefined) && Described(RolesOf(m))
  {
    if m == [] {
    } else {
      hide ParseOrder, OrderText, Described, Kept, Anonymous, RolesOf;
      PlainTextReads(m);
      var r := RolesOf(m);
      DescribedExactlyByGroups(r);
      AnonymousRoles(m);
      AnonymousIs(m, Kept(r));
    }
  }

  lemma AnonymousIs(m: ChannelMap, r: seq<Role>)
    ensures Anonymous(r) == m <==> Anonymous(RolesOf(m)) == m && r == RolesOf(m)
  {
    if Anonymous(r) == m {
      assert r == RolesOf(m);
    }
  }

  lemma {:induction false} TokenIsDescribed(t: string, r: seq<Role>)
    requires TokenRoles(t).Roles? && Described(r)
    ensures Described(TokenRoles(t).roles + r)
  {
    hide Described, TwoCharNumber;
    var roles := TokenRoles(t).roles;
    if t == "M" { FixedIsDescribed(M, r); }
    else if t == "DM" {
      FixedIsDescribed(M, r);
      FixedIsDescribed(M, [MONO] + r);
      assert [MONO, MONO] + r == [MONO] + ([MONO] + r);
    }
    else if t == "ST" { FixedIsDescribed(ST, r); }
    else if t == "LtRt" { FixedIsDescribed(LtRt, r); }
    else if t == "51" { FixedIsDescribed(Group51, r); }
    else if t == "71" { FixedIsDescribed(Group71, r); }
    else { BlanksAreDescribed(|roles|, r); assert roles == Blanks(|roles|); }
  }

  lemma {:induction false} TokensAreDescribed(ts: seq<string>)
    requires TokensRoles(ts).Roles?
    ensures Described(TokensRoles(ts).roles)
  {
    hide Described, TokenRoles, Trim;
    if ts == [] {
      NothingIsDescribed();
    } else {
      TokensAreDescribed(ts[1..]);
      TokenIsDescribed(Trim(ts[0]), TokensRoles(ts[1..]).roles);
    }
  }

  // Whatever text a non-empty map was parsed from - dual mono, SDI groups and
  // 22.2 included - formatting it and parsing again gives the same map.
  lemma ParsedMapsRoundTrip(value: string)
    requires ParseOrder(value).Order? && ParseOrder(value).channels != []
    ensures ParseOrder(OrderText(ParseOrder(value).channels)) == ParseOrder(value)
  {
    hide Trim, WithoutConvention, TokensRoles, Split, Described, OrderText;
    var m := ParseOrder(value).channels;
    var s := WithoutConvention(Trim(value));
    var ts := Split(Trim(s[1..|s| - 1]), ',');
    TokensAreDescribed(ts);
    assert RolesOf(m) == TokensRoles(ts).roles;
    assert forall e <- m :: e.stream == Undefined;
    RoundTripExactlyWhenDescribed(m);
  }

  lemma TwoUnlabelled(a: Role, b: Role)
    requires MatchOf([a, b]) == U(0) && MatchOf([b]) == U(0)
    ensures Groups([a, b]) == [U(2)]
  {
    var s := [a, b];
    assert s[1..] == [b] && s[1..][1..] == [];
    assert RunOf(s, 64) == 2;
    assert s[2..] == [];
  }

  // The library's own 7.1 layout puts the back pair before the side pair: its
  // first six channels are a 51 group and only the last two are unlabelled.
  lemma LibrarySurroundOrder()
    ensures Groups(SURROUND_71) == [Group51, U(2)]
  {
    var r := SURROUND_71;
    FixedMatches(Group51, [SIDE_LEFT, SIDE_RIGHT]);
    assert r == Expand(Group51) + [SIDE_LEFT, SIDE_RIGHT];
    assert r[6..] == [SIDE_LEFT, SIDE_RIGHT];
    TwoUnlabelled(SIDE_LEFT, SIDE_RIGHT);
    assert NextGroup(r) == Group51;
    assert Groups(r) == [Group51] + Groups(r[6..]);
  }
}
