// The role and layout tables: every name is found again, and reads as text.

module ChannelTables {
  import opened Text
  import opened ChannelRoles
  import opened ChannelText

  // A name that survives trimming and holds neither delimiter.
  predicate Clean(s: string) {
    s != "" && Trimmed(s) && Without(s, ':') && Without(s, ',')
  }

  lemma RoleNamesAreTrimmed(r: Role)
    requires Registered(r)
    ensures ROLE_NAMES[r] != "" && Trimmed(ROLE_NAMES[r])
  {
  }

  lemma EarlyNamesHaveNo(r: Role, c: char)
    requires 0 <= r < 17 && (c == ':' || c == ',')
    ensures Without(ROLE_NAMES[r], c)
  {
  }

  lemma LateNamesHaveNo(r: Role, c: char)
    requires 17 <= r < |ROLE_NAMES| && (c == ':' || c == ',')
    ensures Without(ROLE_NAMES[r], c)
  {
  }

  lemma RoleNamesHaveNo(r: Role, c: char)
    requires Registered(r) && (c == ':' || c == ',')
    ensures Without(ROLE_NAMES[r], c)
  {
    hide Without;
    if r < 17 { EarlyNamesHaveNo(r, c); } else { LateNamesHaveNo(r, c); }
  }

  lemma RoleNamesAreClean(r: Role)
    requires Registered(r)
    ensures Clean(ROLE_NAMES[r])
  {
    hide Registered, Trimmed, Without;
    RoleNamesAreTrimmed(r);
    RoleNamesHaveNo(r, ':');
    RoleNamesHaveNo(r, ',');
  }

  lemma LayoutNamesAreClean(k: nat)
    requires k < |LAYOUTS|
    ensures Clean(LAYOUTS[k].name)
  {
  }

  lemma RoleNamesDiffer(i: nat, j: nat)
    requires i < j < |ROLE_NAMES|
    ensures ROLE_NAMES[i] != ROLE_NAMES[j]
  {
  }

  lemma LayoutNamesDiffer(i: nat, j: nat)
    requires i < j < |LAYOUTS|
    ensures LAYOUTS[i].name != LAYOUTS[j].name
  {
  }

  lemma RolesAreNoLayouts(r: Role, k: nat)
    requires Registered(r) && r != MONO && k < |LAYOUTS|
    ensures ROLE_NAMES[r] != LAYOUTS[k].name
  {
  }

  lemma LayoutRolesAreRegistered(k: nat, i: nat)
    requires k < |LAYOUTS| && i < |LAYOUTS[k].roles|
    ensures Registered(LAYOUTS[k].roles[i])
  {
  }

  // A registered name is found again at its own role.
  lemma {:induction false} RoleReads(i: nat, r: Role)
    requires i <= r && Registered(r)
    ensures ValueFrom(i, ROLE_NAMES[r]) == r
    decreases r - i
  {
    if i == r {
    } else {
      RoleNamesDiffer(i, r);
      RoleReads(i + 1, r);
    }
  }

  lemma {:induction false} LayoutReads(i: nat, k: nat)
    requires i <= k < |LAYOUTS|
    ensures ByName(i, LAYOUTS[k].name) == k
    decreases k - i
  {
    if i == k {
    } else {
      LayoutNamesDiffer(i, k);
      LayoutReads(i + 1, k);
    }
  }
}
