// The string operations the channel-map grammars are built on.

module Text {
  import opened Bytes

  predicate IsSpace(c: char) {
    c == ' ' || c == '\t' || c == '\n' || c == '\r' || c == '\U{000B}' || c == '\U{000C}'
  }

  function TrimLeft(s: string): string {
    if s != "" && IsSpace(s[0]) then TrimLeft(s[1..]) else s
  }

  function TrimRight(s: string): string {
    if s != "" && IsSpace(s[|s| - 1]) then TrimRight(s[..|s| - 1]) else s
  }

  function Trim(s: string): string {
    TrimRight(TrimLeft(s))
  }

  // No white space at either end.
  predicate Trimmed(s: string) {
    s != "" ==> !IsSpace(s[0]) && !IsSpace(s[|s| - 1])
  }

  predicate Blank(s: string) {
    forall c <- s :: IsSpace(c)
  }

  predicate Without(s: string, c: char) {
    c !in s
  }

  function Find(s: string, c: char): (i: nat)
    ensures i <= |s| && (i < |s| ==> s[i] == c)
    ensures forall j :: 0 <= j < i ==> s[j] != c
  {
    if s == "" || s[0] == c then 0 else 1 + Find(s[1..], c)
  }

  // The pieces between separators; empty pieces are skipped.
  function Split(s: string, c: char): seq<string> {
    if s == "" then []
    else
      var i := Find(s, c);
      (if i > 0 then [s[..i]] else []) + (if i < |s| then Split(s[i + 1..], c) else [])
  }

  function Join(parts: seq<string>, c: char): string {
    if parts == [] then ""
    else if |parts| == 1 then parts[0]
    else parts[0] + ([c] + Join(parts[1..], c))
  }

  // ---------------------------------------------------------------------
  // Trimming
  // ---------------------------------------------------------------------

  lemma {:induction false} TrimLeftEnds(s: string)
    ensures var t := TrimLeft(s); t != "" ==> !IsSpace(t[0]) && t[|t| - 1] == s[|s| - 1]
    ensures forall c <- TrimLeft(s) :: c in s
    ensures |TrimLeft(s)| <= |s|
  {
    if s != "" && IsSpace(s[0]) { TrimLeftEnds(s[1..]); }
  }

  lemma {:induction false} TrimRightEnds(s: string)
    ensures var t := TrimRight(s); t != "" ==> !IsSpace(t[|t| - 1]) && t[0] == s[0]
    ensures forall c <- TrimRight(s) :: c in s
    ensures |TrimRight(s)| <= |s|
  {
    if s != "" && IsSpace(s[|s| - 1]) { TrimRightEnds(s[..|s| - 1]); }
  }

  lemma TrimIsTrimmed(s: string)
    ensures Trimmed(Trim(s))
    ensures forall c <- Trim(s) :: c in s
  {
    hide TrimLeft, TrimRight;
    TrimLeftEnds(s);
    TrimRightEnds(TrimLeft(s));
  }

  lemma TrimKeeps(s: string)
    requires Trimmed(s)
    ensures Trim(s) == s
  {
  }

  lemma {:induction false} TrimLeftBlank(a: string, s: string)
    requires Blank(a) && (s != "" ==> !IsSpace(s[0]))
    ensures TrimLeft(a + s) == s
  {
    if a == "" {
      assert a + s == s;
    } else {
      assert (a + s)[1..] == a[1..] + s;
      TrimLeftBlank(a[1..], s);
    }
  }

  lemma {:induction false} TrimRightBlank(s: string, a: string)
    requires Blank(a) && (s != "" ==> !IsSpace(s[|s| - 1]))
    ensures TrimRight(s + a) == s
  {
    if a == "" {
      assert s + a == s;
    } else {
      assert (s + a)[..|s + a| - 1] == s + a[..|a| - 1];
      TrimRightBlank(s, a[..|a| - 1]);
    }
  }

  // White space around a text that has none at its ends is all trim removes.
  lemma TrimPadded(a: string, s: string, b: string)
    requires Blank(a) && Blank(b) && s != "" && Trimmed(s)
    ensures Trim(a + s + b) == s
  {
    hide TrimLeft, TrimRight;
    Assoc(a, s, b);
    TrimLeftBlank(a, s + b);
    TrimRightBlank(s, b);
  }

  // ---------------------------------------------------------------------
  // Splitting
  // ---------------------------------------------------------------------

  lemma {:induction false} FindAfter(a: string, s: string, c: char)
    requires Without(a, c)
    ensures Find(a + s, c) == |a| + Find(s, c)
  {
    if a == "" {
      assert a + s == s;
    } else {
      assert (a + s)[1..] == a[1..] + s;
      FindAfter(a[1..], s, c);
    }
  }

  lemma {:induction false} FindNone(s: string, c: char)
    requires Without(s, c)
    ensures Find(s, c) == |s|
  {
    FindAfter(s, "", c);
    assert s + "" == s;
  }

  lemma {:induction false} FindSeparator(a: string, c: char, b: string)
    requires Without(a, c)
    ensures var s := a + ([c] + b); Find(s, c) == |a| && s[..|a|] == a && s[|a| + 1..] == b
  {
    FindAfter(a, [c] + b, c);
  }

  predicate Pieces(parts: seq<string>, c: char) {
    forall i :: 0 <= i < |parts| ==> parts[i] != "" && Without(parts[i], c)
  }

  lemma {:induction false} SplitJoin(parts: seq<string>, c: char)
    requires Pieces(parts, c)
    ensures Split(Join(parts, c), c) == parts
  {
    if |parts| == 1 {
      FindNone(parts[0], c);
      assert parts == [parts[0]];
      assert parts[0][..|parts[0]|] == parts[0];
    } else if |parts| > 1 {
      FindSeparator(parts[0], c, Join(parts[1..], c));
      SplitJoin(parts[1..], c);
    }
  }

  lemma PiecesJoin(a: seq<string>, b: seq<string>, c: char)
    requires Pieces(a, c) && Pieces(b, c)
    ensures Pieces(a + b, c)
  {
  }

  lemma {:induction false} SplitPieces(s: string, c: char)
    ensures Pieces(Split(s, c), c)
  {
    if s == "" {
    } else {
      var i := Find(s, c);
      var head := if i > 0 then [s[..i]] else [];
      assert Pieces(head, c);
      if i < |s| {
        hide Pieces;
        SplitPieces(s[i + 1..], c);
        PiecesJoin(head, Split(s[i + 1..], c), c);
      }
    }
  }

  // How a joined text begins and ends.
  lemma {:induction false} JoinEnds(parts: seq<string>, c: char)
    requires Pieces(parts, c) && parts != []
    ensures var s := Join(parts, c);
            && s != "" && s[0] == parts[0][0]
            && s[|s| - 1] == parts[|parts| - 1][|parts[|parts| - 1]| - 1]
    ensures var s := Join(parts, c);
            forall i :: 0 <= i < |s| - 1 ==> !(s[i] == c && s[i + 1] == c)
    ensures Join(parts, c)[0] != c && Join(parts, c)[|Join(parts, c)| - 1] != c
  {
    var p := parts[0];
    if |parts| == 1 {
    } else {
      JoinEnds(parts[1..], c);
      var rest := Join(parts[1..], c);
      var s := Join(parts, c);
      assert s == p + ([c] + rest);
      forall i | 0 <= i < |s| - 1 ensures !(s[i] == c && s[i + 1] == c) {
        if i > |p| {
          assert s[i] == rest[i - |p| - 1] && s[i + 1] == rest[i - |p|];
        } else if i < |p| {
          assert s[i] == p[i] && p[i] in p;
        } else {
          assert s[i + 1] == rest[0];
        }
      }
    }
  }

  lemma {:induction false} JoinMore(p: string, rest: seq<string>, c: char)
    ensures Join([p] + rest, c) == if rest == [] then p else p + ([c] + Join(rest, c))
  {
    assert ([p] + rest)[1..] == rest;
  }

  // The two ways of building a list: separator first, or item first.
  lemma ListMore(out: string, sep: string, p: string, rest: string)
    ensures out + sep + p + rest == out + (sep + (p + rest))
    ensures out + sep + p == out + (sep + p)
  {
  }

  lemma {:induction false} JoinCharacters(parts: seq<string>, c: char, x: char)
    requires x != c && forall i :: 0 <= i < |parts| ==> Without(parts[i], x)
    ensures Without(Join(parts, c), x)
  {
    if |parts| <= 1 {
    } else {
      JoinCharacters(parts[1..], c, x);
    }
  }
}
