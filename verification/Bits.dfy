// Bit strings, most significant bit first, and the reader and writer that move
// fields of any width through a byte buffer.

module Bits {
  import opened Bytes
  import opened Numbers

  type bits = seq<bool>

  function Pow2(n: nat): (p: nat)
    ensures p >= 1
  {
    if n == 0 then 1 else 2 * Pow2(n - 1)
  }

  // The n low bits of v, and the number a bit string spells.
  function Field(v: nat, n: nat): (b: bits)
    ensures |b| == n
  {
    if n == 0 then [] else Field(v / 2, n - 1) + [v % 2 == 1]
  }

  function Value(b: bits): nat {
    if b == [] then 0 else 2 * Value(b[..|b| - 1]) + (if b[|b| - 1] then 1 else 0)
  }

  function Zeros(n: nat): (b: bits)
    ensures |b| == n
  {
    if n == 0 then [] else Zeros(n - 1) + [false]
  }

  function BitsOf(s: bytes): (b: bits)
    ensures |b| == 8 * |s|
  {
    if s == [] then [] else BitsOf(s[..|s| - 1]) + Field(s[|s| - 1], 8)
  }

  // Pads a bit string to whole bytes.
  function Padding(n: nat): (k: nat)
    ensures k < 8 && (n + k) % 8 == 0
  {
    (8 - n % 8) % 8
  }

  lemma FieldSnoc(v: nat, n: nat, bit: bool)
    ensures Field(2 * v + (if bit then 1 else 0), n + 1) == Field(v, n) + [bit]
  {
    assert (2 * v + (if bit then 1 else 0)) / 2 == v;
  }

  lemma {:induction false} ValueOfField(v: nat, n: nat)
    requires v < Pow2(n)
    ensures Value(Field(v, n)) == v
  {
    if n == 0 {
    } else {
      hide Value;
      ValueOfField(v / 2, n - 1);
      ValueSnoc(Field(v / 2, n - 1), v % 2 == 1);
    }
  }

  lemma {:induction false} ValueSnoc(b: bits, bit: bool)
    ensures Value(b + [bit]) == 2 * Value(b) + (if bit then 1 else 0)
  {
    assert (b + [bit])[..|b|] == b;
  }

  lemma {:induction false} FieldOfValue(b: bits)
    ensures Value(b) < Pow2(|b|)
    ensures Field(Value(b), |b|) == b
  {
    if b == [] {
    } else {
      var n := |b| - 1;
      FieldOfValue(b[..n]);
      FieldSnoc(Value(b[..n]), n, b[n]);
    }
  }

  lemma {:induction false} FieldOfZero(n: nat)
    ensures Field(0, n) == Zeros(n)
  {
    if n == 0 {
    } else {
      FieldOfZero(n - 1);
    }
  }

  lemma {:induction false} ShiftedField(v: nat, n: nat, k: nat)
    ensures Field(v * Pow2(k), n + k) == Field(v, n) + Zeros(k)
  {
    if k == 0 {
      assert Field(v, n) + [] == Field(v, n);
    } else {
      ShiftedField(v, n, k - 1);
      var w := v * Pow2(k - 1);
      assert v * Pow2(k) == 2 * w;
      FieldSnoc(w, n + k - 1, false);
      Assoc(Field(v, n), Zeros(k - 1), [false]);
    }
  }

  lemma Doubled(a: nat, p: nat, b: nat)
    ensures a * (2 * p) + b == 2 * (a * p + b / 2) + b % 2
  {
  }

  // Two fields side by side are one wider field.
  lemma {:induction false} FieldJoin(a: nat, m: nat, b: nat, k: nat)
    requires b < Pow2(k)
    ensures Field(a * Pow2(k) + b, m + k) == Field(a, m) + Field(b, k)
  {
    if k == 0 {
      assert Field(a, m) + Field(b, 0) == Field(a, m);
    } else {
      hide *;
      var p, bit := Pow2(k - 1), b % 2 == 1;
      Doubled(a, p, b);
      FieldJoin(a, m, b / 2, k - 1);
      FieldSnoc(a * p + b / 2, m + k - 1, bit);
      FieldSnoc(b / 2, k - 1, bit);
      Assoc(Field(a, m), Field(b / 2, k - 1), [bit]);
    }
  }

  // Two fields side by side, given the width of the second as a factor.
  lemma Join(a: nat, m: nat, b: nat, k: nat, factor: nat)
    requires factor == Pow2(k) && b < factor
    ensures Field(a * factor + b, m + k) == Field(a, m) + Field(b, k)
  {
    hide Field, Pow2;
    FieldJoin(a, m, b, k);
  }

  lemma SmallPowers()
    ensures Pow2(1) == 2 && Pow2(2) == 4 && Pow2(3) == 8 && Pow2(4) == 16 && Pow2(5) == 32
    ensures Pow2(6) == 64 && Pow2(7) == 128 && Pow2(8) == 256
  {
    assert Pow2(4) == 16;
  }

  lemma DivDiv(v: nat, p: nat)
    requires p > 0
    ensures (v / 2) / p == v / (2 * p)
  {
    var h := v / 2;
    var d, m := h / p, h % p;
    assert h == p * d + m;
    assert v == (2 * p) * d + (2 * m + v % 2);
    SameQuotient(2 * p, d, 2 * m + v % 2, v / (2 * p), v % (2 * p));
  }

  // Bit i of a field, as a shift and a mask extract it.
  lemma {:induction false} FieldAt(v: nat, n: nat, i: nat)
    requires i < n
    ensures Field(v, n)[i] == ((v / Pow2(n - 1 - i)) % 2 == 1)
  {
    if i == n - 1 {
    } else {
      FieldAt(v / 2, n - 1, i);
      DivDiv(v, Pow2(n - 2 - i));
    }
  }

  lemma {:induction false} BitAt(s: bytes, i: nat)
    requires i < 8 * |s|
    ensures BitsOf(s)[i] == Field(s[i / 8], 8)[i % 8]
  {
    var n := |s| - 1;
    if i >= 8 * n {
    } else {
      BitAt(s[..n], i);
    }
  }

  lemma {:induction false} BitsOfJoin(a: bytes, b: bytes)
    ensures BitsOf(a + b) == BitsOf(a) + BitsOf(b)
  {
    if b == [] {
      assert a + b == a && BitsOf(a) + [] == BitsOf(a);
    } else {
      var n := |b| - 1;
      BitsOfJoin(a, b[..n]);
      assert (a + b)[..|a + b| - 1] == a + b[..n];
      Assoc(BitsOf(a), BitsOf(b[..n]), Field(b[n], 8));
    }
  }

  lemma {:induction false} BitsOfByte(v: byte)
    ensures BitsOf([v]) == Field(v, 8)
  {
    assert [v][..0] == [];
    assert BitsOf([]) + Field(v, 8) == Field(v, 8);
  }

  lemma {:induction false} BitsOfPrefix(s: bytes, k: nat)
    requires k <= |s|
    ensures BitsOf(s[..k]) == BitsOf(s)[..8 * k]
  {
    hide BitsOf;
    assert s == s[..k] + s[k..];
    BitsOfJoin(s[..k], s[k..]);
  }

  // A buffer is known from its bits.
  lemma {:induction false} BitsOfIsInjective(a: bytes, b: bytes)
    requires BitsOf(a) == BitsOf(b)
    ensures a == b
  {
    assert 8 * |a| == 8 * |b|;
    if a == [] {
    } else {
      hide Field;
      var n := |a| - 1;
      var x, y := BitsOf(a[..n]), BitsOf(b[..n]);
      Append(x, Field(a[n], 8));
      Append(y, Field(b[n], 8));
      assert x == BitsOf(a)[..8 * n] && y == BitsOf(b)[..8 * n];
      BitsOfIsInjective(a[..n], b[..n]);
      assert Field(a[n], 8) == Field(b[n], 8);
      ByteOfField(a[n]);
      ByteOfField(b[n]);
      assert a == a[..n] + [a[n]] && b == b[..n] + [b[n]];
    }
  }

  lemma {:induction false} ByteOfField(v: byte)
    ensures Value(Field(v, 8)) == v
  {
    assert Pow2(8) == 256;
    ValueOfField(v, 8);
  }

  // ---------------------------------------------------------------------
  // Packing
  // ---------------------------------------------------------------------

  function Pack(b: bits): (s: bytes)
    decreases |b|
  {
    if b == [] then []
    else if |b| < 8 then PackByte(b + Zeros(8 - |b|))
    else PackByte(b[..8]) + Pack(b[8..])
  }

  function PackByte(b: bits): (s: bytes)
    requires |b| == 8
    ensures |s| == 1 && BitsOf(s) == b
  {
    FieldOfValue(b);
    assert Pow2(8) == 256;
    BitsOfByte(Value(b));
    [Value(b)]
  }

  lemma {:induction false} BitsOfPack(b: bits)
    ensures BitsOf(Pack(b)) == b + Zeros(Padding(|b|))
    decreases |b|
  {
    hide BitsOf, PackByte, Padding, Zeros;
    if b == [] {
      NoBits();
      assert b + Zeros(0) == [];
    } else if |b| >= 8 {
      var rest := b[8..];
      BitsOfPack(rest);
      BitsOfJoin(PackByte(b[..8]), Pack(rest));
      assert b == b[..8] + rest;
      Assoc(b[..8], rest, Zeros(Padding(|b|)));
    }
  }

  lemma NoBits()
    ensures BitsOf([]) == []
  {
  }

  lemma {:induction false} PackLength(b: bits)
    ensures 8 * |Pack(b)| == |b| + Padding(|b|)
  {
    hide BitsOf, Pack;
    BitsOfPack(b);
  }

  // ---------------------------------------------------------------------
  // The reader
  // ---------------------------------------------------------------------

  // An n-bit read from the bits still to come: what is left of them when the
  // input runs short.
  function Take(b: bits, n: nat): nat {
    Value(if n <= |b| then b[..n] else b)
  }

  function Rest(b: bits, n: nat): bits {
    if n <= |b| then b[n..] else []
  }

  class BitReader {
    const data: bytes
    var pos: nat
    var truncated: bool

    ghost predicate Valid() reads this {
      pos <= 8 * |data| && (truncated ==> pos == 8 * |data|)
    }

    ghost function Left(): bits
      requires Valid()
      reads this
    {
      BitsOf(data)[pos..]
    }

    constructor (data: bytes)
      ensures Valid() && this.data == data && !truncated && Left() == BitsOf(data)
    {
      this.data := data;
      pos, truncated := 0, false;
    }

    method Read(n: nat) returns (v: nat)
      requires Valid()
      modifies this`pos, this`truncated
      ensures Valid()
      ensures v == Take(old(Left()), n) && Left() == Rest(old(Left()), n)
      ensures truncated == (old(truncated) || |old(Left())| < n)
    {
      hide BitsOf, Field;
      v := 0;
      var i := 0;
      ghost var left := Left();
      while i < n
        invariant 0 <= i <= n && i <= |left|
        invariant Valid() && pos == old(pos) + i
        invariant v == Value(left[..i])
        invariant truncated == old(truncated)
      {
        if pos >= 8 * |data| {
          assert left[..i] == left;
          truncated := true;
          return;
        }
        var bit := 7 - pos % 8;
        FieldAt(data[pos / 8], 8, pos % 8);
        BitAt(data, pos);
        assert left[..i + 1][..i] == left[..i];
        v := v * 2 + (data[pos / 8] / Pow2(bit)) % 2;
        pos := pos + 1;
        i := i + 1;
      }
    }
  }

  lemma {:induction false} TakeField(v: nat, n: nat, rest: bits)
    ensures v < Pow2(n) ==> Take(Field(v, n) + rest, n) == v
    ensures Take(Field(v, n) + rest, n) < Pow2(n)
    ensures Rest(Field(v, n) + rest, n) == rest
  {
    hide Field, Pow2, Value;
    Append(Field(v, n), rest);
    FieldOfValue(Field(v, n));
    if v < Pow2(n) { ValueOfField(v, n); }
  }

  lemma {:induction false} TakeIsBelow(b: bits, n: nat)
    ensures Take(b, n) < Pow2(n)
    ensures |b| < n ==> Take(b, n) < Pow2(|b|) && Rest(b, n) == []
  {
    hide Value, Pow2;
    var t := if n <= |b| then b[..n] else b;
    FieldOfValue(t);
    PowGrows(|t|, n);
  }

  lemma TakePrefix(b: bits, m: nat, n: nat)
    requires m <= |b|
    ensures n <= m ==> Take(b[..m], n) == Take(b, n) && Rest(b[..m], n) == Rest(b, n)[..m - n]
    ensures n > m ==> Rest(b[..m], n) == []
    ensures Rest(b, n) == b[if n <= |b| then n else |b|..]
  {
    if n <= m {
      assert b[..m][..n] == b[..n];
      assert b[..m][n..] == b[n..][..m - n];
    }
  }

  // ---------------------------------------------------------------------
  // The writer
  // ---------------------------------------------------------------------

  class BitWriter {
    var out: bytes
    var accum: byte
    var pending: nat

    ghost predicate Valid() reads this {
      pending < 8 && accum < Pow2(pending)
    }

    ghost function Written(): bits reads this {
      BitsOf(out) + Field(accum, pending)
    }

    constructor (out: bytes)
      ensures Valid() && Written() == BitsOf(out) && pending == 0
    {
      this.out := out;
      accum, pending := 0, 0;
    }

    method FlushByte()
      requires pending == 8
      modifies this
      ensures Valid() && Written() == old(Written()) && pending == 0
    {
      BitsOfByte(accum);
      BitsOfJoin(out, [accum]);
      out := out + [accum];
      accum, pending := 0, 0;
    }

    method WriteBit(bit: nat)
      requires Valid() && bit < 2
      modifies this
      ensures Valid() && Written() == old(Written()) + [bit == 1]
    {
      hide BitsOf, Field, Pow2;
      FieldSnoc(accum, pending, bit == 1);
      AccumFits(accum, pending);
      Assoc(BitsOf(out), Field(accum, pending), [bit == 1]);
      accum := accum * 2 + bit;
      pending := pending + 1;
      if pending == 8 { FlushByte(); }
    }

    method Write(value: nat, n: nat)
      requires Valid()
      modifies this
      ensures Valid() && Written() == old(Written()) + Field(value, n)
    {
      hide Field;
      var i := 0;
      ghost var f := Field(value, n);
      assert Written() + f[..0] == Written();
      while i < n
        invariant 0 <= i <= n
        invariant Valid() && Written() == old(Written()) + f[..i]
      {
        FieldAt(value, n, i);
        assert f[..i + 1] == f[..i] + [f[i]];
        Assoc(old(Written()), f[..i], [f[i]]);
        WriteBit((value / Pow2(n - 1 - i)) % 2);
        i := i + 1;
      }
      assert f[..n] == f;
    }

    // Pads to a byte boundary: afterwards `out` alone holds every bit.
    method Finalize()
      requires Valid()
      modifies this
      ensures Valid() && pending == 0
      ensures BitsOf(out) == old(Written()) + Zeros(Padding(|old(Written())|))
    {
      hide Field, BitsOf, Padding, Zeros, Pow2;
      PaddingOf(|out|, pending, |Written()|);
      if pending != 0 {
        ghost var k := 8 - pending;
        ShiftedField(accum, pending, k);
        AccumShifted(accum, pending);
        accum := accum * Pow2(8 - pending);
        BitsOfByte(accum);
        BitsOfJoin(out, [accum]);
        Assoc(BitsOf(out), Field(old(accum), old(pending)), Zeros(k));
        out := out + [accum];
        accum, pending := 0, 0;
      } else {
        assert BitsOf(out) + [] + [] == BitsOf(out);
      }
    }
  }

  lemma AccumFits(a: nat, pending: nat)
    requires pending < 8 && a < Pow2(pending)
    ensures a * 2 + 1 < Pow2(pending + 1) && a * 2 + 1 < 256
  {
    assert Pow2(7) == 128;
    PowGrows(pending, 7);
  }

  lemma AccumShifted(a: nat, pending: nat)
    requires 0 < pending < 8 && a < Pow2(pending)
    ensures a * Pow2(8 - pending) < 256
  {
    PowSum(pending, 8 - pending);
    assert Pow2(8) == 256;
    assert a * Pow2(8 - pending) < Pow2(pending) * Pow2(8 - pending);
  }

  lemma {:induction false} PowGrows(a: nat, b: nat)
    requires a <= b
    ensures Pow2(a) <= Pow2(b)
  {
    if a == b {
    } else {
      PowGrows(a, b - 1);
    }
  }

  lemma {:induction false} PowSum(a: nat, b: nat)
    ensures Pow2(a + b) == Pow2(a) * Pow2(b)
  {
    if b == 0 {
    } else {
      PowSum(a, b - 1);
    }
  }

  lemma PaddingOf(whole: nat, pending: nat, n: nat)
    requires pending < 8 && n == 8 * whole + pending
    ensures Padding(n) == if pending == 0 then 0 else 8 - pending
  {
    PaddingModulo(whole, pending);
  }

  lemma PaddingModulo(whole: nat, n: nat)
    ensures Padding(8 * whole + n) == Padding(n)
  {
    SameQuotient(8, (8 * whole + n) / 8, (8 * whole + n) % 8, whole + n / 8, n % 8);
  }

}
