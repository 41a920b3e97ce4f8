// Bytes, big-endian words and the library's error codes.

module Errors {
  // The subset of the library's error codes that the modelled code returns.
  datatype Error =
    | Ok
    | OutOfRange
    | CorruptData
    | NotSupported
    | Invalid
    | InvalidArgument
    | NoSpace
    | NotOpen
    | AlreadyOpen
    | NotExist
    | Busy
    | TryAgain
    | Failed
}

module Bytes {
  type byte = x: int | 0 <= x < 256
  type bytes = seq<byte>

  const TWO_16: int := 0x1_0000
  const TWO_32: int := 0x1_0000_0000

  type u16 = x: int | 0 <= x < 0x1_0000
  type u32 = x: int | 0 <= x < 0x1_0000_0000
  type u64 = x: int | 0 <= x < 0x1_0000_0000_0000_0000

  function StoreU16(v: u16): (s: bytes)
    ensures |s| == 2
  {
    [v / 256, v % 256]
  }

  function LoadU16(s: bytes): u16
    requires |s| >= 2
  {
    var b0: int, b1: int := s[0], s[1];
    b0 * 256 + b1
  }

  function StoreU32(v: u32): (s: bytes)
    ensures |s| == 4
  {
    StoreU16(v / TWO_16) + StoreU16(v % TWO_16)
  }

  function LoadU32(s: bytes): u32
    requires |s| >= 4
  {
    var hi: int, lo: int := LoadU16(s), LoadU16(s[2..]);
    hi * TWO_16 + lo
  }

  // A double is carried as its opaque 64-bit pattern, stored as two halves.
  function StoreU64(v: u64): (s: bytes)
    ensures |s| == 8
  {
    StoreU32(v / TWO_32) + StoreU32(v % TWO_32)
  }

  function LoadU64(s: bytes): u64
    requires |s| >= 8
  {
    var hi: int, lo: int := LoadU32(s), LoadU32(s[4..]);
    hi * TWO_32 + lo
  }

  // The two facts about concatenation that codec proofs lean on.
  lemma Append<T>(a: seq<T>, b: seq<T>)
    ensures (a + b)[|a|..] == b && (a + b)[..|a|] == a
  {
  }

  lemma Assoc<T>(a: seq<T>, b: seq<T>, c: seq<T>)
    ensures a + b + c == a + (b + c)
  {
  }

  lemma StoreLoadU16(v: u16, rest: bytes)
    ensures LoadU16(StoreU16(v) + rest) == v
  {
  }

  lemma StoreLoadU32(v: u32, rest: bytes)
    ensures LoadU32(StoreU32(v) + rest) == v
  {
    hide StoreU16, LoadU16;
    var hi, lo := StoreU16(v / TWO_16), StoreU16(v % TWO_16);
    Assoc(hi, lo, rest);
    Append(hi, lo + rest);
    StoreLoadU16(v / TWO_16, lo + rest);
    StoreLoadU16(v % TWO_16, rest);
  }

  lemma StoreLoadU64(v: u64, rest: bytes)
    ensures LoadU64(StoreU64(v) + rest) == v
  {
    hide StoreU32, LoadU32;
    var hi, lo := StoreU32(v / TWO_32), StoreU32(v % TWO_32);
    Assoc(hi, lo, rest);
    Append(hi, lo + rest);
    StoreLoadU32(v / TWO_32, lo + rest);
    StoreLoadU32(v % TWO_32, rest);
  }
}
