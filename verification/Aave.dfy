/** Decoding the pool's per-user bitmap of reserves, with its inverse. */
module Aave {
  datatype ReserveFlags = ReserveFlags(borrowing: bool, collateral: bool)

  const U128_BITS: nat := 128

  function Pow4(n: nat): nat
    ensures Pow4(n) > 0
  {
    if n == 0 then 1 else 4 * Pow4(n - 1)
  }

  /** `bitmap >> k`, for `k` below the width of the word. */
  function Shr(bitmap: nat, k: nat): nat {
    if k == 0 then bitmap else Shr(bitmap / 2, k - 1)
  }

  predicate Bit(bitmap: nat, k: nat) {
    Shr(bitmap, k) % 2 == 1
  }

  /** Reserve `i` uses bits `2 * i` and `2 * i + 1`; past 64 reserves a shift would leave the 128-bit word. */
  function Decode(bitmap: nat, reserves: nat): (flags: seq<ReserveFlags>)
    requires 2 * reserves <= U128_BITS
    ensures |flags| == reserves
  {
    seq(reserves, i requires 0 <= i => ReserveFlags(Bit(bitmap, 2 * i), Bit(bitmap, 2 * i + 1)))
  }

  function Encode(flags: seq<ReserveFlags>): nat {
    if flags == [] then 0 else
    (if flags[0].borrowing then 1 else 0) + (if flags[0].collateral then 2 else 0) + 4 * Encode(flags[1..])
  }

  lemma DecodeStep(bitmap: nat, n: nat)
    requires 0 < n && 2 * n <= U128_BITS
    ensures Decode(bitmap, n) == [FirstFlags(bitmap)] + Decode(bitmap / 4, n - 1)
  {
    var rest := Decode(bitmap / 4, n - 1);
    forall i: nat | i < n - 1 ensures Decode(bitmap, n)[i + 1] == rest[i] {
      assert Shr(bitmap, 2 * i + 2) == Shr(bitmap / 4, 2 * i);
      assert Shr(bitmap, 2 * i + 3) == Shr(bitmap / 4, 2 * i + 1);
    }
    assert Shr(bitmap, 1) == bitmap / 2;
  }

  lemma Multiples(d: nat, x: int)
    ensures x >= 1 ==> d * x >= d
    ensures x <= -1 ==> d * x <= -(d as int)
  {
  }

  lemma ModUnique(a: nat, d: nat, c: nat, r: nat)
    requires a == d * c + r && r < d
    ensures a % d == r && a / d == c
  {
    var x := a / d - c;
    assert a == d * (a / d) + a % d;
    assert d * x == d * (a / d) - d * c;
    Multiples(d, x);
  }

  lemma ModFour(a: nat, p: nat)
    requires p > 0
    ensures a % (4 * p) == 4 * (a / 4 % p) + a % 4
    ensures a / (4 * p) == a / 4 / p
  {
    var c, r := a / 4 / p, a / 4 % p;
    assert a / 4 == p * c + r;
    assert (4 * p) * c == 4 * (p * c);
    ModUnique(a, 4 * p, c, 4 * r + a % 4);
  }

  lemma EmptyEncodes(bitmap: nat)
    ensures Decode(bitmap, 0) == [] && Encode([]) == 0 == bitmap % Pow4(0) && Pow4(0) == 1
  {
  }

  lemma EncodeCons(flag: ReserveFlags, rest: seq<ReserveFlags>)
    ensures Encode([flag] + rest)
         == (if flag.borrowing then 1 else 0) + (if flag.collateral then 2 else 0) + 4 * Encode(rest)
  {
  }

  function FirstFlags(bitmap: nat): ReserveFlags {
    ReserveFlags(bitmap % 2 == 1, bitmap / 2 % 2 == 1)
  }

  lemma FirstBits(bitmap: nat)
    ensures var f := FirstFlags(bitmap);
      bitmap % 4 == (if f.borrowing then 1 else 0) + if f.collateral then 2 else 0
  {
  }

  lemma Pow4Step(n: nat)
    ensures Pow4(n + 1) == 4 * Pow4(n)
  {
  }

  /** Reserve `i` is borrowed when bit `2 * i` of the word is set, and collateral when bit `2 * i + 1` is. */
  lemma {:induction false} FlagsAreBits(bitmap: nat, n: nat, i: nat)
    requires 2 * n <= U128_BITS && i < n
    ensures Decode(bitmap, n)[i].borrowing <==> bitmap / Pow4(i) % 2 == 1
    ensures Decode(bitmap, n)[i].collateral <==> bitmap / Pow4(i) / 2 % 2 == 1
    decreases n
  {
    hide Decode, Pow4;
    DecodeStep(bitmap, n);
    if i == 0 {
      EmptyEncodes(bitmap);
    } else {
      FlagsAreBits(bitmap / 4, n - 1, i - 1);
      ModFour(bitmap, Pow4(i - 1));
      Pow4Step(i - 1);
    }
  }

  /** Encoding what was decoded gives back the bits the reserves use. */
  lemma {:induction false} EncodeAfterDecode(bitmap: nat, n: nat)
    requires 2 * n <= U128_BITS
    ensures Encode(Decode(bitmap, n)) == bitmap % Pow4(n)
    decreases n
  {
    hide Decode, Encode, Pow4, FirstFlags;
    if n == 0 {
      EmptyEncodes(bitmap);
    } else {
      DecodeStep(bitmap, n);
      EncodeAfterDecode(bitmap / 4, n - 1);
      EncodeCons(FirstFlags(bitmap), Decode(bitmap / 4, n - 1));
      FirstBits(bitmap);
      ModFour(bitmap, Pow4(n - 1));
      Pow4Step(n - 1);
    }
  }

  /** Decoding what was encoded gives back every flag. */
  lemma {:induction false} DecodeAfterEncode(flags: seq<ReserveFlags>)
    requires 2 * |flags| <= U128_BITS
    ensures Encode(flags) < Pow4(|flags|) && Decode(Encode(flags), |flags|) == flags
    decreases |flags|
  {
    hide Decode, Encode, Pow4, FirstFlags;
    if flags == [] {
      EmptyEncodes(0);
    } else {
      var b := Encode(flags);
      assert flags == [flags[0]] + flags[1..];
      EncodeCons(flags[0], flags[1..]);
      DecodeAfterEncode(flags[1..]);
      DecodeStep(b, |flags|);
      Pow4Step(|flags| - 1);
      LowBits(flags[0], Encode(flags[1..]));
    }
  }

  lemma LowBits(flag: ReserveFlags, rest: nat)
    ensures var b := (if flag.borrowing then 1 else 0) + (if flag.collateral then 2 else 0) + 4 * rest;
      FirstFlags(b) == flag && b / 4 == rest
  {
    var x, y := if flag.borrowing then 1 else 0, if flag.collateral then 1 else 0;
    Halve(y + 2 * rest, x);
    Halve(rest, y);
    assert (x + 2 * y + 4 * rest) / 4 == rest;
  }

  lemma Halve(h: nat, x: nat)
    requires x < 2
    ensures (x + 2 * h) / 2 == h && (x + 2 * h) % 2 == x
  {
  }
}
