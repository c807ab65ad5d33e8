/** Bytes and the numbers that they stand for. */
module Bytes {

  function ToNat(b: bv8): (n: nat) {
    b as nat
  }

  /** The byte with a given number, bit by bit. */
  function FromNat(x: nat): bv8
    requires x < 256
  {
    if x < 128 then Low7(x) else Low7(x - 128) | 128
  }

  function Low7(x: nat): bv8
    requires x < 128
  {
    if x < 64 then Low6(x) else Low6(x - 64) | 64
  }

  function Low6(x: nat): bv8
    requires x < 64
  {
    if x < 32 then Low5(x) else Low5(x - 32) | 32
  }

  function Low5(x: nat): bv8
    requires x < 32
  {
    if x < 16 then Low4(x) else Low4(x - 16) | 16
  }

  function Low4(x: nat): bv8
    requires x < 16
  {
    if x == 0 then 0 else if x == 1 then 1 else if x == 2 then 2 else if x == 3 then 3
    else if x == 4 then 4 else if x == 5 then 5 else if x == 6 then 6 else if x == 7 then 7
    else if x == 8 then 8 else if x == 9 then 9 else if x == 10 then 10 else if x == 11 then 11
    else if x == 12 then 12 else if x == 13 then 13 else if x == 14 then 14 else 15
  }

  lemma SetBit(b: bv8)
    ensures b < 16 ==> ToNat(b | 16) == ToNat(b) + 16 && b | 16 < 32
    ensures b < 32 ==> ToNat(b | 32) == ToNat(b) + 32 && b | 32 < 64
    ensures b < 64 ==> ToNat(b | 64) == ToNat(b) + 64 && b | 64 < 128
    ensures b < 128 ==> ToNat(b | 128) == ToNat(b) + 128
  {
  }

  lemma Low4RoundTrip(x: nat)
    requires x < 16
    ensures ToNat(Low4(x)) == x && Low4(x) < 16
  {
  }

  lemma Low5RoundTrip(x: nat)
    requires x < 32
    ensures ToNat(Low5(x)) == x && Low5(x) < 32
  {
    var y := if x < 16 then x else x - 16;
    Low4RoundTrip(y);
    SetBit(Low4(y));
  }

  lemma Low6RoundTrip(x: nat)
    requires x < 64
    ensures ToNat(Low6(x)) == x && Low6(x) < 64
  {
    var y := if x < 32 then x else x - 32;
    Low5RoundTrip(y);
    SetBit(Low5(y));
  }

  lemma Low7RoundTrip(x: nat)
    requires x < 128
    ensures ToNat(Low7(x)) == x && Low7(x) < 128
  {
    var y := if x < 64 then x else x - 64;
    Low6RoundTrip(y);
    SetBit(Low6(y));
  }

  lemma NumberRoundTrip(x: nat)
    requires x < 256
    ensures ToNat(FromNat(x)) == x
  {
    var y := if x < 128 then x else x - 128;
    Low7RoundTrip(y);
    SetBit(Low7(y));
  }

  lemma Injective(b: bv8, c: bv8)
    requires ToNat(b) == ToNat(c)
    ensures b == c
  {
  }

  lemma ByteRoundTrip(b: bv8)
    ensures ToNat(b) < 256 && FromNat(ToNat(b)) == b
  {
    NumberRoundTrip(ToNat(b));
    Injective(FromNat(ToNat(b)), b);
  }

  /** The two lowest bits of a byte are its remainder. */
  lemma LowBits(b: bv8)
    ensures b & 3 == 0 <==> ToNat(b) % 4 == 0
  {
  }

  lemma FiveBits(b: bv8)
    ensures ToNat(b & 31) < 32 && (b < 32 ==> b & 31 == b)
  {
  }
}
