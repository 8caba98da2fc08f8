/**
 Proof of work (aikiri_ledger/witness.py, `_target` and `_worked`): the target a
 Bitcoin header claims, and the header's own hash against it.
 */
module CompactTarget {
  import opened Wrappers
  import opened Bytes
  import opened Crypto

  function Pow256(e: nat): (n: nat)
    ensures n >= 1
  {
    if e == 0 then 1 else 256 * Pow256(e - 1)
  }

  lemma {:induction false} Pow256Splits(d: nat, e: nat)
    ensures Pow256(d + e) == Pow256(d) * Pow256(e)
  {
    if d > 0 {
      Pow256Splits(d - 1, e);
    }
  }

  /******* Compact form: 8 bits of exponent, a sign, 23 bits of mantissa *******/

  function Exponent(bits: nat): (e: nat) {
    bits / 0x100_0000
  }

  function Mantissa(bits: nat): (m: nat)
    ensures m < 0x80_0000
  {
    bits % 0x80_0000
  }

  predicate Negative(bits: nat) {
    bits / 0x80_0000 % 2 == 1
  }

  /** `_target`. */
  function Target(bits: nat): (t: nat)
    ensures Negative(bits) ==> t == 0
  {
    var e, m := Exponent(bits), Mantissa(bits);
    if Negative(bits) || m == 0 then 0
    else if e >= 3 then m * Pow256(e - 3)
    else m / Pow256(3 - e)
  }

  /** The mantissa scaled by 256^(exponent - 3), rounded down, whichever way it shifts. */
  lemma TargetIsScaledMantissa(bits: nat)
    requires !Negative(bits)
    ensures Target(bits) == Mantissa(bits) * Pow256(Exponent(bits)) / Pow256(3)
  {
    var e, m := Exponent(bits), Mantissa(bits);
    assert Pow256(3) == 0x100_0000;
    if e >= 3 {
      Pow256Splits(e - 3, 3);
      assert m * (Pow256(e - 3) * 0x100_0000) == m * Pow256(e - 3) * 0x100_0000;
    } else {
      assert Pow256(1) == 0x100 && Pow256(2) == 0x1_0000;
      assert e == 0 || e == 1 || e == 2;
    }
  }

  /** A mantissa written as Bitcoin writes it: no shorter one says the same. */
  predicate Normalised(bits: nat) {
    !Negative(bits) && Mantissa(bits) >= 0x8000
  }

  lemma Scaled(a: nat, b: nat, p: nat)
    requires a < b && p > 0
    ensures a * p < b * p
  {
  }

  /** One step of exponent outweighs the whole range of the mantissa. */
  lemma ExponentDominates(ma: nat, mb: nat, d: nat, e: nat)
    requires ma < 0x80_0000 && 0x8000 <= mb && d > 0
    ensures ma * Pow256(e) < mb * Pow256(d + e)
  {
    Pow256Splits(d, e);
    WideEnough(mb, Pow256(d));
    Scaled(ma, mb * Pow256(d), Pow256(e));
    Regroup(mb, Pow256(d), Pow256(e));
  }

  lemma WideEnough(mb: nat, q: nat)
    requires 0x8000 <= mb && q >= 256
    ensures mb * q >= 0x80_0000
  {
  }

  lemma Regroup(a: nat, b: nat, c: nat)
    ensures a * (b * c) == a * b * c
  {
  }

  /** A larger compact value is an easier target. */
  lemma TargetIncreases(a: nat, b: nat)
    requires a < b && Normalised(a) && Normalised(b) && Exponent(a) >= 3
    ensures Target(a) < Target(b)
  {
    hide Pow256;
    var ea, eb, ma, mb := Exponent(a), Exponent(b), Mantissa(a), Mantissa(b);
    assert a == ea * 0x100_0000 + ma && b == eb * 0x100_0000 + mb;
    if ea == eb {
      Scaled(ma, mb, Pow256(ea - 3));
    } else {
      ExponentDominates(ma, mb, eb - ea, ea - 3);
    }
  }

  /** Below exponent 3 bytes fall off the mantissa, and two targets can meet. */
  lemma SmallExponentsMeet()
    ensures var a, b := 0x0200_8000, 0x0200_8001;
      Normalised(a) && Normalised(b) && a < b && Target(a) == Target(b)
  {
  }

  /******* Bytes as numbers *******/

  /** `int.from_bytes(b, "little")`. */
  function LittleEndian(b: Bytes): (n: nat) {
    if b == [] then 0 else b[0] + 256 * LittleEndian(b[1..])
  }

  /** A number as it is shown: most significant byte first. */
  function BigEndian(b: Bytes): (n: nat) {
    if b == [] then 0 else 256 * BigEndian(b[..|b| - 1]) + b[|b| - 1]
  }

  /** `b[::-1]`. */
  function Reversed(b: Bytes): (r: Bytes)
    ensures |r| == |b|
    ensures forall i | 0 <= i < |b| :: r[i] == b[|b| - 1 - i]
  {
    seq(|b|, i requires 0 <= i < |b| => b[|b| - 1 - i])
  }

  lemma {:induction false} LittleIsBigReversed(b: Bytes)
    ensures LittleEndian(b) == BigEndian(Reversed(b))
  {
    if b != [] {
      LittleIsBigReversed(b[1..]);
      assert Reversed(b)[..|b| - 1] == Reversed(b[1..]);
    }
  }

  /******* The header *******/

  const HEADER_SIZE := 80
  const DIFFICULTY: nat := 50_000_000_000_000
  const DIFFICULTY_ONE: nat := 0xffff_0000_0000_0000_0000_0000_0000_0000_0000_0000_0000_0000_0000_0000
  const MAX_TARGET: nat := DIFFICULTY_ONE / DIFFICULTY

  datatype Header = Header(merkleRoot: Bytes, time: nat)

  datatype Unworked = OtherBlock | TooEasy | MissesTarget

  function DoubleSha(w: World, raw: Bytes): (h: Digest) {
    w.sha(w.sha(raw))
  }

  function Bits(raw: Bytes): (bits: nat)
    requires |raw| == HEADER_SIZE
  {
    LittleEndian(raw[72..76])
  }

  /** `_worked`. */
  function Worked(w: World, raw: Bytes, blockHash: Bytes): (r: Result<Header, Unworked>)
    requires |raw| == HEADER_SIZE
  {
    var h := DoubleSha(w, raw);
    var target := Target(Bits(raw));
    if Reversed(h) != blockHash then Err(OtherBlock)
    else if target > MAX_TARGET then Err(TooEasy)
    else if LittleEndian(h) > target then Err(MissesTarget)
    else Ok(Header(raw[36..68], LittleEndian(raw[68..72])))
  }

  lemma BelowQuotient(t: nat)
    ensures t <= MAX_TARGET <==> t * DIFFICULTY <= DIFFICULTY_ONE
  {
  }

  /** A header is taken if and only if it is the block it was given for, the number its
      hash is shown as meets its own target, and that target is at least 5 * 10^13
      times as hard as difficulty one. */
  lemma TakenIffWorked(w: World, raw: Bytes, blockHash: Bytes)
    requires |raw| == HEADER_SIZE
    ensures Worked(w, raw, blockHash).Ok? <==>
      && blockHash == Reversed(w.sha(w.sha(raw)))
      && BigEndian(blockHash) <= Target(Bits(raw))
      && Target(Bits(raw)) * DIFFICULTY <= DIFFICULTY_ONE
  {
    LittleIsBigReversed(DoubleSha(w, raw));
    BelowQuotient(Target(Bits(raw)));
  }

  /** What is read off a header that is taken, field by field. */
  lemma TakenHeaderIs(w: World, version: Bytes, previous: Bytes, root: Bytes, time: Bytes, bits: Bytes, nonce: Bytes, blockHash: Bytes)
    requires |version| == 4 && |previous| == 32 && |root| == 32 && |time| == 4 && |bits| == 4 && |nonce| == 4
    ensures var raw := version + previous + root + time + bits + nonce;
      && |raw| == HEADER_SIZE
      && Bits(raw) == LittleEndian(bits)
      && (Worked(w, raw, blockHash).Ok? ==> Worked(w, raw, blockHash).value == Header(root, LittleEndian(time)))
  {
    hide LittleEndian, Target, DoubleSha;
    var raw := version + previous + root + time + bits + nonce;
    assert raw[36..68] == root && raw[68..72] == time && raw[72..76] == bits;
  }

  /** So no header passes on the word of its source: its work is bounded from below. */
  lemma TakenHashIsSmall(w: World, raw: Bytes, blockHash: Bytes)
    requires |raw| == HEADER_SIZE && Worked(w, raw, blockHash).Ok?
    ensures BigEndian(blockHash) * DIFFICULTY <= DIFFICULTY_ONE
  {
    hide Target, Worked, BigEndian;
    TakenIffWorked(w, raw, blockHash);
  }
}
