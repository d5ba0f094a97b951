/** Feature masks: exactly one bit may be set, and its position selects the slot in the feature table. */
module Features {
  import opened Word32

  ghost function PopCount(f: nat): nat {
    if f == 0 then 0 else f % 2 + PopCount(f / 2)
  }

  /** Position of the lowest set bit. */
  ghost function LowBit(f: nat): nat
    requires f > 0
  {
    if f % 2 == 1 then 0 else 1 + LowBit(f / 2)
  }

  ghost function Pow2(k: nat): (r: nat)
    ensures r > 0
  {
    if k == 0 then 1 else 2 * Pow2(k - 1)
  }

  /** A feature mask names one slot. */
  ghost predicate IsFeature(f: Word) {
    PopCount(f) == 1
  }

  lemma {:induction false} NoBits(f: nat)
    requires PopCount(f) == 0
    ensures f == 0
  {
    if f != 0 {
      NoBits(f / 2);
    }
  }

  /** One bit set means a power of two, and the slot is its exponent. */
  lemma {:induction false} FeatureIsPower(f: nat)
    requires f > 0
    ensures PopCount(f) == 1 <==> f == Pow2(LowBit(f))
  {
    if f % 2 == 1 {
      if PopCount(f) == 1 {
        NoBits(f / 2);
      }
    } else {
      FeatureIsPower(f / 2);
    }
  }

  lemma HalveQuotient(f: Word, mask: int)
    requires mask > 0
    ensures f / (2 * mask) == f / mask / 2
  {
    var q, r := f / mask, f % mask;
    var h, b := q / 2, q % 2;
    assert f == mask * q + r;
    assert q == 2 * h + b;
    assert mask * q == mask * (2 * h) + mask * b;
    assert mask * (2 * h) == (2 * mask) * h;
    assert b == 0 || b == 1;
    assert 0 <= mask * b + r < 2 * mask;
    QuotientUnique(f, 2 * mask, h, mask * b + r);
  }

  /** `mask << 1` on 32 bits, for a mask with one bit. */
  function Shift(mask: Word): Word {
    if 2 * mask < W then 2 * mask else 2 * mask - W
  }

  /** Counts set bits up to two; 0 means exactly one bit is set. */
  method CheckFeature(feature: Word) returns (r: int)
    ensures r == if IsFeature(feature) then 0 else -1
  {
    var found, mask: Word := 0, 1;
    ghost var i, rest := 0, feature as nat;
    Pow2At32();
    assert feature / 1 == feature;
    while mask > 0
      invariant 0 <= i <= 32 && mask == (if i < 32 then Pow2(i) else 0)
      invariant rest == (if i < 32 then feature / Pow2(i) else 0)
      invariant 0 <= found <= 1 && PopCount(feature) == found + PopCount(rest)
      decreases 32 - i
    {
      if (feature / mask) % 2 != 0 {
        found := found + 1;
      }
      if found > 1 {
        break;
      }
      Pow2Bounds(i);
      HalveQuotient(feature, mask);
      if i == 31 {
        assert feature < 2 * Pow2(31);
        QuotientUnique(feature, 2 * mask, 0, feature);
      }
      rest := rest / 2;
      i := i + 1;
      mask := Shift(mask);
    }
    r := if found == 1 then 0 else -1;
  }

  lemma Pow2At32()
    ensures Pow2(31) == 0x8000_0000 && Pow2(32) == W
  {
    assert Pow2(8) == 256;
    assert Pow2(16) == 0x1_0000;
    assert Pow2(24) == 0x100_0000;
    assert Pow2(31) == 0x8000_0000;
  }

  lemma {:induction false} Pow2Mono(i: nat, j: nat)
    requires i <= j
    ensures Pow2(i) <= Pow2(j)
  {
    if i < j {
      Pow2Mono(i, j - 1);
    }
  }

  lemma Pow2Bounds(i: nat)
    requires i < 32
    ensures 0 < Pow2(i) <= 0x8000_0000
    ensures i < 31 ==> Pow2(i + 1) <= 0x8000_0000
  {
    Pow2At32();
    Pow2Mono(0, i);
    Pow2Mono(i, 31);
    if i < 31 {
      Pow2Mono(i + 1, 31);
    }
  }

  /** The slot a feature mask selects. */
  method FeatureIndex(feature: Word) returns (idx: nat)
    requires feature > 0
    ensures idx == LowBit(feature)
  {
    var mask: Word := 1;
    idx := 0;
    ghost var rest := feature as nat;
    Pow2At32();
    LowBitBound(feature, 32);
    assert feature / 1 == feature;
    while (feature / mask) % 2 == 0
      invariant idx <= LowBit(feature) < 32 && mask == Pow2(idx)
      invariant rest > 0 && rest == feature / Pow2(idx) && LowBit(feature) == idx + LowBit(rest)
      decreases LowBit(feature) - idx
    {
      Pow2Bounds(idx);
      HalveQuotient(feature, mask);
      rest := rest / 2;
      idx := idx + 1;
      mask := Shift(mask);
    }
  }

  lemma {:induction false} LowBitBound(f: nat, k: nat)
    requires 0 < f < Pow2(k)
    ensures LowBit(f) < k
  {
    if f % 2 == 0 {
      LowBitBound(f / 2, k - 1);
    }
  }
}
