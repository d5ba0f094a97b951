/** Bitmaps of resources in use: searched a double word at a time, marked a byte at a time. */
module Bitmaps {
  function Mask8(k: nat): bv8
    requires k < 8
  {
    (1 as bv8) << k
  }

  function Mask32(k: nat): bv32
    requires k < 32
  {
    (1 as bv32) << k
  }

  predicate Bit8(b: bv8, k: nat)
    requires k < 8
  {
    Mask8(k) & b != 0
  }

  predicate Bit32(x: bv32, k: nat)
    requires k < 32
  {
    Mask32(k) & x != 0
  }

  function Set8(b: bv8, k: nat): bv8
    requires k < 8
  {
    b | Mask8(k)
  }

  /** Bit `i` of the map: the numbering that marking uses. */
  predicate Taken(m: seq<bv8>, i: nat)
    requires i / 8 < |m|
  {
    Bit8(m[i / 8], i % 8)
  }

  function Marked(m: seq<bv8>, i: nat): seq<bv8>
    requires i / 8 < |m|
  {
    m[i / 8 := Set8(m[i / 8], i % 8)]
  }

  lemma SetBit(b: bv8, k: nat, i: nat)
    requires k < 8 && i < 8
    ensures Bit8(Set8(b, k), i) <==> Bit8(b, i) || i == k
  {
  }

  /** Marking takes one number and no other. */
  lemma MarkedTaken(m: seq<bv8>, i: nat, j: nat)
    requires i / 8 < |m| && j / 8 < |m|
    ensures Taken(Marked(m, i), j) <==> Taken(m, j) || j == i
  {
    hide Bit8, Set8;
    if i / 8 == j / 8 {
      SetBit(m[i / 8], i % 8, j % 8);
    }
  }

  // ---------- double words ----------

  function Combine(b0: bv8, b1: bv8, b2: bv8, b3: bv8): bv32 {
    (b0 as bv32) | ((b1 as bv32) << 8) | ((b2 as bv32) << 16) | ((b3 as bv32) << 24)
  }

  /** The double word at byte offset `at`, lowest byte first. */
  function Dword(m: seq<bv8>, at: nat): bv32
    requires at + 4 <= |m|
  {
    Combine(m[at], m[at + 1], m[at + 2], m[at + 3])
  }

  lemma Lane0(b0: bv8, b1: bv8, b2: bv8, b3: bv8, k: nat)
    requires k < 8
    ensures Bit32(Combine(b0, b1, b2, b3), k) <==> Bit8(b0, k)
  {
  }

  lemma Lane1(b0: bv8, b1: bv8, b2: bv8, b3: bv8, k: nat)
    requires k < 8
    ensures Bit32(Combine(b0, b1, b2, b3), 8 + k) <==> Bit8(b1, k)
  {
  }

  lemma Lane2(b0: bv8, b1: bv8, b2: bv8, b3: bv8, k: nat)
    requires k < 8
    ensures Bit32(Combine(b0, b1, b2, b3), 16 + k) <==> Bit8(b2, k)
  {
  }

  lemma Lane3(b0: bv8, b1: bv8, b2: bv8, b3: bv8, k: nat)
    requires k < 8
    ensures Bit32(Combine(b0, b1, b2, b3), 24 + k) <==> Bit8(b3, k)
  {
  }

  lemma Positions(i: nat)
    ensures i / 8 == i / 32 * 4 + i % 32 / 8 && i % 32 == i % 32 / 8 * 8 + i % 8
  {
  }

  /** A bit of a double word is the bit of the byte it comes from: both numberings agree. */
  lemma DwordBit(m: seq<bv8>, i: nat)
    requires i / 32 * 4 + 4 <= |m|
    ensures i / 8 < |m| && (Bit32(Dword(m, i / 32 * 4), i % 32) <==> Taken(m, i))
  {
    hide Bit8, Bit32, Combine;
    Positions(i);
    var at, lane, k := i / 32 * 4, i % 32 / 8, i % 8;
    var b0, b1, b2, b3 := m[at], m[at + 1], m[at + 2], m[at + 3];
    if lane == 0 {
      Lane0(b0, b1, b2, b3, k);
    } else if lane == 1 {
      Lane1(b0, b1, b2, b3, k);
    } else if lane == 2 {
      Lane2(b0, b1, b2, b3, k);
    } else {
      Lane3(b0, b1, b2, b3, k);
    }
  }

  function RotateLeft(x: bv32): bv32 {
    (x << 1) | (x >> 31)
  }

  /** Rotating the mask moves it to the next bit, and back to the first after the last. */
  lemma MaskRotates(k: nat)
    requires k < 31
    ensures RotateLeft(Mask32(k)) == Mask32(k + 1) && Mask32(k + 1) != 1
  {
  }

  lemma MaskWraps()
    ensures RotateLeft(Mask32(31)) == Mask32(0) == 1
  {
  }

  lemma NextMask(i: nat)
    ensures RotateLeft(Mask32(i % 32)) == Mask32((i + 1) % 32)
    ensures Mask32((i + 1) % 32) == 1 <==> (i + 1) % 32 == 0
    ensures (i + 1) / 32 == if (i + 1) % 32 == 0 then i / 32 + 1 else i / 32
  {
    hide RotateLeft, Mask32;
    MaskWraps();
    if i % 32 < 31 {
      MaskRotates(i % 32);
    }
  }

  // ---------- searching and marking in place ----------

  /**
   * The least number below `bits` that is not taken, or `bits` when all are. The map holds whole double words.
   */
  method GetFreeBit(bitfield: array<bv8>, bits: nat) returns (eax: nat)
    requires (bits + 31) / 32 * 4 <= bitfield.Length
    ensures eax <= bits
    ensures forall j: nat :: j < eax ==> Taken(bitfield[..], j)
    ensures eax < bits ==> !Taken(bitfield[..], eax)
  {
    hide Mask32, RotateLeft, Taken, Dword;
    eax := 0;
    var ebx, edx := 1, 0;
    MaskWraps();
    while true
      invariant eax <= bits && edx == eax / 32 * 4 && ebx == Mask32(eax % 32)
      invariant forall j: nat {:trigger Taken(bitfield[..], j)} :: j < eax ==> Taken(bitfield[..], j)
      decreases bits - eax
    {
      if eax == bits {
        break;
      }
      DwordBit(bitfield[..], eax);
      var ecx := ebx & Dword(bitfield[..], edx);
      if ecx == 0 {
        break;
      }
      NextMask(eax);
      eax := eax + 1;
      ebx := RotateLeft(ebx);
      if ebx == 1 {
        edx := edx + 4;
      }
    }
  }

  /** Mark a number as taken. */
  method UnfreeBit(bitfield: array<bv8>, what: nat)
    requires what / 8 < bitfield.Length
    modifies bitfield
    ensures bitfield[..] == Marked(old(bitfield[..]), what)
  {
    var eax, edx := what / 8, what % 8;
    var dl := Mask8(edx);
    bitfield[eax] := bitfield[eax] | dl;
  }
}
