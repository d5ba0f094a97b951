/** Physical memory, and the kernel's copy from one process's buffer to another's. */
module Ram {
  import opened Word32

  ghost function Load(m: seq<Byte>, src: Word, n: nat): (b: seq<Byte>)
    requires |m| == W
    ensures |b| == n
    decreases n
  {
    if n == 0 then [] else [m[src]] + Load(m, Add(src, 1), n - 1)
  }

  ghost function Store(m: seq<Byte>, dst: Word, b: seq<Byte>): (r: seq<Byte>)
    requires |m| == W
    ensures |r| == W
    decreases |b|
  {
    if b == [] then m else Store(m[dst := b[0]], Add(dst, 1), b[1..])
  }

  /** Move `n` bytes through a register. */
  ghost function Move(m: seq<Byte>, dst: Word, src: Word, n: nat): (r: seq<Byte>)
    requires |m| == W
    ensures |r| == W
  {
    Store(m, dst, Load(m, src, n))
  }

  /** The copy loop: double words while possible, then a word, then a byte; addresses wrap. */
  ghost function Copy(m: seq<Byte>, dst: Word, src: Word, n: nat): (r: seq<Byte>)
    requires |m| == W
    ensures |r| == W
    decreases n
  {
    if n > 3 then Copy(Move(m, dst, src, 4), Add(dst, 4), Add(src, 4), n - 4)
    else if n > 1 then Copy(Move(m, dst, src, 2), Add(dst, 2), Add(src, 2), n - 2)
    else if n > 0 then Move(m, dst, src, 1)
    else m
  }

  /**
   * Neither area runs past the end of memory, and the destination does not begin inside the source.
   * Disjoint areas qualify, and so do areas that overlap with the destination first.
   */
  predicate Apart(dst: Word, src: Word, n: nat) {
    dst + n <= W && src + n <= W && (dst <= src || src + n <= dst)
  }

  /** `m` with the `n` bytes from `src` written over those from `dst`. */
  ghost function Replace(m: seq<Byte>, dst: Word, src: Word, n: nat): (r: seq<Byte>)
    requires |m| == W && Apart(dst, src, n)
  {
    m[..dst] + m[src..src + n] + m[dst + n..]
  }

  lemma {:induction false} LoadIsSlice(m: seq<Byte>, src: Word, n: nat)
    requires |m| == W && src + n <= W
    ensures Load(m, src, n) == m[src..src + n]
    decreases n
  {
    if n > 1 {
      LoadIsSlice(m, Add(src, 1), n - 1);
    }
  }

  lemma {:induction false} StoreIsSplice(m: seq<Byte>, dst: Word, b: seq<Byte>)
    requires |m| == W && dst + |b| <= W
    ensures Store(m, dst, b) == m[..dst] + b + m[dst + |b|..]
    decreases |b|
  {
    if b != [] {
      if |b| == 1 {
        assert b[1..] == [];
      } else {
        StoreIsSplice(m[dst := b[0]], Add(dst, 1), b[1..]);
      }
    }
  }

  lemma MoveReplaces(m: seq<Byte>, dst: Word, src: Word, n: nat)
    requires |m| == W && Apart(dst, src, n)
    ensures Move(m, dst, src, n) == Replace(m, dst, src, n)
  {
    LoadIsSlice(m, src, n);
    StoreIsSplice(m, dst, Load(m, src, n));
  }

  lemma ReplaceAt(m: seq<Byte>, dst: Word, src: Word, n: nat, i: nat)
    requires |m| == W && Apart(dst, src, n) && i < W
    ensures Replace(m, dst, src, n)[i] == if dst <= i < dst + n then m[src + (i - dst)] else m[i]
  {
  }

  lemma ReplaceTwice(m: seq<Byte>, dst: Word, src: Word, k: nat, n: nat)
    requires |m| == W && k < n && Apart(dst, src, n)
    ensures Replace(Replace(m, dst, src, k), dst + k, src + k, n - k) == Replace(m, dst, src, n)
  {
    var m1 := Replace(m, dst, src, k);
    var m2 := Replace(m1, dst + k, src + k, n - k);
    forall i | 0 <= i < W
      ensures m2[i] == Replace(m, dst, src, n)[i]
    {
      ReplaceAt(m1, dst + k, src + k, n - k, i);
      ReplaceAt(m, dst, src, n, i);
      ReplaceAt(m, dst, src, k, i);
      if dst + k <= i < dst + n {
        ReplaceAt(m, dst, src, k, src + (i - dst));
      }
    }
  }

  /** The size of the first unit the loop moves. */
  function Unit(n: nat): nat {
    if n > 3 then 4 else if n > 1 then 2 else 1
  }

  lemma CopyUnfold(m: seq<Byte>, dst: Word, src: Word, n: nat)
    requires |m| == W && n > 0 && dst + n <= W && src + n <= W
    ensures var k := Unit(n);
      Copy(m, dst, src, n) ==
        if k < n then Copy(Move(m, dst, src, k), dst + k, src + k, n - k) else Move(m, dst, src, n)
  {
  }

  lemma CopyNothing(m: seq<Byte>, dst: Word, src: Word)
    requires |m| == W
    ensures Copy(m, dst, src, 0) == m
    ensures Apart(dst, src, 0) ==> Replace(m, dst, src, 0) == m
  {
  }

  /** For such areas the unit-wise copy moves exactly the bytes it was asked to and changes no other. */
  lemma {:induction false} CopyReplaces(m: seq<Byte>, dst: Word, src: Word, n: nat)
    requires |m| == W && Apart(dst, src, n)
    ensures Copy(m, dst, src, n) == Replace(m, dst, src, n)
    decreases n
  {
    hide Replace, Move, Load, Store, Copy;
    if n == 0 {
      CopyNothing(m, dst, src);
    } else {
      CopyUnfold(m, dst, src, n);
      var k := Unit(n);
      MoveReplaces(m, dst, src, k);
      if k < n {
        CopyReplaces(Move(m, dst, src, k), dst + k, src + k, n - k);
        ReplaceTwice(m, dst, src, k, n);
      }
    }
  }

  /**
   * Areas that do clash, the source first: a double word is read before it is written and the next one after that, so
   * eight bytes moved up by four repeat the first four.
   */
  lemma ClashRepeats(m: seq<Byte>, src: Word)
    requires |m| == W && src + 12 <= W
    ensures Copy(m, src + 4, src, 8) == m[..src + 4] + m[src..src + 4] + m[src..src + 4] + m[src + 12..]
  {
    hide Replace, Move, Load, Store, Copy;
    CopyUnfold(m, src + 4, src, 8);
    MoveReplaces(m, src + 4, src, 4);
    var m1 := Move(m, src + 4, src, 4);
    CopyUnfold(m1, src + 8, src + 4, 4);
    MoveReplaces(m1, src + 8, src + 4, 4);
    var r := m[..src + 4] + m[src..src + 4] + m[src..src + 4] + m[src + 12..];
    forall i | 0 <= i < W
      ensures Replace(m1, src + 8, src + 4, 4)[i] == r[i]
    {
      ReplaceAt(m1, src + 8, src + 4, 4, i);
      ReplaceAt(m, src + 4, src, 4, i);
      if src + 8 <= i < src + 12 {
        ReplaceAt(m, src + 4, src, 4, i - 4);
      }
    }
    assert Replace(m1, src + 8, src + 4, 4) == r;
  }

  // ---------- the copy in place ----------

  method MoveUnit(ram: array<Byte>, dst: Word, src: Word, n: nat)
    requires ram.Length == W && n <= 4
    modifies ram
    ensures ram[..] == Move(old(ram[..]), dst, src, n)
  {
    var unit := LoadUnit(ram, src, n);
    StoreUnit(ram, dst, unit);
  }

  method LoadUnit(ram: array<Byte>, src: Word, n: nat) returns (unit: seq<Byte>)
    requires ram.Length == W
    ensures unit == Load(ram[..], src, n)
    decreases n
  {
    if n == 0 {
      unit := [];
    } else {
      var rest := LoadUnit(ram, Add(src, 1), n - 1);
      unit := [ram[src]] + rest;
    }
  }

  method StoreUnit(ram: array<Byte>, dst: Word, unit: seq<Byte>)
    requires ram.Length == W
    modifies ram
    ensures ram[..] == Store(old(ram[..]), dst, unit)
    decreases |unit|
  {
    if unit != [] {
      ghost var m := ram[..];
      ram[dst] := unit[0];
      assert ram[..] == m[dst := unit[0]];
      StoreUnit(ram, Add(dst, 1), unit[1..]);
    }
  }

  /** Copy `n` bytes from linear address `src` to `dst`, four, two and one at a time. */
  method CopyBytes(ram: array<Byte>, dst: Word, src: Word, n: Word)
    requires ram.Length == W
    modifies ram
    ensures ram[..] == Copy(old(ram[..]), dst, src, n)
  {
    var edi, esi, ecx := src, dst, n;
    ghost var goal := Copy(ram[..], dst, src, n);
    while ecx > 3
      invariant Copy(ram[..], esi, edi, ecx) == goal
    {
      MoveUnit(ram, esi, edi, 4);
      ecx, edi, esi := ecx - 4, Add(edi, 4), Add(esi, 4);
    }
    if ecx > 1 {
      MoveUnit(ram, esi, edi, 2);
      ecx, edi, esi := ecx - 2, Add(edi, 2), Add(esi, 2);
    }
    if ecx > 0 {
      MoveUnit(ram, esi, edi, 1);
    }
  }
}
