/** The descriptor table with its allocation bitmap, and the segments a new process is given. */
module Gdt {
  import opened Descriptors
  import Bitmaps

  const NO_AVL_DSCRPTS := 8192
  const DESCRIPTOR_SIZE := 8
  const INVALID_GDT_IDX := 65536
  const NO_BASE: bv32 := 0xffff_ffff

  /** What is asked for one segment. */
  datatype Request = Request(base: bv32, limit: bv32)

  predicate MemAreaValid(base: bv32, limit: bv32, video: bool) {
    var lowerBound: bv32 := if video then 0xc_0000 else 0xa_0000;
    !(lowerBound < base < 0x10_0000) && !(base <= lowerBound && base + limit > lowerBound)
  }

  /** A byte offset of a descriptor in the table. */
  predicate IsIndex(index: nat) {
    index % DESCRIPTOR_SIZE == 0 && index < INVALID_GDT_IDX
  }

  /** The entry at a byte offset is in use. */
  predicate InUse(bitmap: seq<bv8>, index: nat)
    requires |bitmap| == NO_AVL_DSCRPTS / 8 && IsIndex(index)
  {
    Bitmaps.Taken(bitmap, index / DESCRIPTOR_SIZE)
  }

  /** Exactly `index` has been newly marked. */
  ghost predicate Takes(before: seq<bv8>, after: seq<bv8>, index: nat)
    requires |before| == |after| == NO_AVL_DSCRPTS / 8 && IsIndex(index)
  {
    forall i {:trigger InUse(after, i)} ::
      0 <= i && IsIndex(i) ==> (InUse(after, i) <==> InUse(before, i) || i == index)
  }

  lemma MarkTakes(bitmap: seq<bv8>, index: nat)
    requires |bitmap| == NO_AVL_DSCRPTS / 8 && IsIndex(index)
    ensures Takes(bitmap, Bitmaps.Marked(bitmap, index / DESCRIPTOR_SIZE), index)
  {
    forall i {:trigger InUse(Bitmaps.Marked(bitmap, index / DESCRIPTOR_SIZE), i)} | 0 <= i && IsIndex(i)
      ensures InUse(Bitmaps.Marked(bitmap, index / DESCRIPTOR_SIZE), i) <==> InUse(bitmap, i) || i == index
    {
      Bitmaps.MarkedTaken(bitmap, index / DESCRIPTOR_SIZE, i / DESCRIPTOR_SIZE);
    }
  }

  /** The unused indices. */
  ghost function Free(bitmap: seq<bv8>): set<nat>
    requires |bitmap| == NO_AVL_DSCRPTS / 8
  {
    set i: nat | i < INVALID_GDT_IDX && IsIndex(i) && !InUse(bitmap, i)
  }

  lemma TakesOne(before: seq<bv8>, after: seq<bv8>, index: nat)
    requires |before| == |after| == NO_AVL_DSCRPTS / 8 && IsIndex(index)
    requires !InUse(before, index) && Takes(before, after, index)
    ensures |Free(after)| + 1 == |Free(before)|
  {
    hide InUse;
    assert InUse(after, index);
    assert Free(before) == Free(after) + {index};
  }

  lemma NoneFree(bitmap: seq<bv8>)
    requires |bitmap| == NO_AVL_DSCRPTS / 8
    ensures |Free(bitmap)| == 0 <==> forall i {:trigger InUse(bitmap, i)} :: 0 <= i && IsIndex(i) ==> InUse(bitmap, i)
  {
    hide InUse;
    if i: nat :| IsIndex(i) && !InUse(bitmap, i) {
      assert i in Free(bitmap);
    }
  }

  /** How many segments are asked for. */
  ghost function AskedFor(rs: seq<Request>): nat {
    if rs == [] then 0 else AskedFor(rs[..|rs| - 1]) + (if rs[|rs| - 1].base == NO_BASE then 0 else 1)
  }

  lemma {:induction false} PrefixAsks(rs: seq<Request>, n: nat)
    requires n < |rs|
    ensures AskedFor(rs[..n + 1]) == AskedFor(rs[..n]) + (if rs[n].base == NO_BASE then 0 else 1) <= AskedFor(rs)
    decreases |rs|
  {
    assert rs[..n + 1][..n] == rs[..n];
    if n + 1 == |rs| {
      assert rs[..n + 1] == rs;
    } else {
      assert rs[..|rs| - 1][..n + 1] == rs[..n + 1] && rs[..|rs| - 1][..n] == rs[..n];
      PrefixAsks(rs[..|rs| - 1], n);
    }
  }

  /** Not asked for, or in a valid area. */
  predicate Acceptable(r: Request, video: bool) {
    r.base == NO_BASE || MemAreaValid(r.base, r.limit, video)
  }

  /** The indices in `idx` were free and are distinct, and they are what has been newly marked. */
  ghost predicate Allocated(before: seq<bv8>, after: seq<bv8>, idx: seq<nat>)
    requires |before| == |after| == NO_AVL_DSCRPTS / 8
  {
    && (forall k {:trigger idx[k]} :: 0 <= k < |idx| && IsIndex(idx[k]) ==> !InUse(before, idx[k]))
    && (forall j, k {:trigger idx[j], idx[k]} :: 0 <= j < k < |idx| && IsIndex(idx[j]) ==> idx[j] != idx[k])
    && (forall i {:trigger InUse(after, i)} ::
         0 <= i && IsIndex(i) ==> (InUse(after, i) <==> InUse(before, i) || i in idx))
  }

  /** A segment that was not asked for takes no index. */
  lemma AllocatedNone(before: seq<bv8>, after: seq<bv8>, idx: seq<nat>)
    requires |before| == |after| == NO_AVL_DSCRPTS / 8 && Allocated(before, after, idx)
    ensures Allocated(before, after, idx + [INVALID_GDT_IDX])
  {
    hide InUse;
    assert !IsIndex(INVALID_GDT_IDX);
  }

  lemma AllocatedOne(before: seq<bv8>, between: seq<bv8>, after: seq<bv8>, idx: seq<nat>, x: nat)
    requires |before| == |between| == |after| == NO_AVL_DSCRPTS / 8 && Allocated(before, between, idx)
    requires IsIndex(x) && !InUse(between, x) && Takes(between, after, x)
    ensures Allocated(before, after, idx + [x]) && x !in idx
  {
    hide InUse;
    assert InUse(between, x) <==> InUse(before, x) || x in idx;
    forall i {:trigger InUse(after, i)} | 0 <= i && IsIndex(i)
      ensures InUse(after, i) <==> InUse(before, i) || i in idx + [x]
    {
      assert InUse(between, i) <==> InUse(before, i) || i in idx;
    }
  }

  /** The segments asked for so far have been written at their indices. */
  ghost predicate Written(entries: seq<Descriptor>, idx: seq<nat>, asked: seq<Request>, kinds: seq<bv32>,
                          privilege: bv32)
    requires |entries| == NO_AVL_DSCRPTS && |idx| <= |asked| && |idx| <= |kinds|
  {
    forall k {:trigger idx[k]} :: 0 <= k < |idx| ==>
      if asked[k].base == NO_BASE then idx[k] == INVALID_GDT_IDX
      else IsIndex(idx[k])
           && entries[idx[k] / DESCRIPTOR_SIZE] == Segment(asked[k].limit, asked[k].base, privilege, kinds[k])
  }

  /** All other entries are as they were. */
  ghost predicate OthersKept(was: seq<Descriptor>, now: seq<Descriptor>, idx: seq<nat>)
    requires |was| == |now| == NO_AVL_DSCRPTS
  {
    forall i {:trigger now[i]} :: 0 <= i < NO_AVL_DSCRPTS && i * DESCRIPTOR_SIZE !in idx ==> now[i] == was[i]
  }

  lemma OthersOne(was: seq<Descriptor>, between: seq<Descriptor>, idx: seq<nat>, x: nat, d: Descriptor)
    requires |was| == |between| == NO_AVL_DSCRPTS && OthersKept(was, between, idx) && IsIndex(x)
    ensures OthersKept(was, between[x / DESCRIPTOR_SIZE := d], idx + [x])
  {
    assert x in idx + [x] && forall y :: y in idx ==> y in idx + [x];
  }

  lemma OthersNone(was: seq<Descriptor>, now: seq<Descriptor>, idx: seq<nat>, x: nat)
    requires |was| == |now| == NO_AVL_DSCRPTS && OthersKept(was, now, idx)
    ensures OthersKept(was, now, idx + [x])
  {
    assert forall y :: y in idx ==> y in idx + [x];
  }

  class DescriptorTable {
    const entries: array<Descriptor>
    const bitmap: array<bv8>
    var limit: nat

    ghost predicate Valid()
      reads this
    {
      entries.Length == NO_AVL_DSCRPTS && bitmap.Length == NO_AVL_DSCRPTS / 8
    }

    constructor (entries: array<Descriptor>, bitmap: array<bv8>, limit: nat)
      requires entries.Length == NO_AVL_DSCRPTS && bitmap.Length == NO_AVL_DSCRPTS / 8
      ensures Valid() && this.entries == entries && this.bitmap == bitmap && this.limit == limit
    {
      this.entries, this.bitmap, this.limit := entries, bitmap, limit;
    }

    // ---------- reading ----------

    method GetLimit(index: nat) returns (eax: bv32)
      requires Valid() && IsIndex(index)
      ensures eax == Limit(entries[index / DESCRIPTOR_SIZE])
    {
      hide LimitField, Paged, Pages;
      var d := entries[index / DESCRIPTOR_SIZE];
      eax := LimitField(d);
      if Paged(d) {
        eax := Pages(eax);
      }
    }

    method GetBase(index: nat) returns (eax: bv32)
      requires Valid() && IsIndex(index)
      ensures eax == Base(entries[index / DESCRIPTOR_SIZE])
    {
      var d := entries[index / DESCRIPTOR_SIZE];
      eax := (d.base3 as bv32) << 24;
      var ecx := (d.base2 as bv32) << 16;
      eax := eax | ecx;
      ecx := d.base1 as bv32;
      eax := eax | ecx;
    }

    // ---------- allocating ----------

    /** The least unused index, or the invalid one when the table is full. */
    method GetFreeIdx() returns (eax: nat)
      requires Valid()
      ensures eax == INVALID_GDT_IDX || (IsIndex(eax) && !InUse(bitmap[..], eax))
      ensures forall i {:trigger InUse(bitmap[..], i)} :: 0 <= i < eax && IsIndex(i) ==> InUse(bitmap[..], i)
    {
      hide Bitmaps.Taken;
      eax := Bitmaps.GetFreeBit(bitmap, NO_AVL_DSCRPTS);
      eax := eax * DESCRIPTOR_SIZE;
    }

    method UnfreeIdx(what: nat)
      requires Valid() && IsIndex(what)
      modifies bitmap
      ensures Takes(old(bitmap[..]), bitmap[..], what)
    {
      MarkTakes(bitmap[..], what);
      Bitmaps.UnfreeBit(bitmap, what / DESCRIPTOR_SIZE);
    }

    /** Write a descriptor, grow the table's limit over it and mark its index. */
    method WriteSegmentDesc(index: nat, limit: bv32, base: bv32, present: bv32, privilege: bv32, kind: bv32,
                            granularity: bv32)
      requires Valid() && IsIndex(index)
      modifies this`limit, entries, bitmap
      ensures this.limit == if old(this.limit) < index then index + DESCRIPTOR_SIZE - 1 else old(this.limit)
      ensures entries[..] ==
        old(entries[..])[index / DESCRIPTOR_SIZE := Encode(limit, base, present, privilege, kind, granularity)]
      ensures Takes(old(bitmap[..]), bitmap[..], index)
    {
      hide Low8, Low16, Props1, Props2;
      if this.limit < index {
        this.limit := index + DESCRIPTOR_SIZE - 1;
      }
      var k := index / DESCRIPTOR_SIZE;
      entries[k] := entries[k].(limit := Low16(limit));
      entries[k] := entries[k].(props2 := Props2(limit, granularity));
      entries[k] := entries[k].(base1 := Low16(base));
      entries[k] := entries[k].(base2 := Low8(base >> 16), base3 := Low8(base >> 24));
      entries[k] := entries[k].(props1 := Props1(present, privilege, kind));
      UnfreeIdx(index);
    }

    // ---------- the segments of a new process ----------

    ghost predicate Full()
      requires Valid()
      reads this, bitmap
    {
      forall i {:trigger InUse(bitmap[..], i)} :: 0 <= i && IsIndex(i) ==> InUse(bitmap[..], i)
    }

    /** One segment: check its area, find an index and write its descriptor there. */
    method PlaceSegment(r: Request, privilege: bv32, kind: bv32, video: bool) returns (ok: bool, idx: nat)
      requires Valid()
      modifies this`limit, entries, bitmap
      ensures ok <==> Acceptable(r, video) && (r.base == NO_BASE || !old(Full()))
      ensures !ok || r.base == NO_BASE ==>
        idx == INVALID_GDT_IDX && bitmap[..] == old(bitmap[..]) && entries[..] == old(entries[..])
      ensures ok && r.base != NO_BASE ==>
        && IsIndex(idx) && !InUse(old(bitmap[..]), idx) && Takes(old(bitmap[..]), bitmap[..], idx)
        && entries[..] == old(entries[..])[idx / DESCRIPTOR_SIZE := Segment(r.limit, r.base, privilege, kind)]
    {
      hide InUse, MemAreaValid, Encode;
      ok, idx := false, INVALID_GDT_IDX;
      if r.base == NO_BASE {
        ok := true;
        return;
      }
      if !MemAreaValid(r.base, r.limit, video) {
        return;
      }
      idx := GetFreeIdx();
      if idx == INVALID_GDT_IDX {
        assert Full();
        return;
      }
      assert !Full();
      if r.limit > 0xfffff {
        var pages := PagesFor(r.limit);
        WriteSegmentDesc(idx, pages, r.base, 1, privilege, kind, PAGE_GRANULARITY);
      } else {
        WriteSegmentDesc(idx, r.limit, r.base, 1, privilege, kind, BYTE_GRANULARITY);
      }
      ok := true;
    }

    /** Place the next segment of a process whose earlier segments took the indices `idx`. */
    method PlaceNext(ghost before: seq<bv8>, ghost first: seq<Descriptor>, idx: seq<nat>, ghost asked: seq<Request>,
                     ghost kinds: seq<bv32>, r: Request, privilege: bv32, kind: bv32, video: bool)
      returns (ok: bool, next: seq<nat>)
      requires Valid() && |before| == NO_AVL_DSCRPTS / 8 && Allocated(before, bitmap[..], idx)
      requires |idx| < |asked| && |idx| < |kinds| && Written(entries[..], idx, asked, kinds, privilege)
      requires |first| == NO_AVL_DSCRPTS && OthersKept(first, entries[..], idx)
      requires |Free(bitmap[..])| + AskedFor(asked[..|idx|]) == |Free(before)|
      requires asked[|idx|] == r && kinds[|idx|] == kind
      modifies this`limit, entries, bitmap
      ensures |next| == (if ok then |idx| + 1 else |idx|) && next[..|idx|] == idx
      ensures Allocated(before, bitmap[..], next) && Written(entries[..], next, asked, kinds, privilege)
      ensures OthersKept(first, entries[..], next)
      ensures |Free(bitmap[..])| + AskedFor(asked[..|next|]) == |Free(before)|
      ensures if ok then Acceptable(r, video) else !Acceptable(r, video) || |Free(before)| <= AskedFor(asked)
    {
      hide InUse, Segment, Allocated, Takes, Free, AskedFor, Acceptable, OthersKept;
      ghost var between, was := bitmap[..], entries[..];
      PrefixAsks(asked, |idx|);
      NoneFree(bitmap[..]);
      var x: nat;
      ok, x := PlaceSegment(r, privilege, kind, video);
      next := if ok then idx + [x] else idx;
      if ok && r.base == NO_BASE {
        AllocatedNone(before, bitmap[..], idx);
        OthersNone(first, entries[..], idx, x);
      } else if ok {
        OthersOne(first, was, idx, x, Segment(r.limit, r.base, privilege, kind));
        TakesOne(between, bitmap[..], x);
        AllocatedOne(before, between, bitmap[..], idx, x);
        WrittenNext(was, entries[..], idx, asked, kinds, privilege, x);
      }
    }

    /**
     * The allocations of a new process: six segments as far as they are asked for, then its task descriptor's index.
     * They succeed exactly if all areas are valid and enough indices are unused. What is placed before a failure is
     * what `idx` says; giving it back is not part of this model.
     */
    method CreateSegments(privilege: bv32, cs: Request, ds: Request, es: Request, fs: Request, gs: Request, ss: Request)
      returns (ok: bool, idx: seq<nat>)
      requires Valid()
      modifies this`limit, entries, bitmap
      ensures ok <==>
        && Acceptable(cs, false) && Acceptable(ds, false) && Acceptable(es, false) && Acceptable(fs, false)
        && Acceptable(gs, true) && Acceptable(ss, false)
        && old(|Free(bitmap[..])|) > AskedFor([cs, ds, es, fs, gs, ss])
      ensures if ok then |idx| == 7 && IsIndex(idx[6]) else |idx| <= 6
      ensures Allocated(old(bitmap[..]), bitmap[..], idx) && OthersKept(old(entries[..]), entries[..], idx)
      ensures var placed := if ok then idx[..6] else idx;
        Written(entries[..], placed, [cs, ds, es, fs, gs, ss], [CODE, DATA, DATA, DATA, DATA, DATA], privilege)
    {
      hide InUse, Segment, Allocated, Written, Takes, Free, AskedFor, Acceptable, OthersKept;
      ghost var before, first := bitmap[..], entries[..];
      ghost var asked, kinds := [cs, ds, es, fs, gs, ss], [CODE, DATA, DATA, DATA, DATA, DATA];
      idx := [];
      NothingYet(bitmap[..], entries[..], asked, kinds, privilege);
      ok, idx := PlaceNext(before, first, idx, asked, kinds, cs, privilege, CODE, false);
      if !ok {
        return;
      }
      ok, idx := PlaceNext(before, first, idx, asked, kinds, ds, privilege, DATA, false);
      if !ok {
        return;
      }
      ok, idx := PlaceNext(before, first, idx, asked, kinds, es, privilege, DATA, false);
      if !ok {
        return;
      }
      ok, idx := PlaceNext(before, first, idx, asked, kinds, fs, privilege, DATA, false);
      if !ok {
        return;
      }
      ok, idx := PlaceNext(before, first, idx, asked, kinds, gs, privilege, DATA, true);
      if !ok {
        return;
      }
      ok, idx := PlaceNext(before, first, idx, asked, kinds, ss, privilege, DATA, false);
      if !ok {
        return;
      }
      assert asked[..6] == asked;
      var tssIdx := GetFreeIdx();
      NoneFree(bitmap[..]);
      if tssIdx == INVALID_GDT_IDX {
        ok := false;
        return;
      }
      ghost var between := bitmap[..];
      UnfreeIdx(tssIdx);
      AllocatedOne(before, between, bitmap[..], idx, tssIdx);
      OthersNone(first, entries[..], idx, tssIdx);
      assert (idx + [tssIdx])[..6] == idx;
      idx := idx + [tssIdx];
    }
  }

  lemma NothingYet(bitmap: seq<bv8>, entries: seq<Descriptor>, asked: seq<Request>, kinds: seq<bv32>, privilege: bv32)
    requires |bitmap| == NO_AVL_DSCRPTS / 8 && |entries| == NO_AVL_DSCRPTS
    ensures Allocated(bitmap, bitmap, []) && Written(entries, [], asked, kinds, privilege)
    ensures OthersKept(entries, entries, [])
    ensures |Free(bitmap)| + AskedFor(asked[..0]) == |Free(bitmap)|
  {
  }

  /** A descriptor written at a fresh index disturbs none of the earlier ones. */
  lemma WrittenNext(was: seq<Descriptor>, now: seq<Descriptor>, idx: seq<nat>, asked: seq<Request>, kinds: seq<bv32>,
                    privilege: bv32, x: nat)
    requires |was| == NO_AVL_DSCRPTS && |idx| < |asked| && |idx| < |kinds|
    requires Written(was, idx, asked, kinds, privilege) && IsIndex(x) && x !in idx && asked[|idx|].base != NO_BASE
    requires now ==
      was[x / DESCRIPTOR_SIZE := Segment(asked[|idx|].limit, asked[|idx|].base, privilege, kinds[|idx|])]
    ensures Written(now, idx + [x], asked, kinds, privilege)
  {
    hide Segment;
    var next := idx + [x];
    forall k {:trigger next[k]} | 0 <= k < |next|
      ensures if asked[k].base == NO_BASE then next[k] == INVALID_GDT_IDX
              else IsIndex(next[k])
                   && now[next[k] / DESCRIPTOR_SIZE] == Segment(asked[k].limit, asked[k].base, privilege, kinds[k])
    {
      if k < |idx| {
        assert next[k] == idx[k] && idx[k] != x;
      }
    }
  }

  // ---------- what the processor sees of the segments ----------

  lemma WrittenEntry(entries: seq<Descriptor>, idx: seq<nat>, asked: seq<Request>, kinds: seq<bv32>, privilege: bv32,
                     k: nat)
    requires |entries| == NO_AVL_DSCRPTS && |idx| <= |asked| && |idx| <= |kinds| && k < |idx|
    requires Written(entries, idx, asked, kinds, privilege) && asked[k].base != NO_BASE
    ensures IsIndex(idx[k]) && idx[k] / DESCRIPTOR_SIZE < |entries|
    ensures entries[idx[k] / DESCRIPTOR_SIZE] == Segment(asked[k].limit, asked[k].base, privilege, kinds[k])
  {
    hide Segment;
  }

  /** Every segment placed for a new process has the base asked for, the privilege, and is of its kind. */
  lemma PlacedSegments(entries: seq<Descriptor>, idx: seq<nat>, asked: seq<Request>, kinds: seq<bv32>, privilege: bv32,
                       k: nat)
    requires |entries| == NO_AVL_DSCRPTS && |idx| <= |asked| && |idx| <= |kinds| && k < |idx|
    requires Written(entries, idx, asked, kinds, privilege) && asked[k].base != NO_BASE
    requires privilege <= 3 && (kinds[k] == 0 || kinds[k] == 1)
    ensures IsIndex(idx[k]) && idx[k] / DESCRIPTOR_SIZE < |entries|
    ensures Seen(entries[idx[k] / DESCRIPTOR_SIZE], asked[k].base, privilege, kinds[k])
  {
    hide Segment, Seen, Written, IsIndex;
    WrittenEntry(entries, idx, asked, kinds, privilege, k);
    SegmentSeen(asked[k].limit, asked[k].base, privilege, kinds[k]);
  }

  // ---------- which areas are valid ----------

  /** The area from `base` to `base + limit`, even past 2^32, reaches into the region behind `lower` up to 1 MB. */
  predicate Touches(base: bv64, limit: bv64, lower: bv64) {
    base < 0x10_0000 && base + limit > lower
  }

  /**
   * An area is valid exactly if it keeps off the region below 1 MB that is not memory, from 640 KB on or, for the
   * screen segment, from 768 KB on; except that an area that begins below the region may reach past 2^32.
   */
  lemma ValidAreas(base: bv32, limit: bv32, video: bool)
    ensures var b, l, lower: bv64 := base as bv64, limit as bv64, if video then 0xc_0000 else 0xa_0000;
      if b <= lower && b + l > 0xffff_ffff then MemAreaValid(base, limit, video)
      else MemAreaValid(base, limit, video) <==> !Touches(b, l, lower)
  {
    hide MemAreaValid, Touches;
    if video {
      VideoAreas(base, limit);
    } else {
      OtherAreas(base, limit);
    }
  }

  lemma VideoAreas(base: bv32, limit: bv32)
    ensures var b, l := base as bv64, limit as bv64;
      if b <= 0xc_0000 && b + l > 0xffff_ffff then MemAreaValid(base, limit, true)
      else MemAreaValid(base, limit, true) <==> !Touches(b, l, 0xc_0000)
  {
  }

  lemma OtherAreas(base: bv32, limit: bv32)
    ensures var b, l := base as bv64, limit as bv64;
      if b <= 0xa_0000 && b + l > 0xffff_ffff then MemAreaValid(base, limit, false)
      else MemAreaValid(base, limit, false) <==> !Touches(b, l, 0xa_0000)
  {
  }

  // ---------- segments that are not what was asked for ----------

  /** A valid request for 1 MB and 1 KB of memory that gets 1 MB only. */
  lemma CutShort(privilege: bv32, kind: bv32)
    ensures var r := Request(0x10_0000, 0x10_0400);
      MemAreaValid(r.base, r.limit, false) && !Reaches(Limit(Segment(r.limit, r.base, privilege, kind)), r.limit)
  {
    hide Limit, Segment, Reaches;
    RequestCovered(0x10_0400, 0x10_0000, privilege, kind);
  }

  /** A valid request for nearly 4 GB whose page count needs a bit too many: the limit read back is 0. */
  lemma CutToNothing(privilege: bv32, kind: bv32)
    ensures var r := Request(0x10_0000, 0xffff_f001);
      MemAreaValid(r.base, r.limit, false) && Limit(Segment(r.limit, r.base, privilege, kind)) == 0
      && !WithinPage(Limit(Segment(r.limit, r.base, privilege, kind)), r.limit)
  {
    hide Limit, Segment, WithinPage;
    LostLimit(0xffff_f001, 0x10_0000, privilege, kind);
    RequestWithinPage(0xffff_f001, 0x10_0000, privilege, kind);
  }
}
