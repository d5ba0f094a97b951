/** Segment descriptors: how the kernel packs base and limit into eight bytes and reads them back. */
module Descriptors {
  datatype Descriptor = Descriptor(limit: bv16, base1: bv16, base2: bv8, props1: bv8, props2: bv8, base3: bv8)

  const CODE: bv32 := 0
  const DATA: bv32 := 1
  const PAGE_GRANULARITY: bv32 := 1
  const BYTE_GRANULARITY: bv32 := 0

  function Low8(x: bv32): bv8 {
    (x & 0xff) as bv8
  }

  function Low16(x: bv32): bv16 {
    (x & 0xffff) as bv16
  }

  // ---------- writing ----------

  function Props1(present: bv32, privilege: bv32, kind: bv32): bv8 {
    Low8((privilege << 5) | (present << 7))
      | (if Low8(kind) == Low8(CODE) then 0x1a else if Low8(kind) == Low8(DATA) then 0x12 else 0x16)
  }

  function Props2(limit: bv32, granularity: bv32): bv8 {
    Low8((limit >> 16) | (granularity << 7) | 0x40)
  }

  /** The descriptor that is written for a segment. */
  function Encode(limit: bv32, base: bv32, present: bv32, privilege: bv32, kind: bv32, granularity: bv32): Descriptor {
    Descriptor(Low16(limit), Low16(base), Low8(base >> 16), Props1(present, privilege, kind),
               Props2(limit, granularity), Low8(base >> 24))
  }

  // ---------- reading ----------

  function Limit(d: Descriptor): bv32 {
    if Paged(d) then Pages(LimitField(d)) else LimitField(d)
  }

  function Pages(n: bv32): bv32 {
    n << 12
  }

  function LimitField(d: Descriptor): bv32 {
    (((d.props2 as bv32) << 16) | d.limit as bv32) & 0xfffff
  }

  predicate Paged(d: Descriptor) {
    ((d.props2 as bv32) << 16) & 0x80_0000 != 0
  }

  function Base(d: Descriptor): bv32 {
    ((d.base3 as bv32) << 24) | ((d.base2 as bv32) << 16) | d.base1 as bv32
  }

  /** The base as the copy routine computes it, with its own order of shifts. */
  function InlinedBase(d: Descriptor): bv32 {
    ((((d.base3 as bv32) << 8) | d.base2 as bv32) << 16) | d.base1 as bv32
  }

  /** The eight bytes in memory order, as one number. */
  function Raw(d: Descriptor): bv64 {
    (d.limit as bv64) | ((d.base1 as bv64) << 16) | ((d.base2 as bv64) << 32) | ((d.props1 as bv64) << 40)
      | ((d.props2 as bv64) << 48) | ((d.base3 as bv64) << 56)
  }

  /** The processor's reading of a descriptor: base in bits 16-39 and 56-63. */
  function HardwareBase(raw: bv64): bv64 {
    ((raw >> 16) & 0xff_ffff) | ((raw >> 56) << 24)
  }

  /** The limit in bits 0-15 and 48-51, in bytes or (granularity bit 55) in pages. */
  function HardwareLimitField(raw: bv64): bv64 {
    (raw & 0xffff) | (((raw >> 48) & 0xf) << 16)
  }

  predicate HardwarePaged(raw: bv64) {
    (raw >> 55) & 1 == 1
  }

  function HardwareLimit(raw: bv64): bv64 {
    if HardwarePaged(raw) then HardwarePages(HardwareLimitField(raw)) else HardwareLimitField(raw)
  }

  function HardwarePages(n: bv64): bv64 {
    n << 12
  }

  // ---------- agreement ----------

  lemma InlinedAgrees(d: Descriptor)
    ensures InlinedBase(d) == Base(d)
  {
  }

  lemma HardwareAgrees(d: Descriptor)
    ensures HardwareBase(Raw(d)) == Base(d) as bv64
  {
  }

  /** The two ways to read a base agree with each other and with the processor's. */
  lemma BasesAgree(d: Descriptor)
    ensures Base(d) == InlinedBase(d) && Base(d) as bv64 == HardwareBase(Raw(d))
  {
    hide Base, InlinedBase, HardwareBase, Raw;
    InlinedAgrees(d);
    HardwareAgrees(d);
  }

  lemma FieldsAgree(d: Descriptor)
    ensures HardwareLimitField(Raw(d)) == LimitField(d) as bv64
  {
  }

  lemma GranularitiesAgree(d: Descriptor)
    ensures HardwarePaged(Raw(d)) <==> Paged(d)
  {
  }

  lemma FieldShift(d: Descriptor)
    ensures HardwarePages(LimitField(d) as bv64) == Pages(LimitField(d)) as bv64
  {
  }

  /** The limit read is the processor's limit field, scaled by the page size when the granularity bit is set. */
  lemma LimitsAgree(d: Descriptor)
    ensures Limit(d) as bv64 == HardwareLimit(Raw(d))
  {
    hide LimitField, Paged, Pages, HardwarePaged, HardwareLimitField, HardwarePages, Raw;
    FieldsAgree(d);
    GranularitiesAgree(d);
    FieldShift(d);
  }

  // ---------- access rights ----------

  /** Bits 40 to 47: present, privilege, and for code and data segments their kind. */
  function AccessByte(raw: bv64): bv8 {
    ((raw >> 40) & 0xff) as bv8
  }

  /** Bits 53 and 54: not a 64-bit segment, and one of 32-bit size. */
  function SizeBits(raw: bv64): bv64 {
    (raw >> 53) & 3
  }

  lemma AccessIsProps1(d: Descriptor)
    ensures AccessByte(Raw(d)) == d.props1
  {
  }

  lemma SizeIsProps2(d: Descriptor)
    ensures SizeBits(Raw(d)) == ((d.props2 >> 5) & 3) as bv64
  {
  }

  lemma SizeWritten(limit: bv32, granularity: bv32)
    requires limit <= 0x10_0000 && granularity <= 1
    ensures (Props2(limit, granularity) >> 5) & 3 == 2
  {
  }

  lemma CodeAccess(privilege: bv32)
    requires privilege <= 3
    ensures Props1(1, privilege, 0) == 0x9a | ((privilege as bv8) << 5)
  {
  }

  lemma DataAccess(privilege: bv32)
    requires privilege <= 3
    ensures Props1(1, privilege, 1) == 0x92 | ((privilege as bv8) << 5)
  {
  }

  /** The bits of an access byte: present, privilege, no system segment, executable, not conforming or down, used. */
  lemma AccessBits(privilege: bv8)
    requires privilege <= 3
    ensures var c := 0x9a | (privilege << 5);
      c >> 7 == 1 && (c >> 5) & 3 == privilege && (c >> 4) & 1 == 1 && (c >> 3) & 1 == 1
      && (c >> 2) & 1 == 0 && (c >> 1) & 1 == 1 && c & 1 == 0
    ensures var d := 0x92 | (privilege << 5);
      d >> 7 == 1 && (d >> 5) & 3 == privilege && (d >> 4) & 1 == 1 && (d >> 3) & 1 == 0
      && (d >> 2) & 1 == 0 && (d >> 1) & 1 == 1 && d & 1 == 0
  {
  }

  // ---------- round trips ----------

  lemma BaseRoundTrip(limit: bv32, base: bv32, present: bv32, privilege: bv32, kind: bv32, granularity: bv32)
    ensures Base(Encode(limit, base, present, privilege, kind, granularity)) == base
  {
  }

  /** Every 20-bit limit survives, in bytes or in pages. */
  lemma LimitRoundTrip(limit: bv32, base: bv32, present: bv32, privilege: bv32, kind: bv32, granularity: bv32)
    requires limit <= 0xfffff && (granularity == PAGE_GRANULARITY || granularity == BYTE_GRANULARITY)
    ensures var d := Encode(limit, base, present, privilege, kind, granularity);
      Limit(d) == if granularity == PAGE_GRANULARITY then limit << 12 else limit
  {
  }

  // ---------- the limits a new process asks for ----------

  function PagesFor(request: bv32): bv32 {
    if Unrounded(request) then request >> 12 else (request >> 12) + 1
  }

  /** The descriptor a new process gets for a segment with this base and limit. */
  function Segment(request: bv32, base: bv32, privilege: bv32, kind: bv32): Descriptor {
    if Small(request) then Encode(request, base, 1, privilege, kind, BYTE_GRANULARITY)
    else Encode(PagesFor(request), base, 1, privilege, kind, PAGE_GRANULARITY)
  }

  predicate Small(request: bv32) {
    request <= 0xfffff
  }

  /** The test that decides against rounding up; it looks at ten bits, not at the twelve of a page. */
  predicate Unrounded(request: bv32) {
    request & 0x3ff == 0
  }

  predicate PageAligned(request: bv32) {
    request & 0xfff == 0
  }

  predicate LastPage(request: bv32) {
    request >= 0xffff_f000
  }

  /** The requests whose page count needs a 21st bit, which is lost. */
  predicate TooLarge(request: bv32) {
    LastPage(request) && !Unrounded(request)
  }

  predicate WithinPage(a: bv32, b: bv32) {
    (if a >= b then a - b else b - a) < 4096
  }

  predicate Reaches(limit: bv32, request: bv32) {
    limit >= request
  }

  /** The limit in bytes that the page count amounts to, if it fits. */
  function Rounded(request: bv32): bv32 {
    PagesFor(request) << 12
  }

  /** Up to 2^20 - 1 the limit is exact. */
  lemma SmallRequestExact(request: bv32, base: bv32, privilege: bv32, kind: bv32)
    requires Small(request)
    ensures Limit(Segment(request, base, privilege, kind)) == request
  {
    hide Limit, Encode;
    LimitRoundTrip(request, base, 1, privilege, kind, BYTE_GRANULARITY);
  }

  lemma SmallReaches(request: bv32)
    ensures Reaches(request, request) && WithinPage(request, request)
  {
  }

  lemma PagesFit(request: bv32)
    requires !TooLarge(request)
    ensures PagesFor(request) <= 0xfffff
  {
  }

  lemma PagesLost(request: bv32)
    requires TooLarge(request)
    ensures PagesFor(request) == 0x10_0000 && !Small(request)
  {
  }

  lemma RoundedDown(request: bv32)
    requires Unrounded(request)
    ensures WithinPage(Rounded(request), request)
  {
  }

  lemma DownReaches(request: bv32)
    requires Unrounded(request)
    ensures Reaches(Rounded(request), request) <==> PageAligned(request)
  {
  }

  lemma RoundedUp(request: bv32)
    requires !Unrounded(request) && !LastPage(request)
    ensures WithinPage(Rounded(request), request)
  {
  }

  lemma UpReaches(request: bv32)
    requires !Unrounded(request) && !LastPage(request)
    ensures Reaches(Rounded(request), request)
  {
  }

  lemma ZeroFallsShort(request: bv32)
    requires LastPage(request)
    ensures !Reaches(0, request) && !WithinPage(0, request)
  {
  }

  lemma AlignedIsUnrounded(request: bv32)
    requires PageAligned(request)
    ensures Unrounded(request)
  {
  }

  /** When the page count fits its field it determines the limit. */
  lemma PagedLimit(request: bv32, base: bv32, privilege: bv32, kind: bv32)
    requires !Small(request) && !TooLarge(request)
    ensures Limit(Segment(request, base, privilege, kind)) == Rounded(request)
  {
    hide Limit, Encode, PagesFor, TooLarge;
    PagesFit(request);
    LimitRoundTrip(PagesFor(request), base, 1, privilege, kind, PAGE_GRANULARITY);
  }

  /** When it does not fit, nothing of it is left. */
  lemma LostLimit(request: bv32, base: bv32, privilege: bv32, kind: bv32)
    requires TooLarge(request)
    ensures Limit(Segment(request, base, privilege, kind)) == 0
  {
    hide Limit, Encode, PagesFor, TooLarge, Small;
    PagesLost(request);
    ZeroLimit(base, 1, privilege, kind);
  }

  lemma ZeroLimit(base: bv32, present: bv32, privilege: bv32, kind: bv32)
    ensures Limit(Encode(0x10_0000, base, present, privilege, kind, PAGE_GRANULARITY)) == 0
  {
  }

  /** The decoded limit is within a page of the request exactly when the request is not too large. */
  lemma RequestWithinPage(request: bv32, base: bv32, privilege: bv32, kind: bv32)
    ensures WithinPage(Limit(Segment(request, base, privilege, kind)), request) <==> !TooLarge(request)
  {
    hide Limit, Segment, Rounded, Small, Unrounded, LastPage, WithinPage, Reaches;
    if TooLarge(request) {
      LostLimit(request, base, privilege, kind);
      ZeroFallsShort(request);
    } else if Small(request) {
      SmallRequestExact(request, base, privilege, kind);
      SmallReaches(request);
    } else {
      PagedLimit(request, base, privilege, kind);
      if Unrounded(request) {
        RoundedDown(request);
      } else {
        RoundedUp(request);
      }
    }
  }

  /** The segment reaches as far as requested exactly when its limit is small, page-aligned, or gets rounded up. */
  lemma RequestCovered(request: bv32, base: bv32, privilege: bv32, kind: bv32)
    ensures Reaches(Limit(Segment(request, base, privilege, kind)), request) <==>
      Small(request) || PageAligned(request) || (!Unrounded(request) && !LastPage(request))
  {
    hide Limit, Segment, Rounded, Small, Unrounded, LastPage, PageAligned, WithinPage, Reaches;
    if Small(request) {
      SmallRequestExact(request, base, privilege, kind);
      SmallReaches(request);
    } else if TooLarge(request) {
      LostLimit(request, base, privilege, kind);
      ZeroFallsShort(request);
      if PageAligned(request) {
        AlignedIsUnrounded(request);
      }
    } else {
      PagedLimit(request, base, privilege, kind);
      if Unrounded(request) {
        DownReaches(request);
      } else {
        UpReaches(request);
      }
    }
  }

  /** The descriptor's access byte and size bits are those of a code (kind 0) or data (kind 1) segment. */
  predicate Accessible(d: Descriptor, privilege: bv32, kind: bv32)
    requires privilege <= 3
  {
    var a := AccessByte(Raw(d));
    && a >> 7 == 1 && (a >> 5) & 3 == privilege as bv8 && (a >> 4) & 1 == 1
    && (a >> 3) & 1 == (if kind == 0 then 1 else 0)
    && (a >> 2) & 1 == 0 && (a >> 1) & 1 == 1 && a & 1 == 0
    && SizeBits(Raw(d)) == 2
  }

  /**
   * The access byte of a new segment as the processor reads it: present (bit 7), with the privilege asked for (bits 5
   * and 6), a code or data segment (bit 4), executable exactly for code (bit 3), neither conforming nor growing down
   * (bit 2), readable or writable (bit 1), not yet accessed (bit 0); and the segment is a 32-bit one.
   */
  lemma SegmentAccess(request: bv32, base: bv32, privilege: bv32, kind: bv32)
    requires privilege <= 3 && (kind == 0 || kind == 1)
    ensures Accessible(Segment(request, base, privilege, kind), privilege, kind)
  {
    hide Raw, AccessByte, SizeBits, Props1, Props2, Low8, Low16, PagesFor, Unrounded;
    var d := Segment(request, base, privilege, kind);
    AccessIsProps1(d);
    SizeIsProps2(d);
    PagesSmall(request);
    if Small(request) {
      SizeWritten(request, BYTE_GRANULARITY);
    }
    SizeWritten(PagesFor(request), PAGE_GRANULARITY);
    CodeAccess(privilege);
    DataAccess(privilege);
    AccessBits(privilege as bv8);
  }

  lemma PagesSmall(request: bv32)
    ensures PagesFor(request) <= 0x10_0000
  {
  }

  lemma SegmentBase(request: bv32, base: bv32, privilege: bv32, kind: bv32)
    ensures Base(Segment(request, base, privilege, kind)) == base
  {
    hide Encode, Base, PagesFor, Small;
    BaseRoundTrip(request, base, 1, privilege, kind, BYTE_GRANULARITY);
    BaseRoundTrip(PagesFor(request), base, 1, privilege, kind, PAGE_GRANULARITY);
  }

  /** The processor sees a segment of this kind, privilege and base. */
  predicate Seen(d: Descriptor, base: bv32, privilege: bv32, kind: bv32)
    requires privilege <= 3
  {
    Accessible(d, privilege, kind) && HardwareBase(Raw(d)) == base as bv64
  }

  lemma SegmentSeen(request: bv32, base: bv32, privilege: bv32, kind: bv32)
    requires privilege <= 3 && (kind == 0 || kind == 1)
    ensures Seen(Segment(request, base, privilege, kind), base, privilege, kind)
  {
    hide Segment, Raw, Accessible, HardwareBase, Base;
    SegmentAccess(request, base, privilege, kind);
    BasesAgree(Segment(request, base, privilege, kind));
    SegmentBase(request, base, privilege, kind);
  }

  /** The three facts about a request's limit, in numbers. */
  lemma RequestInNumbers(request: bv32, base: bv32, privilege: bv32, kind: bv32)
    ensures var limit := Limit(Segment(request, base, privilege, kind));
      && (request <= 0xf_ffff ==> limit == request)
      && (limit >= request <==>
           request <= 0xf_ffff || request & 0xfff == 0 || (request & 0x3ff != 0 && request < 0xffff_f000))
      && ((if limit >= request then limit - request else request - limit) < 4096 <==>
           request & 0x3ff == 0 || request < 0xffff_f000)
  {
    hide Limit, Segment;
    RequestCovered(request, base, privilege, kind);
    RequestWithinPage(request, base, privilege, kind);
    if Small(request) {
      SmallRequestExact(request, base, privilege, kind);
    }
  }
}
