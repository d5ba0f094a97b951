/** Printing numbers: the digit loops of the user library produce canonical numerals that read back as the number. */
module Numerals {
  import opened Word32

  const MINUS: Byte := 45
  const ZERO: Byte := 48
  const LETTER_A: Byte := 65
  const LETTER_X: Byte := 120

  predicate Base(b: nat) {
    b == 10 || b == 16
  }

  function Digit(d: nat): Byte
    requires d < 16
  {
    if d <= 9 then ZERO + d else LETTER_A + d - 10
  }

  /** The canonical numeral of a number: no leading zeros. */
  function Numeral(n: nat, b: nat): (t: seq<Byte>)
    requires Base(b)
    ensures |t| > 0
  {
    if n < b then [Digit(n)] else Numeral(n / b, b) + [Digit(n % b)]
  }

  function DigitValue(c: Byte): int {
    if c < LETTER_A then c - ZERO else c - LETTER_A + 10
  }

  /** Reading a numeral. */
  function Value(t: seq<Byte>, b: nat): int {
    if t == [] then 0 else Value(t[..|t| - 1], b) * b + DigitValue(t[|t| - 1])
  }

  /** A numeral reads back as its number. */
  lemma {:induction false} NumeralReadsBack(n: nat, b: nat)
    requires Base(b)
    ensures Value(Numeral(n, b), b) == n
    decreases n
  {
    if n < b {
      assert Value([], b) == 0;
    } else {
      NumeralReadsBack(n / b, b);
      var t := Numeral(n, b);
      assert t[..|t| - 1] == Numeral(n / b, b);
    }
  }

  /** A numeral has no leading zero unless it is the numeral of zero, and no zero byte. */
  lemma {:induction false} NumeralCanonical(n: nat, b: nat)
    requires Base(b)
    ensures Numeral(n, b)[0] == ZERO <==> n == 0
    ensures forall i :: 0 <= i < |Numeral(n, b)| ==> Numeral(n, b)[i] >= ZERO
    decreases n
  {
    if n >= b {
      NumeralCanonical(n / b, b);
    }
  }

  function Pow(b: nat, j: nat): nat {
    if j == 0 then 1 else b * Pow(b, j - 1)
  }

  lemma {:induction false} PowPositive(b: nat, j: nat)
    requires b > 0
    ensures Pow(b, j) > 0
  {
    if j > 0 {
      PowPositive(b, j - 1);
      ProductGrows(Pow(b, j - 1), b);
    }
  }

  lemma {:induction false} NumeralLength(n: nat, b: nat, j: nat)
    requires Base(b) && j > 0 && n < Pow(b, j)
    ensures |Numeral(n, b)| <= j
    decreases n
  {
    assert Pow(b, 0) == 1;
    if n >= b && j > 1 {
      assert n / b < Pow(b, j - 1);
      NumeralLength(n / b, b, j - 1);
    }
  }

  // ---------- one step of a digit loop ----------

  /** What has been printed of a number after the digits that form `prefix`. */
  function Printed(prefix: nat, b: nat): seq<Byte>
    requires Base(b)
  {
    if prefix == 0 then [] else Numeral(prefix, b)
  }

  lemma NextDigit(prefix: nat, val: nat, b: nat)
    requires Base(b) && val < b
    ensures Printed(prefix * b + val, b) == if prefix == 0 && val == 0 then [] else Printed(prefix, b) + [Digit(val)]
    ensures Numeral(prefix * b + val, b) == Printed(prefix, b) + [Digit(val)]
  {
    var n := prefix * b + val;
    if prefix > 0 {
      Commute(prefix, b);
      QuotientUnique(n, b, prefix, val);
      ProductGrows(b, prefix);
    }
  }

  /** Splitting the next digit off what remains of the number. */
  lemma SplitDigit(number: nat, prefix: nat, rest: nat, d: nat, b: nat)
    requires Base(b) && d > 0 && number == prefix * (b * d) + rest && rest < b * d
    ensures var val := rest / d;
      && val < b && val * d <= rest && rest - val * d < d
      && number == (prefix * b + val) * d + (rest - val * d)
  {
    var val := rest / d;
    assert rest == val * d + rest % d;
    if val >= b {
      ProductGrows2(d, val, b);
      assert false;
    }
    Regroup(prefix, b, val, d);
  }

  lemma ProductGrows2(d: nat, val: nat, b: nat)
    requires val >= b
    ensures val * d >= b * d
  {
    assert val * d == b * d + (val - b) * d;
    NonNegative(val - b, d);
  }

  lemma Regroup(prefix: nat, b: nat, val: nat, d: nat)
    ensures (prefix * b + val) * d == prefix * (b * d) + val * d
  {
  }

  // ---------- C strings ----------

  /** The zero-terminated string `t` stands in the buffer at `at`. */
  ghost predicate Holds(buf: seq<Byte>, at: nat, t: seq<Byte>) {
    at + |t| < |buf| && buf[at..at + |t|] == t && buf[at + |t|] == 0
  }

  predicate ZeroFree(t: seq<Byte>) {
    forall i {:trigger t[i]} :: 0 <= i < |t| ==> t[i] != 0
  }

  method Strlen(me: array<Byte>, ghost t: seq<Byte>) returns (result: nat)
    requires ZeroFree(t) && Holds(me[..], 0, t)
    ensures result == |t|
  {
    var cur := 0;
    result := 0;
    assert forall i {:trigger me[i]} :: 0 <= i < |t| ==> me[i] == me[..][0..0 + |t|][i] && me[i] == t[i] != 0;
    while me[cur] != 0
      invariant cur == result <= |t|
      decreases |t| - cur
    {
      cur := cur + 1;
      result := result + 1;
    }
  }

  function Zeros(n: nat): (z: seq<Byte>)
    ensures |z| == n && forall i :: 0 <= i < n ==> z[i] == 0
  {
    seq(n, i => 0)
  }

  /** A buffer in which the string `t` grows between `head` and `tail`, with `room` zero bytes behind it. */
  ghost function Layout(head: seq<Byte>, t: seq<Byte>, room: nat, tail: seq<Byte>): seq<Byte> {
    head + t + Zeros(room) + tail
  }

  lemma LayoutGrows(head: seq<Byte>, t: seq<Byte>, room: nat, tail: seq<Byte>, c: Byte)
    requires room > 0
    ensures |head| + |t| < |Layout(head, t, room, tail)|
    ensures Layout(head, t, room, tail)[|head| + |t| := c] == Layout(head, t + [c], room - 1, tail)
  {
  }

  lemma LayoutHolds(head: seq<Byte>, t: seq<Byte>, room: nat, tail: seq<Byte>)
    requires room > 0
    ensures Holds(Layout(head, t, room, tail), |head|, t)
  {
    var b := Layout(head, t, room, tail);
    assert b == head + (t + (Zeros(room) + tail));
    assert b[|head| + |t|] == Zeros(room)[0];
  }

  /** Store the next character of the growing string. */
  method Store(buf: array<Byte>, idx: nat, c: Byte, ghost head: seq<Byte>, ghost t: seq<Byte>, ghost room: nat,
               ghost tail: seq<Byte>)
    requires room > 0 && buf[..] == Layout(head, t, room, tail) && idx == |head| + |t|
    modifies buf
    ensures buf[..] == Layout(head, t + [c], room - 1, tail)
  {
    LayoutGrows(head, t, room, tail, c);
    assert |buf[..]| == buf.Length;
    buf[idx] := c;
  }

  method Clear(buf: array<Byte>, from: nat, to: nat)
    requires from <= to <= buf.Length
    modifies buf
    ensures buf[..] == Layout(old(buf[..from]), [], to - from, old(buf[to..]))
  {
    var i := from;
    while i < to
      invariant from <= i <= to
      invariant forall k :: 0 <= k < buf.Length ==> buf[k] == if from <= k < i then 0 else old(buf[k])
    {
      buf[i] := 0;
      i := i + 1;
    }
  }

  // ---------- numbers to strings ----------

  /** The digits that form `prefix` and the remaining `j` digits' worth `rest` make up the number. */
  ghost predicate Split(number: nat, prefix: nat, rest: nat, j: nat, b: nat) {
    number == prefix * Pow(b, j) + rest && rest < Pow(b, j)
  }

  function DividerAt(j: nat): nat {
    if j == 0 then 0 else Pow(10, j - 1)
  }

  /** One round of the decimal loop. */
  lemma DecimalStep(what: Word, prefix: nat, rest: Word, j: nat) returns (digit: nat, left: nat)
    requires Split(what, prefix, rest, j, 10) && 0 < j <= 10
    ensures 0 < DividerAt(j) < W && digit < 10 && Split(what, prefix * 10 + digit, left, j - 1, 10)
    ensures Div(rest, DividerAt(j)) == digit
    ensures Mul(digit, DividerAt(j)) <= rest && rest - Mul(digit, DividerAt(j)) == left
    ensures Printed(prefix * 10 + digit, 10) ==
      if prefix == 0 && digit == 0 then [] else Printed(prefix, 10) + [Digit(digit)]
    ensures Numeral(prefix * 10 + digit, 10) == Printed(prefix, 10) + [Digit(digit)]
    ensures DividerAt(j) / 10 == DividerAt(j - 1) && (DividerAt(j) == 1 <==> j == 1)
  {
    hide Printed, Numeral, Split, Pow, Div, Mul, DividerAt;
    DigitStep(what, prefix, rest, j, 10);
    DividerStep(j, 10);
    DividerIs(j);
    var d := Pow(10, j - 1);
    DividerFits(j);
    digit := rest / d;
    left := rest - digit * d;
    DivIsQuotient(rest, d);
    ProductFits(digit, d, rest);
  }

  lemma DividerIs(j: nat)
    requires j > 0
    ensures DividerAt(j) == Pow(10, j - 1) && DividerAt(j - 1) == if j == 1 then 0 else Pow(10, j - 2)
  {
  }

  lemma ProductFits(a: Word, b: Word, rest: Word)
    requires 0 <= a * b <= rest
    ensures Mul(a, b) == a * b
  {
    MulIsProduct(a, b);
  }

  /** The decimal numeral of `what` and zero bytes behind it, from `at` on. */
  method UintToString(what: Word, buf: array<Byte>, at: nat, buflen: nat)
    requires 10 < buflen && at + buflen <= buf.Length
    modifies buf
    ensures |Numeral(what, 10)| <= 10
    ensures buf[..] ==
      Layout(old(buf[..at]), Numeral(what, 10), buflen - |Numeral(what, 10)|, old(buf[at + buflen..]))
  {
    hide Pow, Numeral, Printed, Layout, Split, DividerAt, Div, Mul;
    ghost var head, tail := buf[..at], buf[at + buflen..];
    Clear(buf, at, at + buflen);
    var rest: Word, divider: Word, idx: nat, first := what, 1_000_000_000, 0, false;
    ghost var j: nat, prefix: nat, t: seq<Byte> := 10, 0, [];
    TenDigits(what);
    NumeralLength(what, 10, 10);
    while divider > 0
      invariant 0 <= j <= 10 && divider == DividerAt(j) && Split(what, prefix, rest, j, 10)
      invariant j > 0 ==> t == Printed(prefix, 10) && (first <==> prefix > 0)
      invariant j == 0 ==> t == Numeral(prefix, 10) && divider == 0
      invariant idx == |t| <= 10 - j && buf[..] == Layout(head, t, buflen - |t|, tail)
      decreases j
    {
      ghost var digit, left := DecimalStep(what, prefix, rest, j);
      var val := Div(rest, divider);
      if val != 0 || divider == 1 || first {
        first := true;
        Store(buf, at + idx, ZERO + val, head, t, buflen - |t|, tail);
        t := t + [ZERO + val];
        idx := idx + 1;
      }
      prefix := prefix * 10 + digit;
      rest := Sub(rest, Mul(val, divider));
      divider := divider / 10;
      j := j - 1;
    }
    DividerUsedUp(j);
    LastDigit(what, prefix, rest, 10);
  }

  lemma TenDigits(what: Word)
    ensures DividerAt(10) == 1_000_000_000 && DividerAt(0) == 0 && what < Pow(10, 10)
    ensures Split(what, 0, what, 10, 10) && Printed(0, 10) == []
  {
    NinthPower();
  }

  lemma NinthPower()
    ensures Pow(10, 9) == 1_000_000_000
  {
    assert Pow(10, 3) == 1000;
    assert Pow(10, 6) == 1_000_000;
  }

  lemma DividerFits(j: nat)
    requires 0 < j <= 10
    ensures Pow(10, j - 1) <= 1_000_000_000
  {
    hide Pow;
    NinthPower();
    PowGrows(j - 1, 9);
  }

  lemma {:induction false} PowGrows(i: nat, j: nat)
    requires i <= j
    ensures Pow(10, i) <= Pow(10, j)
    decreases j
  {
    if i < j {
      PowGrows(i, j - 1);
      PowPositive(10, j - 1);
    }
  }

  lemma DividerUsedUp(j: nat)
    ensures DividerAt(j) == 0 <==> j == 0
  {
    if j > 0 {
      PowPositive(10, j - 1);
    }
  }

  lemma LastDigit(what: nat, prefix: nat, rest: nat, b: nat)
    requires Split(what, prefix, rest, 0, b)
    ensures what == prefix
  {
  }

  /** The loop's step: the next digit and what it does to the printed text. */
  lemma DigitStep(number: nat, prefix: nat, rest: nat, j: nat, b: nat)
    requires Base(b) && j > 0 && Split(number, prefix, rest, j, b)
    ensures Pow(b, j - 1) > 0
    ensures var d := Pow(b, j - 1);
      var val := rest / d;
      && val < b && 0 <= val * d <= rest && rest - val * d < d
      && Split(number, prefix * b + val, rest - val * d, j - 1, b)
      && Printed(prefix * b + val, b) == (if prefix == 0 && val == 0 then [] else Printed(prefix, b) + [Digit(val)])
      && Numeral(prefix * b + val, b) == Printed(prefix, b) + [Digit(val)]
      && (prefix * b + val > 0 <==> prefix > 0 || val > 0)
  {
    hide Printed, Numeral, Split, Pow;
    var val, left := SplitNext(number, prefix, rest, j, b);
    NextDigit(prefix, val, b);
    Positive(prefix, b, val);
  }

  /** Splitting off the next digit. */
  lemma SplitNext(number: nat, prefix: nat, rest: nat, j: nat, b: nat) returns (val: nat, left: nat)
    requires Base(b) && j > 0 && Split(number, prefix, rest, j, b)
    ensures Pow(b, j - 1) > 0 && val == rest / Pow(b, j - 1) && left == rest - val * Pow(b, j - 1)
    ensures val < b && 0 <= val * Pow(b, j - 1) <= rest && left < Pow(b, j - 1)
    ensures Split(number, prefix * b + val, left, j - 1, b)
  {
    hide Split, Pow;
    PowPositive(b, j - 1);
    SplitOpens(number, prefix, rest, j, b);
    SplitDigit(number, prefix, rest, Pow(b, j - 1), b);
    val := rest / Pow(b, j - 1);
    left := rest - val * Pow(b, j - 1);
    NonNegative(val, Pow(b, j - 1));
    SplitCloses(number, prefix * b + val, left, j - 1, b);
  }

  lemma SplitOpens(number: nat, prefix: nat, rest: nat, j: nat, b: nat)
    requires j > 0 && Split(number, prefix, rest, j, b)
    ensures number == prefix * (b * Pow(b, j - 1)) + rest && rest < b * Pow(b, j - 1)
  {
  }

  lemma SplitCloses(number: nat, prefix: nat, rest: nat, j: nat, b: nat)
    requires number == prefix * Pow(b, j) + rest && rest < Pow(b, j)
    ensures Split(number, prefix, rest, j, b)
  {
  }

  lemma Positive(prefix: nat, b: nat, val: nat)
    requires Base(b)
    ensures prefix * b + val > 0 <==> prefix > 0 || val > 0
  {
  }

  /** The divider after the loop's step. */
  lemma DividerStep(j: nat, b: nat)
    requires Base(b) && j > 0
    ensures Pow(b, j - 1) / b == (if j == 1 then 0 else Pow(b, j - 2)) && (Pow(b, j - 1) == 1 <==> j == 1)
  {
    if j > 1 {
      PowPositive(b, j - 2);
      QuotientUnique(Pow(b, j - 1), b, Pow(b, j - 2), 0);
    }
  }

  /** The decimal text of a word read as a signed number. */
  function IntText(what: Word): seq<Byte> {
    if what >= 0x8000_0000 then [MINUS] + Numeral(W - what, 10) else Numeral(what, 10)
  }

  /** The hexadecimal text of a word. */
  function HexText(what: Word): seq<Byte> {
    [ZERO, LETTER_X] + Numeral(what, 16)
  }

  method IntToString(what: Word, buf: array<Byte>)
    requires buf.Length == 15
    modifies buf
    ensures Holds(buf[..], 0, IntText(what))
  {
    hide Numeral, Layout, Holds;
    Clear(buf, 0, buf.Length);
    var idx, magnitude := 0, what;
    if what >= 0x8000_0000 {
      buf[0] := MINUS;
      idx := idx + 1;
      magnitude := Sub(0, what);
    }
    ghost var head, t, tail := buf[..idx], Numeral(magnitude, 10), buf[idx + buf.Length - 1..];
    UintToString(magnitude, buf, idx, buf.Length - 1);
    LayoutHolds(head, t, buf.Length - 1 - |t|, tail);
    LayoutHead(head, t, buf.Length - 1 - |t|, tail);
    HoldsBehind(buf[..], head, t);
    assert head + t == IntText(what);
  }

  lemma HoldsBehind(buf: seq<Byte>, head: seq<Byte>, t: seq<Byte>)
    requires Holds(buf, |head|, t) && buf[..|head|] == head
    ensures Holds(buf, 0, head + t)
  {
    assert buf[..|head| + |t|] == buf[..|head|] + buf[|head|..|head| + |t|];
  }

  /** The nibble of `what` at a position, in place: what a mask over that nibble leaves of it. */
  function Masked(what: Word, shift: nat): nat {
    PowPositive(16, shift);
    what / Pow(16, shift) % 16 * Pow(16, shift)
  }

  method StoreDigit(buf: array<Byte>, idx: nat, val: nat, ghost head: seq<Byte>, ghost t: seq<Byte>, ghost room: nat,
                    ghost tail: seq<Byte>)
    requires val < 16 && room > 0 && buf[..] == Layout(head, t, room, tail) && idx == |head| + |t|
    modifies buf
    ensures buf[..] == Layout(head, t + [Digit(val)], room - 1, tail)
  {
    if 0 <= val <= 9 {
      Store(buf, idx, ZERO + val, head, t, room, tail);
    } else {
      Store(buf, idx, LETTER_A + val - 10, head, t, room, tail);
    }
  }

  /** A masked nibble, shifted down. */
  function Shifted(val: nat, shift: nat): nat {
    PowPositive(16, shift);
    val / Pow(16, shift)
  }

  function MaskAt(shift: int): nat {
    if shift < 0 then 0 else 15 * Pow(16, shift)
  }

  lemma HexStep(what: Word, prefix: nat, rest: nat, shift: nat) returns (digit: nat, left: nat)
    requires Split(what, prefix, rest, shift + 1, 16)
    ensures digit < 16 && Split(what, prefix * 16 + digit, left, shift, 16)
    ensures (Masked(what, shift) == 0 <==> digit == 0) && Shifted(Masked(what, shift), shift) == digit
    ensures Printed(prefix * 16 + digit, 16) ==
      if prefix == 0 && digit == 0 then [] else Printed(prefix, 16) + [Digit(digit)]
    ensures Numeral(prefix * 16 + digit, 16) == Printed(prefix, 16) + [Digit(digit)]
    ensures MaskAt(shift) / 16 == MaskAt(shift - 1) && (MaskAt(shift) == 0xf <==> shift == 0) && MaskAt(shift) > 0
  {
    hide Printed, Numeral, Masked, Split;
    DigitStep(what, prefix, rest, shift + 1, 16);
    MaskStep(what, prefix, rest, shift);
    MaskShifts(shift);
    digit := rest / Pow(16, shift);
    left := rest - digit * Pow(16, shift);
  }

  method HexToString(what: Word, buf: array<Byte>)
    requires buf.Length == 15
    modifies buf
    ensures Holds(buf[..], 0, HexText(what))
  {
    hide Pow, Numeral, Printed, Layout, Masked, Shifted, Split, MaskAt, Digit, Holds;
    ghost var head, tail := [ZERO, LETTER_X], buf[buf.Length..];
    buf[0], buf[1] := ZERO, LETTER_X;
    assert buf[..2] == head;
    Clear(buf, 2, buf.Length);
    var idx: nat, shift: int, mask: nat, first := 2, 7, 0xf000_0000, false;
    ghost var prefix: nat, rest: nat, t: seq<Byte> := 0, what, [];
    EightNibbles(what);
    while mask > 0
      invariant -1 <= shift <= 7 && mask == MaskAt(shift) && Split(what, prefix, rest, shift + 1, 16)
      invariant shift == -1 ==> mask == 0
      invariant shift >= 0 ==> t == Printed(prefix, 16) && (first <==> prefix > 0)
      invariant shift == -1 ==> t == Numeral(prefix, 16)
      invariant idx == 2 + |t| && |t| <= 7 - shift && buf[..] == Layout(head, t, 13 - |t|, tail)
      decreases shift
    {
      ghost var digit, left := HexStep(what, prefix, rest, shift);
      var val := Masked(what, shift);
      if val != 0 || mask == 0xf || first {
        first := true;
        val := Shifted(val, shift);
        StoreDigit(buf, idx, val, head, t, 13 - |t|, tail);
        t := t + [Digit(val)];
        idx := idx + 1;
      }
      prefix, rest := prefix * 16 + digit, left;
      mask := mask / 16;
      shift := shift - 1;
    }
    MaskUsedUp(shift);
    LastDigit(what, prefix, rest, 16);
    LayoutHolds(head, t, 13 - |t|, tail);
    LayoutHead(head, t, 13 - |t|, tail);
    HoldsBehind(buf[..], head, t);
  }

  lemma MaskUsedUp(shift: int)
    requires shift >= -1
    ensures MaskAt(shift) == 0 <==> shift == -1
  {
    if shift >= 0 {
      MaskShifts(shift);
    }
  }

  lemma LayoutHead(head: seq<Byte>, t: seq<Byte>, room: nat, tail: seq<Byte>)
    ensures |head| <= |Layout(head, t, room, tail)| && Layout(head, t, room, tail)[..|head|] == head
  {
  }

  lemma EightNibbles(what: Word)
    ensures MaskAt(7) == 0xf000_0000 && MaskAt(-1) == 0
    ensures Split(what, 0, what, 8, 16) && Printed(0, 16) == []
  {
    assert Pow(16, 3) == 0x1000;
    assert Pow(16, 6) == 0x100_0000;
  }

  lemma NibbleAt(what: nat, d: nat, prefix: nat, val: nat, rest: nat)
    requires d > 0 && val < 16 && what == (prefix * 16 + val) * d + rest && rest < d
    ensures what / d % 16 == val
  {
    Commute(prefix * 16 + val, d);
    QuotientUnique(what, d, prefix * 16 + val, rest);
  }

  lemma NibbleBack(val: nat, d: nat)
    requires d > 0
    ensures val * d / d == val && (val * d == 0 <==> val == 0)
  {
    Commute(val, d);
    QuotientUnique(val * d, d, val, 0);
    if val > 0 {
      ProductGrows(d, val);
    }
  }

  lemma Commute(a: int, b: int)
    ensures a * b == b * a
  {
  }

  /** The mask selects the nibble that long division would produce next. */
  lemma MaskStep(what: Word, prefix: nat, rest: nat, shift: nat)
    requires Split(what, prefix, rest, shift + 1, 16)
    ensures Pow(16, shift) > 0
    ensures var d, val := Pow(16, shift), rest / Pow(16, shift);
      && Masked(what, shift) == val * d && (val * d == 0 <==> val == 0) && val * d / d == val
  {
    hide Numeral, Printed, Pow, Split, Masked;
    DigitStep(what, prefix, rest, shift + 1, 16);
    var d, val := Pow(16, shift), rest / Pow(16, shift);
    SplitParts(what, prefix * 16 + val, rest - val * d, shift, 16);
    NibbleAt(what, d, prefix, val, rest - val * d);
    NibbleBack(val, d);
    MaskedIs(what, shift);
  }

  lemma SplitParts(number: nat, prefix: nat, rest: nat, j: nat, b: nat)
    requires Split(number, prefix, rest, j, b)
    ensures number == prefix * Pow(b, j) + rest && rest < Pow(b, j)
  {
  }

  lemma MaskedIs(what: Word, shift: nat)
    ensures Pow(16, shift) > 0 && Masked(what, shift) == what / Pow(16, shift) % 16 * Pow(16, shift)
  {
    PowPositive(16, shift);
  }

  /** The mask moves to the next nibble, and is used up after the last. */
  lemma MaskShifts(shift: nat)
    ensures 15 * Pow(16, shift) / 16 == (if shift == 0 then 0 else 15 * Pow(16, shift - 1))
    ensures 15 * Pow(16, shift) == 0xf <==> shift == 0
    ensures 15 * Pow(16, shift) > 0
  {
    PowPositive(16, shift);
    if shift > 0 {
      PowPositive(16, shift - 1);
      QuotientUnique(15 * Pow(16, shift), 16, 15 * Pow(16, shift - 1), 0);
    }
  }

  /** The digits are the characters 0 to 9 and A to F. */
  lemma DigitCodes(d: nat)
    requires d < 16
    ensures Digit(d) == if d < 10 then 48 + d else 65 + (d - 10)
  {
  }

  /** Some texts, character by character. */
  lemma TextsSpelled()
    ensures Numeral(1907, 10) == [49, 57, 48, 55]
    ensures HexText(0x41ed) == [48, 120, 52, 49, 69, 68]
    ensures IntText(0xffff_fffb) == [45, 53] && IntText(5) == [53]
  {
    assert Numeral(190, 10) == Numeral(19, 10) + [48];
    assert Numeral(1907, 10) == Numeral(190, 10) + [55];
    assert Numeral(0x41e, 16) == Numeral(0x41, 16) + [69];
    assert Numeral(0x41ed, 16) == Numeral(0x41e, 16) + [68];
  }
}
