/** Formatted output: a format is expanded piece by piece into messages that fit a fixed buffer. */
module Formatter {
  import opened Word32
  import opened Numerals

  const MAX_MSG_SIZE := 1921
  const PERCENT: Byte := 37
  const LETTER_D: Byte := 100
  const LETTER_U: Byte := 117

  /** A piece of the expanded format: a character copied, or the text of a number. */
  datatype Piece = Literal(c: Byte) | Number(text: seq<Byte>)

  // ---------- expansion ----------

  predicate Letter(c: Byte) {
    c == LETTER_D || c == LETTER_U || c == LETTER_X
  }

  predicate Directive(fmt: seq<Byte>) {
    |fmt| > 1 && fmt[0] == PERCENT && Letter(fmt[1])
  }

  function TextFor(letter: Byte, arg: Word): seq<Byte>
    requires Letter(letter)
  {
    if letter == LETTER_D then IntText(arg) else if letter == LETTER_U then Numeral(arg, 10) else HexText(arg)
  }

  /** How many arguments the format takes. */
  function Arity(fmt: seq<Byte>): nat {
    if fmt == [] then 0 else if Directive(fmt) then 1 + Arity(fmt[2..]) else Arity(fmt[1..])
  }

  /** The format with its directives replaced by numbers. */
  ghost function Expand(fmt: seq<Byte>, args: seq<Word>): seq<Byte>
    requires Arity(fmt) <= |args|
    decreases |fmt|
  {
    if fmt == [] then []
    else if Directive(fmt) then TextFor(fmt[1], args[0]) + Expand(fmt[2..], args[1..])
    else [fmt[0]] + Expand(fmt[1..], args)
  }

  ghost function Pieces(fmt: seq<Byte>, args: seq<Word>): seq<Piece>
    requires Arity(fmt) <= |args|
    decreases |fmt|
  {
    if fmt == [] then []
    else if Directive(fmt) then [Number(TextFor(fmt[1], args[0]))] + Pieces(fmt[2..], args[1..])
    else [Literal(fmt[0])] + Pieces(fmt[1..], args)
  }

  // ---------- the directives, character by character ----------

  /** Up to the first percent sign everything is copied. */
  lemma {:induction false} PlainCopied(a: seq<Byte>, tail: seq<Byte>, args: seq<Word>)
    requires 37 !in a && Arity(tail) <= |args|
    ensures Arity(a + tail) == Arity(tail) && Expand(a + tail, args) == a + Expand(tail, args)
    decreases |a|
  {
    if a == [] {
      assert [] + tail == tail && [] + Expand(tail, args) == Expand(tail, args);
    } else {
      assert a[0] != 37 && 37 !in a[1..];
      assert (a + tail)[1..] == a[1..] + tail;
      PlainCopied(a[1..], tail, args);
      assert [a[0]] + (a[1..] + Expand(tail, args)) == a + Expand(tail, args);
    }
  }

  /** %u, %d and %x are replaced by their argument: unsigned, signed, and hexadecimal behind 0x. */
  lemma DirectivesExpand(a: seq<Byte>, letter: Byte, rest: seq<Byte>, n: Word, args: seq<Word>)
    requires 37 !in a && (letter == 117 || letter == 100 || letter == 120) && Arity(rest) <= |args|
    ensures Arity(a + [37, letter] + rest) == 1 + Arity(rest)
    ensures Expand(a + [37, letter] + rest, [n] + args) == a + Spelled(letter, n) + Expand(rest, args)
  {
    hide Expand, Arity, Numeral, IntText, HexText;
    var tail := [37, letter] + rest;
    DirectiveHead(letter, rest, n, args);
    PlainCopied(a, tail, [n] + args);
    assert a + [37, letter] + rest == a + tail;
    Associate(a, Spelled(letter, n), Expand(rest, args));
  }

  ghost function Spelled(letter: Byte, n: Word): seq<Byte> {
    if letter == 117 then Numeral(n, 10) else if letter == 100 then IntText(n) else HexText(n)
  }

  lemma Associate(a: seq<Byte>, b: seq<Byte>, c: seq<Byte>)
    ensures a + (b + c) == a + b + c
  {
  }

  lemma DirectiveHead(letter: Byte, rest: seq<Byte>, n: Word, args: seq<Word>)
    requires (letter == 117 || letter == 100 || letter == 120) && Arity(rest) <= |args|
    ensures Arity([37, letter] + rest) == 1 + Arity(rest)
    ensures Expand([37, letter] + rest, [n] + args) == Spelled(letter, n) + Expand(rest, args)
  {
    hide Numeral, IntText, HexText;
    var tail := [37, letter] + rest;
    assert tail[0] == 37 && tail[1] == letter && tail[2..] == rest && ([n] + args)[1..] == args;
  }

  lemma PercentHead(rest: seq<Byte>, args: seq<Word>)
    requires (rest == [] || (rest[0] != 117 && rest[0] != 100 && rest[0] != 120)) && Arity(rest) <= |args|
    ensures Arity([37] + rest) == Arity(rest) && Expand([37] + rest, args) == [37] + Expand(rest, args)
  {
    var tail := [37] + rest;
    assert tail[0] == 37 && tail[1..] == rest && (rest != [] ==> tail[1] == rest[0]);
  }

  /** A percent sign before anything else is copied, and so is one at the end. */
  lemma PercentCopied(a: seq<Byte>, rest: seq<Byte>, args: seq<Word>)
    requires 37 !in a && (rest == [] || (rest[0] != 117 && rest[0] != 100 && rest[0] != 120)) && Arity(rest) <= |args|
    ensures Arity(a + [37] + rest) == Arity(rest)
    ensures Expand(a + [37] + rest, args) == a + [37] + Expand(rest, args)
  {
    hide Expand, Arity;
    PercentHead(rest, args);
    PlainCopied(a, [37] + rest, args);
    Associate(a, [37], rest);
    Associate(a, [37], Expand(rest, args));
  }

  // ---------- splitting into messages ----------

  /** Messages sent (without their terminating zeros) and characters collected for the next one. */
  datatype Out = Out(sent: seq<seq<Byte>>, pending: seq<Byte>)

  /** Take one piece; `last` tells that nothing follows. */
  ghost function Take(o: Out, p: Piece, last: bool): Out {
    match p
    case Literal(c) =>
      if |o.pending| + 1 >= MAX_MSG_SIZE - 1 && !last then Out(o.sent + [o.pending + [c]], [])
      else Out(o.sent, o.pending + [c])
    case Number(t) =>
      if |t| >= MAX_MSG_SIZE - |o.pending| then Out(o.sent + [o.pending], t) else Out(o.sent, o.pending + t)
  }

  ghost function Feed(o: Out, ps: seq<Piece>): seq<seq<Byte>>
    decreases |ps|
  {
    if ps == [] then o.sent + [o.pending] else Feed(Take(o, ps[0], |ps| == 1), ps[1..])
  }

  function Flat(ms: seq<seq<Byte>>): seq<Byte> {
    if ms == [] then [] else ms[0] + Flat(ms[1..])
  }

  lemma {:induction false} FlatAppend(ms: seq<seq<Byte>>, m: seq<Byte>)
    ensures Flat(ms + [m]) == Flat(ms) + m
  {
    if ms == [] {
      assert [m][1..] == [];
    } else {
      assert (ms + [m])[1..] == ms[1..] + [m];
      FlatAppend(ms[1..], m);
    }
  }

  ghost function PieceText(p: Piece): seq<Byte> {
    match p case Literal(c) => [c] case Number(t) => t
  }

  ghost function PiecesText(ps: seq<Piece>): seq<Byte> {
    if ps == [] then [] else PieceText(ps[0]) + PiecesText(ps[1..])
  }

  lemma {:induction false} PiecesExpand(fmt: seq<Byte>, args: seq<Word>)
    requires Arity(fmt) <= |args|
    ensures PiecesText(Pieces(fmt, args)) == Expand(fmt, args)
    decreases |fmt|
  {
    if fmt != [] {
      if Directive(fmt) {
        PiecesExpand(fmt[2..], args[1..]);
        assert Pieces(fmt, args)[1..] == Pieces(fmt[2..], args[1..]);
      } else {
        PiecesExpand(fmt[1..], args);
        assert Pieces(fmt, args)[1..] == Pieces(fmt[1..], args);
      }
    }
  }

  /** Taking a piece loses and invents nothing. */
  lemma TakeConserves(o: Out, p: Piece, last: bool)
    ensures var r := Take(o, p, last); Flat(r.sent) + r.pending == Flat(o.sent) + o.pending + PieceText(p)
  {
    match p
    case Literal(c) => FlatAppend(o.sent, o.pending + [c]);
    case Number(t) => FlatAppend(o.sent, o.pending);
  }

  /** A message is sent before the end only if it is full: 1920 characters, or too many for the number that follows. */
  lemma SentWhenFull(o: Out, p: Piece, last: bool)
    ensures Take(o, p, last).sent != o.sent <==>
      if p.Literal? then |o.pending| + 1 >= 1920 && !last else |o.pending| + |p.text| > 1920
  {
    assert o.sent + [o.pending] != o.sent;
    assert p.Literal? ==> o.sent + [o.pending + [p.c]] != o.sent;
  }

  lemma {:induction false} FeedConserves(o: Out, ps: seq<Piece>)
    ensures Flat(Feed(o, ps)) == Flat(o.sent) + o.pending + PiecesText(ps)
    decreases |ps|
  {
    if ps == [] {
      FlatAppend(o.sent, o.pending);
    } else {
      var r := Take(o, ps[0], |ps| == 1);
      TakeConserves(o, ps[0], |ps| == 1);
      FeedConserves(r, ps[1..]);
      assert Flat(r.sent) + r.pending + PiecesText(ps[1..])
        == Flat(o.sent) + o.pending + (PieceText(ps[0]) + PiecesText(ps[1..]));
    }
  }

  /** What is sent for a format is exactly its expansion, cut into messages. */
  lemma Conservation(fmt: seq<Byte>, args: seq<Word>)
    requires Arity(fmt) <= |args|
    ensures Flat(Feed(Out([], []), Pieces(fmt, args))) == Expand(fmt, args)
  {
    FeedConserves(Out([], []), Pieces(fmt, args));
    PiecesExpand(fmt, args);
  }

  // ---------- message sizes ----------

  ghost predicate AtMost(ms: seq<seq<Byte>>, n: nat) {
    ms == [] || (|ms[0]| <= n && AtMost(ms[1..], n))
  }

  lemma {:induction false} AtMostAppend(ms: seq<seq<Byte>>, m: seq<Byte>, n: nat)
    ensures AtMost(ms + [m], n) <==> AtMost(ms, n) && |m| <= n
  {
    if ms != [] {
      assert (ms + [m])[1..] == ms[1..] + [m];
      AtMostAppend(ms[1..], m, n);
    } else {
      assert [m][1..] == [];
    }
  }

  /** Somewhere a character is copied right after a number that left room for the terminating zero only. */
  ghost predicate Overruns(o: Out, ps: seq<Piece>)
    decreases |ps|
  {
    ps != [] &&
    ((ps[0].Literal? && |o.pending| == MAX_MSG_SIZE - 1) || Overruns(Take(o, ps[0], |ps| == 1), ps[1..]))
  }

  /** Texts of numbers are short and not empty. */
  ghost predicate Small(ps: seq<Piece>) {
    ps == [] || ((ps[0].Number? ==> 0 < |ps[0].text| <= 11) && Small(ps[1..]))
  }

  lemma TakeSends(o: Out, p: Piece, last: bool, n: nat)
    ensures AtMost(Take(o, p, last).sent, n) <==>
      AtMost(o.sent, n) && (|Take(o, p, last).sent| > |o.sent| ==> |Take(o, p, last).sent[|o.sent|]| <= n)
  {
    match p
    case Literal(c) => AtMostAppend(o.sent, o.pending + [c], n);
    case Number(t) => AtMostAppend(o.sent, o.pending, n);
  }

  /** A message once sent stays sent. */
  lemma {:induction false} StaysSent(o: Out, ps: seq<Piece>, n: nat)
    requires !AtMost(o.sent, n)
    ensures !AtMost(Feed(o, ps), n)
    decreases |ps|
  {
    if ps == [] {
      AtMostAppend(o.sent, o.pending, n);
    } else {
      TakeSends(o, ps[0], |ps| == 1, n);
      StaysSent(Take(o, ps[0], |ps| == 1), ps[1..], n);
    }
  }

  /** Every message fits the buffer with its terminating zero exactly when no character is copied past the end. */
  lemma {:induction false} MessagesFit(o: Out, ps: seq<Piece>)
    requires Small(ps) && AtMost(o.sent, MAX_MSG_SIZE - 1) && |o.pending| <= MAX_MSG_SIZE - 1
    ensures AtMost(Feed(o, ps), MAX_MSG_SIZE - 1) <==> !Overruns(o, ps)
    decreases |ps|
  {
    if ps == [] {
      AtMostAppend(o.sent, o.pending, MAX_MSG_SIZE - 1);
    } else {
      var r := Take(o, ps[0], |ps| == 1);
      TakeSends(o, ps[0], |ps| == 1, MAX_MSG_SIZE - 1);
      if ps[0].Literal? && |o.pending| == MAX_MSG_SIZE - 1 {
        if |ps| == 1 {
          AtMostAppend(r.sent, r.pending, MAX_MSG_SIZE - 1);
        } else {
          StaysSent(r, ps[1..], MAX_MSG_SIZE - 1);
        }
      } else {
        MessagesFit(r, ps[1..]);
      }
    }
  }

  /** At worst a message is one character longer than fits. */
  lemma {:induction false} OneTooMany(o: Out, ps: seq<Piece>)
    requires Small(ps) && AtMost(o.sent, MAX_MSG_SIZE) && |o.pending| <= MAX_MSG_SIZE - (if ps == [] then 0 else 1)
    ensures AtMost(Feed(o, ps), MAX_MSG_SIZE)
    decreases |ps|
  {
    if ps == [] {
      AtMostAppend(o.sent, o.pending, MAX_MSG_SIZE);
    } else {
      TakeSends(o, ps[0], |ps| == 1, MAX_MSG_SIZE);
      OneTooMany(Take(o, ps[0], |ps| == 1), ps[1..]);
    }
  }

  ghost predicate NoNumbers(ps: seq<Piece>) {
    ps == [] || (ps[0].Literal? && NoNumbers(ps[1..]))
  }

  /** Plain text is always cut in time. */
  lemma {:induction false} PlainTextFits(o: Out, ps: seq<Piece>)
    requires NoNumbers(ps) && |o.pending| < MAX_MSG_SIZE - 1
    ensures !Overruns(o, ps)
    decreases |ps|
  {
    if ps != [] {
      if |ps| == 1 {
        assert ps[1..] == [];
      } else {
        PlainTextFits(Take(o, ps[0], false), ps[1..]);
      }
    }
  }

  lemma TextSmall(letter: Byte, arg: Word)
    requires Letter(letter)
    ensures 0 < |TextFor(letter, arg)| <= 11 && ZeroFree(TextFor(letter, arg))
  {
    var magnitude: Word := if arg >= 0x8000_0000 then W - arg else arg;
    PowersCover();
    NumeralLength(magnitude, 10, 10);
    NumeralLength(arg, 10, 10);
    NumeralLength(arg, 16, 8);
    NumeralCanonical(magnitude, 10);
    NumeralCanonical(arg, 10);
    NumeralCanonical(arg, 16);
  }

  lemma PowersCover()
    ensures Pow(10, 10) > W && Pow(16, 8) == W
  {
    NinthPower();
    assert Pow(16, 3) == 0x1000;
    assert Pow(16, 6) == 0x100_0000;
  }

  lemma {:induction false} PiecesSmall(fmt: seq<Byte>, args: seq<Word>)
    requires Arity(fmt) <= |args|
    ensures Small(Pieces(fmt, args))
    decreases |fmt|
  {
    if fmt != [] {
      if Directive(fmt) {
        TextSmall(fmt[1], args[0]);
        PiecesSmall(fmt[2..], args[1..]);
        assert Pieces(fmt, args)[1..] == Pieces(fmt[2..], args[1..]);
      } else {
        PiecesSmall(fmt[1..], args);
        assert Pieces(fmt, args)[1..] == Pieces(fmt[1..], args);
      }
    }
  }

  /** Messages fit the buffer exactly when no character is copied past its end, and never exceed it by more than one. */
  lemma MessageSizes(fmt: seq<Byte>, args: seq<Word>)
    requires Arity(fmt) <= |args|
    ensures var ms := Feed(Out([], []), Pieces(fmt, args));
      && (AtMost(ms, MAX_MSG_SIZE - 1) <==> !Overruns(Out([], []), Pieces(fmt, args)))
      && AtMost(ms, MAX_MSG_SIZE)
  {
    PiecesSmall(fmt, args);
    MessagesFit(Out([], []), Pieces(fmt, args));
    OneTooMany(Out([], []), Pieces(fmt, args));
  }

  /** `n` times the letter a, then "%ub". */
  ghost function Padded(n: nat): seq<Byte> {
    seq(n, i => 97) + [PERCENT, LETTER_U, 98]
  }

  lemma {:induction false} PaddedOverruns(n: nat, o: Out)
    requires |o.pending| + n == MAX_MSG_SIZE - 2
    ensures Arity(Padded(n)) == 1 && |Pieces(Padded(n), [5])| == n + 2 && Overruns(o, Pieces(Padded(n), [5]))
    decreases n
  {
    if n == 0 {
      assert Padded(0) == [PERCENT, LETTER_U, 98] && Padded(0)[2..] == [98] && [98][1..] == [];
      assert Pieces([98], []) == [Literal(98)];
      var ps := Pieces(Padded(0), [5]);
      assert Numeral(5, 10) == [53];
      assert ps == [Number([53])] + [Literal(98)];
      assert ps[1..] == [Literal(98)];
    } else {
      assert Padded(n)[1..] == Padded(n - 1);
      PaddedOverruns(n - 1, Take(o, Literal(97), false));
      assert Pieces(Padded(n), [5])[1..] == Pieces(Padded(n - 1), [5]);
    }
  }

  /** It happens: 1919 letters, a one-digit number and one more letter make a message one character too long. */
  lemma OverrunHappens()
    ensures Arity(Padded(1919)) == 1
    ensures Overruns(Out([], []), Pieces(Padded(1919), [5]))
    ensures !AtMost(Feed(Out([], []), Pieces(Padded(1919), [5])), MAX_MSG_SIZE - 1)
  {
    PaddedOverruns(1919, Out([], []));
    MessageSizes(Padded(1919), [5]);
  }

  /** The number a text stands for: hexadecimal behind "0x", decimal with an optional sign otherwise. */
  function Read(letter: Byte, text: seq<Byte>): int {
    if letter == LETTER_X && |text| >= 2 then Value(text[2..], 16)
    else if letter == LETTER_D && text != [] && text[0] == MINUS then -Value(text[1..], 10)
    else Value(text, 10)
  }

  /** Every printed number reads back as the argument, signed for %d. */
  lemma TextReadsBack(letter: Byte, arg: Word)
    requires Letter(letter)
    ensures Read(letter, TextFor(letter, arg)) == if letter == LETTER_D && arg >= 0x8000_0000 then arg - W else arg
  {
    var magnitude: Word := if arg >= 0x8000_0000 then W - arg else arg;
    NumeralReadsBack(magnitude, 10);
    NumeralReadsBack(arg, 10);
    NumeralReadsBack(arg, 16);
    NumeralCanonical(arg, 10);
    assert ([MINUS] + Numeral(magnitude, 10))[1..] == Numeral(magnitude, 10);
    assert HexText(arg)[2..] == Numeral(arg, 16);
  }

  // ---------- the loop ----------

  /** Where the loop stands: what is sent, what is in the buffer, and what is still to be expanded. */
  ghost predicate Progress(fmt: seq<Byte>, args: seq<Word>, sent: seq<seq<Byte>>, pending: seq<Byte>,
                           goal: seq<seq<Byte>>) {
    && Arity(fmt) <= |args|
    && Feed(Out(sent, pending), Pieces(fmt, args)) == goal
    && |pending| <= MAX_MSG_SIZE - (if fmt == [] then 0 else 1)
  }

  lemma Start(fmt: seq<Byte>, args: seq<Word>)
    requires Arity(fmt) <= |args|
    ensures Progress(fmt, args, [], [], Feed(Out([], []), Pieces(fmt, args)))
  {
  }

  lemma RoomLeft(fmt: seq<Byte>, args: seq<Word>, sent: seq<seq<Byte>>, pending: seq<Byte>, goal: seq<seq<Byte>>)
    requires Progress(fmt, args, sent, pending, goal)
    ensures |pending| <= MAX_MSG_SIZE && (fmt != [] ==> |pending| <= MAX_MSG_SIZE - 1)
    ensures fmt == [] ==> goal == sent + [pending]
  {
  }

  /** One literal character. */
  lemma LiteralStep(fmt: seq<Byte>, args: seq<Word>, sent: seq<seq<Byte>>, pending: seq<Byte>, goal: seq<seq<Byte>>)
    requires fmt != [] && !Directive(fmt) && Progress(fmt, args, sent, pending, goal)
    ensures if |pending| + 1 >= MAX_MSG_SIZE - 1 && |fmt| > 1
            then Progress(fmt[1..], args, sent + [pending + [fmt[0]]], [], goal)
            else Progress(fmt[1..], args, sent, pending + [fmt[0]], goal)
  {
    var ps := Pieces(fmt, args);
    assert ps[1..] == Pieces(fmt[1..], args);
    NoPieces(fmt[1..], args);
  }

  lemma NoPieces(fmt: seq<Byte>, args: seq<Word>)
    requires Arity(fmt) <= |args|
    ensures Pieces(fmt, args) == [] <==> fmt == []
  {
  }

  /** One directive. */
  lemma NumberStep(fmt: seq<Byte>, args: seq<Word>, sent: seq<seq<Byte>>, pending: seq<Byte>, goal: seq<seq<Byte>>)
    requires Directive(fmt) && Progress(fmt, args, sent, pending, goal)
    ensures |args| > 0 && var t := TextFor(fmt[1], args[0]);
      if |t| >= MAX_MSG_SIZE - |pending| then Progress(fmt[2..], args[1..], sent + [pending], t, goal)
      else Progress(fmt[2..], args[1..], sent, pending + t, goal)
  {
    TextSmall(fmt[1], args[0]);
    assert Pieces(fmt, args)[1..] == Pieces(fmt[2..], args[1..]);
  }

  /** The text of one number, by the routine its letter selects. */
  method Convert(next: Byte, arg: Word, buf: array<Byte>)
    requires Letter(next) && buf.Length == 15
    modifies buf
    ensures Holds(buf[..], 0, TextFor(next, arg))
  {
    hide Holds, IntText, Numeral, HexText, Layout;
    if next == LETTER_D {
      IntToString(arg, buf);
    } else if next == LETTER_U {
      ghost var head, tail := buf[..0], buf[0 + buf.Length..];
      UintToString(arg, buf, 0, buf.Length);
      LayoutHolds(head, Numeral(arg, 10), buf.Length - |Numeral(arg, 10)|, tail);
    } else {
      HexToString(arg, buf);
    }
  }

  /** Append the number's text to the message, sending what is there first if both would not fit. */
  method CopyNumber(msg: array<Byte>, from: nat, buf: array<Byte>, sent: seq<seq<Byte>>, ghost t: seq<Byte>)
    returns (idx: nat, out: seq<seq<Byte>>)
    requires msg != buf && ZeroFree(t) && Holds(buf[..], 0, t) && |t| <= 11
    requires from <= MAX_MSG_SIZE - 1 && msg.Length == MAX_MSG_SIZE + 1
    modifies msg
    ensures idx <= MAX_MSG_SIZE - 1
    ensures if |t| >= MAX_MSG_SIZE - from then out == sent + [old(msg[..from])] && msg[..idx] == t
            else out == sent && msg[..idx] == old(msg[..from]) + t
  {
    var len := Strlen(buf, t);
    idx, out := from, sent;
    if len >= MAX_MSG_SIZE - idx {
      msg[idx] := 0;
      out := out + [msg[..idx]];
      idx := 0;
    }
    ghost var before := msg[..idx];
    var i := 0;
    assert buf[..len] == t;
    while i < len
      invariant i <= len && idx == |before| + i
      invariant msg[..idx] == before + t[..i]
    {
      assert buf[i] == buf[..len][i];
      msg[idx] := buf[i];
      idx := idx + 1;
      i := i + 1;
    }
  }

  /** Append a character, sending the message when it is full and more follows. */
  method CopyCharacter(msg: array<Byte>, from: nat, c: Byte, more: bool, sent: seq<seq<Byte>>)
    returns (idx: nat, out: seq<seq<Byte>>)
    requires from <= MAX_MSG_SIZE - 1 && msg.Length == MAX_MSG_SIZE + 1
    modifies msg
    ensures idx <= MAX_MSG_SIZE
    ensures if from + 1 >= MAX_MSG_SIZE - 1 && more then out == sent + [old(msg[..from]) + [c]] && idx == 0
            else out == sent && msg[..idx] == old(msg[..from]) + [c]
  {
    msg[from] := c;
    idx, out := from + 1, sent;
    assert msg[..idx] == old(msg[..from]) + [c];
    if idx >= MAX_MSG_SIZE - 1 {
      if !more {
        return;
      }
      msg[idx] := 0;
      out := out + [msg[..idx]];
      idx := 0;
    }
  }

  /** Whether a directive stands at `cur`, seen from the format with its terminating zero. */
  lemma DirectiveHere(fmt: seq<Byte>, cur: nat)
    requires fmt != [] && fmt[|fmt| - 1] == 0 && cur < |fmt| - 1
    ensures Directive(fmt[..|fmt| - 1][cur..]) <==> fmt[cur] == PERCENT && Letter(fmt[cur + 1])
  {
  }

  /**
   * Expand the format and send the messages, every send succeeding. The format ends with a zero byte. The buffer
   * here has one byte more than MAX_MSG_SIZE, for the case in which a message is one character too long.
   */
  method Outf(fmt: seq<Byte>, args: seq<Word>) returns (sent: seq<seq<Byte>>)
    requires fmt != [] && fmt[|fmt| - 1] == 0 && ZeroFree(fmt[..|fmt| - 1])
    requires Arity(fmt[..|fmt| - 1]) <= |args|
    ensures sent == Feed(Out([], []), Pieces(fmt[..|fmt| - 1], args))
  {
    hide Holds, TextFor, Progress, Directive, Feed, Pieces, Arity;
    var buf := new Byte[15];
    var msg := new Byte[MAX_MSG_SIZE + 1];
    var idx: nat, cur: nat, arg: nat := 0, 0, 0;
    sent := [];
    ghost var text := fmt[..|fmt| - 1];
    ghost var goal := Feed(Out([], []), Pieces(text, args));
    assert text[0..] == text && args[0..] == args && msg[..0] == [];
    Start(text, args);
    while fmt[cur] != 0
      invariant cur <= |text| && arg <= |args| && idx <= MAX_MSG_SIZE
      invariant Progress(text[cur..], args[arg..], sent, msg[..idx], goal)
      decreases |text| - cur
    {
      DirectiveHere(fmt, cur);
      RoomLeft(text[cur..], args[arg..], sent, msg[..idx], goal);
      if fmt[cur] == PERCENT && Letter(fmt[cur + 1]) {
        NumberStep(text[cur..], args[arg..], sent, msg[..idx], goal);
        TextSmall(fmt[cur + 1], args[arg]);
        ghost var t := TextFor(fmt[cur + 1], args[arg]);
        Convert(fmt[cur + 1], args[arg], buf);
        idx, sent := CopyNumber(msg, idx, buf, sent, t);
        assert text[cur..][2..] == text[cur + 2..] && args[arg..][1..] == args[arg + 1..];
        cur, arg := cur + 2, arg + 1;
      } else {
        LiteralStep(text[cur..], args[arg..], sent, msg[..idx], goal);
        assert text[cur..][1..] == text[cur + 1..];
        idx, sent := CopyCharacter(msg, idx, fmt[cur], fmt[cur + 1] != 0, sent);
        cur := cur + 1;
      }
    }
    RoomLeft(text[cur..], args[arg..], sent, msg[..idx], goal);
    assert cur == |text|;
    ghost var last := msg[..idx];
    msg[idx] := 0;
    assert msg[..idx] == last;
    sent := sent + [msg[..idx]];
  }
}
