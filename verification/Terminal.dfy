/** The terminal screen: 24 lines of 80 cells, scrolled in place, as a window on an unbounded log of cells. */
module Terminal {
  import opened Word32

  datatype Cell = Cell(ch: Byte, attrib: Byte)

  const NO_COLUMNS := 80
  const SCREEN := 1920             // cells on the screen: 24 lines
  const SEGMENT := 2048            // cells within the limit of the video segment
  const NO_TABSPACES := 3
  const ATTRIB: Byte := 15
  const SPACE: Byte := 32
  const LF: Word := 10
  const TAB: Word := 9

  predicate Printable(c: int) {
    0x1f < c < 0x7f
  }

  // ---------- the unbounded log ----------

  ghost function Blanks(n: nat): (b: seq<Cell>)
    ensures |b| == n && forall i :: 0 <= i < n ==> b[i] == Cell(SPACE, ATTRIB)
  {
    seq(n, i => Cell(SPACE, ATTRIB))
  }

  /** A cell that shows nothing. */
  predicate Blank(c: Cell) {
    c.ch == 0 || c.ch == SPACE
  }

  predicate LineStart(n: nat) {
    n % NO_COLUMNS == 0
  }

  /** The place after `n` cells is a tabulator stop. */
  predicate TabStop(n: nat) {
    (n + 1) % NO_COLUMNS % NO_TABSPACES == 0
  }

  /** The first line start after `n`: from the first column a whole line further. */
  function NextLine(n: nat): (m: nat)
    ensures n < m && LineStart(m) && forall j {:trigger LineStart(j)} :: n < j < m ==> !LineStart(j)
  {
    n + NO_COLUMNS - n % NO_COLUMNS
  }

  lemma LineEnds(i: nat)
    requires i < SCREEN / NO_COLUMNS
    ensures NextLine(NO_COLUMNS * i) == NO_COLUMNS * (i + 1)
    ensures Scrolls(NO_COLUMNS * i) <= Scrolls(NO_COLUMNS * (i + 1))
    ensures Scrolls(NO_COLUMNS * i) == 0 && (i + 1 == SCREEN / NO_COLUMNS ==> Scrolls(NO_COLUMNS * (i + 1)) == 1)
  {
  }

  /** The first tabulator stop after `n`. */
  function NextStop(n: nat): (m: nat)
    ensures n < m && TabStop(m) && forall j {:trigger TabStop(j)} :: n < j < m ==> !TabStop(j)
    decreases (NO_COLUMNS - (n + 2) % NO_COLUMNS) % NO_COLUMNS
  {
    if TabStop(n + 1) then n + 1
    else
      StopAhead(n + 2);
      NextStop(n + 1)
  }

  lemma StopAhead(n: nat)
    requires n % NO_COLUMNS % NO_TABSPACES != 0
    ensures (NO_COLUMNS - (n + 1) % NO_COLUMNS) % NO_COLUMNS < (NO_COLUMNS - n % NO_COLUMNS) % NO_COLUMNS
  {
  }

  /** What writing a character adds to the log. */
  ghost function Extend(log: seq<Cell>, what: Word): seq<Cell> {
    if Printable(what % 256) then log + [Cell(what % 256, ATTRIB)]
    else if what == LF then log + Blanks(NextLine(|log|) - |log|)
    else if what == TAB then log + Blanks(NextStop(|log|) - |log|)
    else log
  }

  /** Blanks have been added, at least one, and nothing else. */
  ghost predicate OnlyBlanks(log: seq<Cell>, r: seq<Cell>) {
    |log| < |r| && r[..|log|] == log && forall i :: |log| <= i < |r| ==> r[i] == Cell(32, 15)
  }

  /** Line starts and tabulator stops in numbers. */
  lemma PlacesMean(n: nat)
    ensures LineStart(n) <==> n % 80 == 0
    ensures TabStop(n) <==> (n + 1) % 80 % 3 == 0
  {
  }

  /**
   * What a character does to the log: from 32 to 126 it is appended; 10 pads to the next line start, 9 to the next
   * stop, each by at least one blank; anything else does nothing.
   */
  lemma ExtendMeans(log: seq<Cell>, what: Word)
    ensures var c, r := what % 256, Extend(log, what);
      if 32 <= c <= 126 then r == log + [Cell(c, 15)]
      else if what == 10 then
        OnlyBlanks(log, r) && LineStart(|r|) && forall n {:trigger LineStart(n)} :: |log| < n < |r| ==> !LineStart(n)
      else if what == 9 then
        OnlyBlanks(log, r) && TabStop(|r|) && forall n {:trigger TabStop(n)} :: |log| < n < |r| ==> !TabStop(n)
      else r == log
  {
    hide LineStart, TabStop, NextLine, NextStop;
  }

  ghost function ExtendAll(log: seq<Cell>, text: seq<Word>): seq<Cell>
    decreases |text|
  {
    if text == [] then log else ExtendAll(Extend(log, text[0]), text[1..])
  }

  /** How often a log of this length has scrolled the screen. */
  function Scrolls(length: nat): nat {
    if length < SCREEN then 0 else (length - SCREEN) / NO_COLUMNS + 1
  }

  /** Scrolling is as much as needed and no more: the window holds at least 23 lines and less than 24. */
  lemma ScrollsFit(length: nat)
    ensures NO_COLUMNS * Scrolls(length) <= length < NO_COLUMNS * Scrolls(length) + SCREEN
    ensures Scrolls(length) > 0 ==> length - NO_COLUMNS * Scrolls(length) >= SCREEN - NO_COLUMNS
  {
  }

  lemma ScrollsNext(length: nat, scrolled: nat)
    requires NO_COLUMNS * scrolled <= length < NO_COLUMNS * scrolled + SCREEN && Scrolls(length) <= scrolled
    ensures Scrolls(length + 1) <= scrolled + 1
    ensures length + 1 == NO_COLUMNS * scrolled + SCREEN ==> Scrolls(length + 1) == scrolled + 1
    ensures length + 1 != NO_COLUMNS * scrolled + SCREEN ==> Scrolls(length + 1) <= scrolled
  {
  }

  lemma ScrollsGrow(length: nat)
    ensures Scrolls(length) <= Scrolls(length + 1)
  {
  }

  /** The column of the cursor is the column of the log's end. */
  lemma Columns(length: nat, scrolled: nat)
    requires NO_COLUMNS * scrolled <= length
    ensures 2 * (length - NO_COLUMNS * scrolled) % (NO_COLUMNS * 2) == 0 <==> LineStart(length)
    ensures (2 * (length - NO_COLUMNS * scrolled) + 2) % (NO_COLUMNS * 2) % (NO_TABSPACES * 2) == 0 <==> TabStop(length)
  {
    var d := length - NO_COLUMNS * scrolled;
    assert length % NO_COLUMNS == d % NO_COLUMNS;
    assert (length + 1) % NO_COLUMNS == (d + 1) % NO_COLUMNS;
    Doubled(d);
    Doubled(d + 1);
  }

  lemma Doubled(d: nat)
    ensures 2 * d % 160 == 2 * (d % 80) && 2 * d % 160 % 6 == 2 * (d % 80 % 3)
  {
    var x := d % 80;
    QuotientUnique(2 * d, 160, d / 80, 2 * x);
    QuotientUnique(2 * x, 6, x / 3, 2 * (x % 3));
  }

  function Max(a: nat, b: nat): nat {
    if a < b then b else a
  }

  // ---------- the screen ----------

  class Screen {
    const cells: array<Cell>
    var cursor: nat                // byte offset into the video segment
    ghost var log: seq<Cell>       // everything written, without what was erased
    ghost var scrolled: nat        // lines scrolled off

    /** The cells before the cursor are the end of the log, from the first line not scrolled off. */
    ghost predicate Window()
      reads this, cells
    {
      && cells.Length == SEGMENT
      && NO_COLUMNS * scrolled <= |log| < NO_COLUMNS * scrolled + SCREEN
      && Scrolls(|log|) <= scrolled
      && cursor == 2 * (|log| - NO_COLUMNS * scrolled)
      && cells[..|log| - NO_COLUMNS * scrolled] == log[NO_COLUMNS * scrolled..]
    }

    /** The screen is blank from a cell on. */
    ghost predicate BlankFrom(from: int)
      requires cells.Length == SEGMENT
      reads cells
    {
      forall i {:trigger cells[i]} :: 0 <= from <= i < SCREEN ==> Blank(cells[i])
    }

    /** Nothing is visible from the cursor on. */
    ghost predicate Behind()
      reads this, cells
    {
      cells.Length == SEGMENT && BlankFrom(cursor / 2)
    }

    /** The screen shows the end of the log and nothing else. */
    ghost predicate Valid()
      reads this, cells
    {
      Window() && Behind()
    }

    /** The cursor at the top of a screen that may show anything. */
    constructor (cells: array<Cell>)
      requires cells.Length == SEGMENT
      ensures Window() && log == [] && scrolled == 0 && this.cells == cells
    {
      this.cells, cursor := cells, 0;
      log, scrolled := [], 0;
    }

    /** Set the attribute under the cursor. Programming the cursor ports is not part of this model. */
    method MoveCursor()
      requires Window()
      modifies cells
      ensures Window() && (old(Behind()) ==> Behind())
      ensures forall i :: 0 <= i < SCREEN ==> cells[i].ch == old(cells[i].ch)
    {
      cells[cursor / 2] := cells[cursor / 2].(attrib := ATTRIB);
    }

    /** Clear the screen: a line feed for each of its lines, then the cursor goes back to the top. */
    method Cls()
      requires cells.Length == SEGMENT
      modifies this, cells
      ensures Valid() && log == [] && scrolled == 0
    {
      cursor := 0;
      log, scrolled := [], 0;
      for i := 0 to SCREEN / NO_COLUMNS
        invariant Window() && log == Blanks(NO_COLUMNS * i) && scrolled == Scrolls(NO_COLUMNS * i)
        invariant i == SCREEN / NO_COLUMNS ==> Behind()
      {
        LineEnds(i);
        PutCharacter(LF);
        assert log == Blanks(NO_COLUMNS * (i + 1));
      }
      AllBlank();
      cursor := 0;
      log, scrolled := [], 0;
    }

    lemma AllBlank()
      requires Valid() && log == Blanks(SCREEN) && scrolled == Scrolls(SCREEN)
      ensures BlankFrom(0)
    {
      assert scrolled == 1;
      forall i {:trigger cells[i]} | 0 <= i < SCREEN
        ensures Blank(cells[i])
      {
        if i < SCREEN - NO_COLUMNS {
          assert cells[..SCREEN - NO_COLUMNS][i] == log[NO_COLUMNS..][i];
        }
      }
    }

    /** Move all lines up by one and blank the last one. */
    method ScrollScreen()
      requires cells.Length == SEGMENT
      modifies cells
      ensures forall i :: 0 <= i < SCREEN - NO_COLUMNS ==> cells[i] == old(cells[i + NO_COLUMNS])
      ensures forall i :: SCREEN - NO_COLUMNS <= i < SCREEN ==> cells[i] == Cell(0, ATTRIB)
      ensures forall i :: SCREEN <= i < SEGMENT ==> cells[i] == old(cells[i])
    {
      // Two cells at a time, as double words.
      var ecx, esi, edi := (SCREEN - NO_COLUMNS) / 2, NO_COLUMNS, 0;
      while ecx > 0
        invariant 0 <= ecx && edi == SCREEN - NO_COLUMNS - 2 * ecx && esi == edi + NO_COLUMNS
        invariant forall i :: 0 <= i < edi ==> cells[i] == old(cells[i + NO_COLUMNS])
        invariant forall i :: edi <= i < SEGMENT ==> cells[i] == old(cells[i])
      {
        cells[edi], cells[edi + 1] := cells[esi], cells[esi + 1];
        ecx, esi, edi := ecx - 1, esi + 2, edi + 2;
      }
      var eax := SCREEN - NO_COLUMNS;
      while eax < SCREEN
        invariant SCREEN - NO_COLUMNS <= eax <= SCREEN && eax % 2 == 0
        invariant forall i :: 0 <= i < SCREEN - NO_COLUMNS ==> cells[i] == old(cells[i + NO_COLUMNS])
        invariant forall i :: SCREEN - NO_COLUMNS <= i < eax ==> cells[i] == Cell(0, ATTRIB)
        invariant forall i :: SCREEN <= i < SEGMENT ==> cells[i] == old(cells[i])
      {
        cells[eax], cells[eax + 1] := Cell(0, ATTRIB), Cell(0, ATTRIB);
        eax := eax + 2;
      }
    }

    /** The branch for a printable character. What stands under the cursor is overwritten. */
    method PutPrintable(c: Byte)
      requires Window()
      modifies this, cells
      ensures Window() && log == old(log) + [Cell(c, ATTRIB)]
      ensures scrolled == Max(old(scrolled), Scrolls(|log|))
      ensures old(BlankFrom(cursor / 2 + 1)) || scrolled > old(scrolled) ==> Behind()
      ensures scrolled == old(scrolled) ==> cells[old(cursor) / 2].ch == c
    {
      ScrollsNext(|log|, scrolled);
      var eax := cursor;
      cells[eax / 2] := Cell(c, ATTRIB);
      ghost var k := NO_COLUMNS * scrolled;
      log := log + [Cell(c, ATTRIB)];
      assert cells[..|log| - k] == log[k..];
      eax := eax + 2;
      if eax >= SCREEN * 2 {
        ghost var before := cells[..SCREEN];
        assert before == log[k..];
        ScrollScreen();
        assert cells[..SCREEN - NO_COLUMNS] == before[NO_COLUMNS..];
        eax := eax - NO_COLUMNS * 2;
        scrolled := scrolled + 1;
        assert log[k + NO_COLUMNS..] == log[k..][NO_COLUMNS..];
      }
      cursor := eax;
      MoveCursor();
    }

    /** A blank, and where the cursor stands after it. */
    method PutBlank()
      requires Window()
      modifies this, cells
      ensures Window() && (old(Behind()) || scrolled > old(scrolled) ==> Behind())
      ensures log == old(log) + [Cell(SPACE, ATTRIB)]
      ensures scrolled == Max(old(scrolled), Scrolls(|log|)) && Scrolls(|old(log)|) <= Scrolls(|log|)
      ensures cursor % (NO_COLUMNS * 2) == 0 <==> LineStart(|log|)
      ensures (cursor + 2) % (NO_COLUMNS * 2) % (NO_TABSPACES * 2) == 0 <==> TabStop(|log|)
    {
      hide Scrolls, LineStart, TabStop;
      ScrollsGrow(|log|);
      PutPrintable(SPACE);
      Columns(|log|, scrolled);
    }

    method LineFeed()
      requires Window()
      modifies this, cells
      ensures Window() && (old(Behind()) || scrolled > old(scrolled) ==> Behind())
      ensures log == old(log) + Blanks(NextLine(|old(log)|) - |old(log)|)
      ensures scrolled == Max(old(scrolled), Scrolls(|log|))
    {
      hide Window, Behind, Scrolls, LineStart;
      ghost var was, before, blank := log, scrolled, Behind();
      PutBlank();
      while cursor % (NO_COLUMNS * 2) != 0
        invariant Window() && (blank || scrolled > before ==> Behind())
        invariant |was| < |log| <= NextLine(|was|) && log == was + Blanks(|log| - |was|)
        invariant scrolled == Max(before, Scrolls(|log|))
        invariant cursor % (NO_COLUMNS * 2) == 0 <==> LineStart(|log|)
        decreases NextLine(|was|) - |log|
      {
        PutBlank();
      }
    }

    method Tabulate()
      requires Window()
      modifies this, cells
      ensures Window() && (old(Behind()) || scrolled > old(scrolled) ==> Behind())
      ensures log == old(log) + Blanks(NextStop(|old(log)|) - |old(log)|)
      ensures scrolled == Max(old(scrolled), Scrolls(|log|))
    {
      hide Window, Behind, Scrolls, TabStop;
      ghost var was, before, blank := log, scrolled, Behind();
      PutBlank();
      while (cursor + 2) % (NO_COLUMNS * 2) % (NO_TABSPACES * 2) != 0
        invariant Window() && (blank || scrolled > before ==> Behind())
        invariant |was| < |log| <= NextStop(|was|) && log == was + Blanks(|log| - |was|)
        invariant scrolled == Max(before, Scrolls(|log|))
        invariant (cursor + 2) % (NO_COLUMNS * 2) % (NO_TABSPACES * 2) == 0 <==> TabStop(|log|)
        decreases NextStop(|was|) - |log|
      {
        PutBlank();
      }
    }

    /** Write a character: the screen stays a window on the log, which grows by what the character stands for. */
    method PutCharacter(what: Word)
      requires Window()
      modifies this, cells
      ensures Window() && (old(Behind()) || scrolled > old(scrolled) ==> Behind())
      ensures log == Extend(old(log), what)
      ensures scrolled == Max(old(scrolled), Scrolls(|log|))
    {
      hide Scrolls;
      if Printable(what % 256) {
        PutPrintable(what % 256);
      } else if what == LF {
        LineFeed();
        MoveCursor();
      } else if what == TAB {
        Tabulate();
        MoveCursor();
      } else {
        MoveCursor();
      }
    }

    /** Write a string up to its terminating zero. */
    method PutString(what: seq<Byte>)
      requires Window()
      modifies this, cells
      ensures Window() && (old(Behind()) || scrolled > old(scrolled) ==> Behind())
      ensures log == ExtendAll(old(log), Text(what))
      ensures scrolled == Max(old(scrolled), Scrolls(|log|))
    {
      hide Window, Behind, Extend;
      ghost var was, text := log, Text(what);
      ghost var before, blank := scrolled, Behind();
      ScrolledEnough();
      var i := 0;
      while i < |what| && what[i] != 0
        invariant i <= |text| && i <= |what| && Text(what[i..]) == text[i..]
        invariant Window() && (blank || scrolled > before ==> Behind())
        invariant ExtendAll(log, text[i..]) == ExtendAll(was, text)
        invariant scrolled == Max(before, Scrolls(|log|))
      {
        assert what[i..][1..] == what[i + 1..] && text[i..][1..] == text[i + 1..];
        ExtendGrows(log, what[i]);
        ScrollsMonotone(|log|, |Extend(log, what[i])|);
        PutCharacter(what[i]);
        i := i + 1;
      }
      assert Text(what[i..]) == [] by {
        assert i < |what| ==> what[i..][0] == 0;
      }
      assert text[i..] == [];
    }

    lemma ScrolledEnough()
      requires Window()
      ensures scrolled == Max(scrolled, Scrolls(|log|))
    {
    }

    /**
     * Erase the character before the cursor. With the cursor at the very start of the screen the address wraps
     * and lies outside the segment, which faults: that is the only case in which the log is not just shortened.
     */
    method Backspace() returns (fault: bool)
      requires Valid()
      modifies this, cells
      ensures fault <==> |old(log)| == NO_COLUMNS * old(scrolled)
      ensures !fault ==> Valid() && log == old(log)[..|old(log)| - 1] && scrolled == old(scrolled)
      ensures !fault ==> cells[cursor / 2].ch == SPACE
    {
      hide Scrolls;
      var ax := if cursor >= 2 then cursor - 2 else cursor + 0x1_0000 - 2;
      fault := ax / 2 >= SEGMENT;
      if fault {
        cursor := ax;
        return;
      }
      ghost var all := log;
      Retreat(ax);
      PutPrintable(SPACE);
      Retreat(cursor - 2);
      assert log == all[..|all| - 1];
      MoveCursor();
    }

    /** The cursor goes back by one cell. */
    method Retreat(to: nat)
      requires Window() && cursor >= 2 && to == cursor - 2
      modifies this
      ensures Window() && cursor == to && scrolled == old(scrolled)
      ensures log == old(log)[..|old(log)| - 1]
    {
      ghost var k, all := NO_COLUMNS * scrolled, log;
      cursor := to;
      log := all[..|all| - 1];
      assert cells[..|log| - k] == log[k..];
      ScrollsGrow(|log|);
    }
  }

  /** A string up to its terminating zero. */
  function Text(what: seq<Byte>): seq<Byte> {
    if what == [] || what[0] == 0 then [] else [what[0]] + Text(what[1..])
  }

  /** A string ends before its first zero. */
  lemma {:induction false} TextMeans(t: seq<Byte>, rest: seq<Byte>)
    requires 0 !in t
    ensures Text(t) == t && Text(t + [0] + rest) == t
  {
    if t != [] {
      assert t[0] != 0 && 0 !in t[1..];
      assert (t + [0] + rest)[1..] == t[1..] + [0] + rest;
      TextMeans(t[1..], rest);
    } else {
      assert (t + [0] + rest)[0] == 0;
    }
  }

  lemma ExtendGrows(log: seq<Cell>, what: Word)
    ensures log <= Extend(log, what)
  {
  }

  lemma ScrollsMonotone(a: nat, b: nat)
    requires a <= b
    ensures Scrolls(a) <= Scrolls(b)
  {
  }
}
