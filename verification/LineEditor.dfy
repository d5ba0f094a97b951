/** The terminal's line editor: what is typed, what of it is visible, and how messages interrupt it. */
module LineEditor {
  import opened Word32
  import opened Terminal
  import N = Numerals

  const BUFFER_SIZE := 1919        // one less than the screen holds

  /** What the screen has been told to show. */
  datatype Display = Display(log: seq<Cell>, scrolled: nat)

  /**
   * `line` is where in the log the current input line begins, `digits` how many digit keys have been pressed on it,
   * and `peak` the most cells it has had.
   */
  datatype Editor = Editor(
    buffer: seq<Byte>, echoed: seq<bool>, echo: bool, dirty: bool,
    display: Display, line: nat, digits: nat, peak: nat, sent: seq<seq<Byte>>)

  const FRESH: Editor := Editor([], [], true, false, Display([], 0), 0, 0, 0, [])

  /** A letter or digit key, the other keys the editor handles, and an incoming message without its last byte. */
  datatype Event = Letter(c: Byte) | Digit(n: nat) | Erase | ToggleEcho | Enter | Message(text: seq<Byte>)

  // ---------- the display ----------

  ghost function Shown(d: Display, log: seq<Cell>): Display {
    Display(log, Max(d.scrolled, Scrolls(|log|)))
  }

  ghost function Write(d: Display, text: seq<Byte>): Display {
    Shown(d, ExtendAll(d.log, text))
  }

  ghost predicate Sound(d: Display) {
    NO_COLUMNS * d.scrolled <= |d.log| < NO_COLUMNS * d.scrolled + SCREEN && Scrolls(|d.log|) <= d.scrolled
  }

  /** Erasing on a display that shows nothing before the cursor faults. */
  predicate Exhausted(d: Display) {
    |d.log| == NO_COLUMNS * d.scrolled
  }

  // ---------- the events ----------

  /** The characters of the buffer that were echoed when typed. */
  ghost function Visible(buffer: seq<Byte>, echoed: seq<bool>): (v: seq<Byte>)
    requires |echoed| == |buffer|
    ensures |v| <= |buffer| && forall i :: 0 <= i < |v| ==> v[i] in buffer
    decreases |buffer|
  {
    if buffer == [] then []
    else
      var n: int := |buffer| - 1;
      Visible(buffer[..n], echoed[..n]) + (if echoed[n] then [buffer[n]] else [])
  }

  /** Before a key is served an interrupted input line is written again. */
  ghost function Restore(e: Editor): Editor
    requires |e.echoed| == |e.buffer|
  {
    if e.dirty then Grow(e, Visible(e.buffer, e.echoed)).(dirty := false) else e
  }

  /** How many cells the input line has. */
  ghost function Length(e: Editor): nat {
    if |e.display.log| < e.line then 0 else |e.display.log| - e.line
  }

  /** Text is written on the input line. */
  ghost function Grow(e: Editor, text: seq<Byte>): Editor {
    var r := e.(display := Write(e.display, text));
    r.(peak := Max(e.peak, Length(r)))
  }

  ghost function Type(e: Editor, c: Byte): Editor {
    if |e.buffer| < BUFFER_SIZE then
      (if e.echo then Grow(e, [c]) else e).(buffer := e.buffer + [c], echoed := e.echoed + [e.echo])
    else e
  }

  /** A digit key shows its digit on the input line and leaves the buffer alone. */
  ghost function Dial(e: Editor, n: nat): Editor
    requires n <= 9
  {
    Grow(e, [N.Digit(n)]).(digits := e.digits + 1)
  }

  /** The start of the hidden characters at the end. */
  ghost function HiddenFrom(echoed: seq<bool>): (m: nat)
    ensures m <= |echoed| && (forall i :: m <= i < |echoed| ==> !echoed[i]) && (m > 0 ==> echoed[m - 1])
  {
    if echoed == [] || echoed[|echoed| - 1] then |echoed| else HiddenFrom(echoed[..|echoed| - 1])
  }

  /** Backspace would leave the screen. */
  ghost predicate Faults(e: Editor)
    requires |e.echoed| == |e.buffer|
  {
    e.buffer != [] && e.echoed[|e.buffer| - 1] && Exhausted(e.display)
  }

  ghost function EraseLast(e: Editor): Editor
    requires |e.echoed| == |e.buffer|
    requires e.buffer != [] && e.echoed[|e.buffer| - 1] ==> e.display.log != []
  {
    var n: int := |e.buffer| - 1;
    if n < 0 then e
    else if e.echoed[n] then
      e.(buffer := e.buffer[..n], echoed := e.echoed[..n],
         display := e.display.(log := e.display.log[..|e.display.log| - 1]))
    else e.(buffer := e.buffer[..HiddenFrom(e.echoed)], echoed := e.echoed[..HiddenFrom(e.echoed)])
  }

  /** A new input line begins at the end of the log. */
  ghost function NewLine(e: Editor): Editor {
    var d := Write(e.display, [10]);
    e.(display := d, line := |d.log|, digits := 0, peak := 0)
  }

  ghost function Send(e: Editor): Editor {
    NewLine(e).(sent := e.sent + [e.buffer + [0]], buffer := [], echoed := [])
  }

  ghost function Interrupt(e: Editor, text: seq<Byte>): Editor {
    var x := if e.buffer != [] then NewLine(e).(dirty := true) else e;
    NewLine(x.(display := Write(x.display, Text(text))))
  }

  ghost predicate StepFaults(e: Editor, ev: Event)
    requires |e.echoed| == |e.buffer|
  {
    ev.Erase? && Faults(Restore(e))
  }

  ghost function Step(e: Editor, ev: Event): Editor
    requires Agreement(e) && Typed(ev)
  {
    RestoreAgrees(e);
    VisibleOnDisplay(Restore(e));
    match ev
    case Letter(c) => Type(Restore(e), c)
    case Digit(n) => Dial(Restore(e), n)
    case Erase => EraseLast(Restore(e))
    case ToggleEcho => var r := Restore(e); r.(echo := !r.echo)
    case Enter => Send(Restore(e))
    case Message(text) => Interrupt(e, text)
  }

  /** The keymap only produces printable letters and single digits. */
  predicate Typed(ev: Event) {
    (ev.Letter? ==> Printable(ev.c)) && (ev.Digit? ==> ev.n <= 9)
  }

  // ---------- agreement ----------

  ghost function Cells(text: seq<Byte>): seq<Cell> {
    seq(|text|, i requires 0 <= i < |text| => Cell(text[i], ATTRIB))
  }

  /**
   * The input line begins in the first column, and either its beginning is still on the screen or exactly as many lines
   * have scrolled off as its greatest length required.
   */
  ghost predicate Anchored(e: Editor) {
    && LineStart(e.line) && Scrolls(e.line + e.peak) <= e.display.scrolled
    && (NO_COLUMNS * e.display.scrolled <= e.line || e.display.scrolled == Scrolls(e.line + e.peak))
  }

  /** What stands on the input line of an editor that is not interrupted. */
  ghost predicate Written(e: Editor)
    requires |e.echoed| == |e.buffer|
  {
    var v := Visible(e.buffer, e.echoed);
    && e.line <= |e.display.log| && Length(e) == |v| + e.digits
    && (e.digits == 0 ==> e.display.log[e.line..] == Cells(v))
  }

  /**
   * Without digits what stands on the input line is what is in the buffer and was echoed, with digits it is as many
   * cells longer; and nothing stands there while the line is interrupted.
   */
  ghost predicate Agreement(e: Editor) {
    && |e.echoed| == |e.buffer| <= BUFFER_SIZE
    && (forall i {:trigger e.buffer[i]} :: 0 <= i < |e.buffer| ==> Printable(e.buffer[i]))
    && Sound(e.display) && Anchored(e) && Length(e) <= e.peak
    && (if e.dirty then e.buffer != [] && |e.display.log| == e.line && e.digits == e.peak == 0 else Written(e))
  }

  lemma {:induction false} WritePrintable(log: seq<Cell>, text: seq<Byte>)
    requires forall i {:trigger text[i]} :: 0 <= i < |text| ==> Printable(text[i])
    ensures ExtendAll(log, text) == log + Cells(text)
    decreases |text|
  {
    if text != [] {
      WritePrintable(Extend(log, text[0]), text[1..]);
      assert log + Cells(text) == Extend(log, text[0]) + Cells(text[1..]);
    }
  }

  lemma {:induction false} ExtendAllGrows(log: seq<Cell>, text: seq<Word>)
    ensures log <= ExtendAll(log, text)
    decreases |text|
  {
    if text != [] {
      ExtendGrows(log, text[0]);
      ExtendAllGrows(Extend(log, text[0]), text[1..]);
    }
  }

  lemma SoundWrite(d: Display, text: seq<Byte>)
    requires Sound(d)
    ensures Sound(Write(d, text)) && d.log <= Write(d, text).log
  {
    ExtendAllGrows(d.log, text);
    var length := |ExtendAll(d.log, text)|;
    ScrollsFit(length);
  }

  /** How many cells of a line that once had `peak` cells have scrolled off. */
  function ScrolledOff(peak: nat): nat {
    if peak < SCREEN then 0 else NO_COLUMNS * ((peak - SCREEN) / NO_COLUMNS + 1)
  }

  lemma LineScrolls(line: nat, peak: nat)
    requires LineStart(line)
    ensures if peak < SCREEN then NO_COLUMNS * Scrolls(line + peak) <= line
            else NO_COLUMNS * Scrolls(line + peak) == line + ScrolledOff(peak)
  {
  }

  /** Writing on the input line keeps it anchored. */
  lemma GrowAnchored(e: Editor, text: seq<Byte>)
    requires Sound(e.display) && Anchored(e) && e.line <= |e.display.log| && Length(e) <= e.peak
    ensures var r := Grow(e, text);
      && Sound(r.display) && Anchored(r) && e.display.log <= r.display.log
      && r.line <= |r.display.log| && Length(r) <= r.peak
  {
    hide Write, LineStart, Scrolls;
    SoundWrite(e.display, text);
    var r := Grow(e, text);
    WriteScrolls(e.display, text);
    if Length(r) <= e.peak {
      ScrollsMonotone(|r.display.log|, e.line + e.peak);
    } else {
      ScrollsMonotone(e.line + e.peak, |r.display.log|);
    }
  }

  lemma AnchoredAlike(e: Editor, r: Editor)
    requires Anchored(e) && r.line == e.line && r.peak == e.peak && r.display == e.display
    ensures Anchored(r)
  {
  }

  lemma WriteScrolls(d: Display, text: seq<Byte>)
    ensures Write(d, text).scrolled == Max(d.scrolled, Scrolls(|Write(d, text).log|))
  {
  }

  lemma VisiblePrintable(buffer: seq<Byte>, echoed: seq<bool>)
    requires |echoed| == |buffer| && forall i {:trigger buffer[i]} :: 0 <= i < |buffer| ==> Printable(buffer[i])
    ensures var v := Visible(buffer, echoed); forall i {:trigger v[i]} :: 0 <= i < |v| ==> Printable(v[i])
  {
  }

  lemma VisibleAppend(buffer: seq<Byte>, echoed: seq<bool>, c: Byte, echo: bool)
    requires |echoed| == |buffer|
    ensures Visible(buffer + [c], echoed + [echo]) == Visible(buffer, echoed) + (if echo then [c] else [])
  {
    assert (buffer + [c])[..|buffer|] == buffer && (echoed + [echo])[..|buffer|] == echoed;
  }

  /** Hidden characters at the end are invisible. */
  lemma {:induction false} HiddenInvisible(buffer: seq<Byte>, echoed: seq<bool>)
    requires |echoed| == |buffer|
    ensures Visible(buffer[..HiddenFrom(echoed)], echoed[..HiddenFrom(echoed)]) == Visible(buffer, echoed)
    decreases |buffer|
  {
    var n: int := |buffer| - 1;
    if buffer == [] || echoed[n] {
      assert buffer[..|buffer|] == buffer && echoed[..|buffer|] == echoed;
    } else {
      HiddenInvisible(buffer[..n], echoed[..n]);
      var m := HiddenFrom(echoed);
      assert buffer[..n][..m] == buffer[..m] && echoed[..n][..m] == echoed[..m];
    }
  }

  lemma RestoreAgrees(e: Editor)
    requires Agreement(e)
    ensures Agreement(Restore(e)) && !Restore(e).dirty
  {
    hide Sound, Anchored, Scrolls, ExtendAll, Visible, LineStart;
    if e.dirty {
      var v := Visible(e.buffer, e.echoed);
      VisiblePrintable(e.buffer, e.echoed);
      WritePrintable(e.display.log, v);
      GrowAnchored(e, v);
      AnchoredAlike(Grow(e, v), Restore(e));
      assert (e.display.log + Cells(v))[e.line..] == Cells(v);
    }
  }

  /** The last character of an undisturbed line, if echoed, still has a cell. */
  lemma VisibleOnDisplay(e: Editor)
    requires Agreement(e) && !e.dirty
    ensures e.buffer != [] && e.echoed[|e.buffer| - 1] ==> e.line < |e.display.log|
  {
    hide Anchored, Sound, LineStart, Scrolls;
  }

  /**
   * Backspace leaves the screen exactly when the input line has once been at least as long as the screen and now ends
   * exactly where its scrolled-off part ends, with an echoed character last in the buffer.
   */
  lemma FaultsIff(e: Editor)
    requires Agreement(e) && !e.dirty
    ensures Faults(e) <==>
      && e.buffer != [] && e.echoed[|e.buffer| - 1]
      && e.peak >= SCREEN && |Visible(e.buffer, e.echoed)| + e.digits == ScrolledOff(e.peak)
  {
    hide Scrolls, Visible, LineStart;
    VisibleOnDisplay(e);
    LineScrolls(e.line, e.peak);
  }

  /** No digit has been pressed on the input line, which has never been longer than the buffer. */
  ghost predicate Plain(e: Editor) {
    e.digits == 0 && e.peak <= BUFFER_SIZE
  }

  /** Without digits the input line never scrolls off, so backspace always finds its character on the screen. */
  lemma NeverFaults(e: Editor)
    requires Agreement(e) && Plain(e)
    ensures Plain(Restore(e)) && !Faults(Restore(e))
  {
    hide Sound, Anchored, Visible, Faults;
    RestoreAgrees(e);
    RestorePlain(e);
    FaultsIff(Restore(e));
  }

  lemma RestorePlain(e: Editor)
    requires Agreement(e) && Plain(e)
    ensures Plain(Restore(e))
  {
    hide Sound, Anchored, Visible, Scrolls;
    RestoreAgrees(e);
  }

  // ---------- every event keeps the agreement ----------

  lemma TypeAgrees(e: Editor, c: Byte)
    requires Agreement(e) && !e.dirty && Printable(c)
    ensures Agreement(Type(e, c))
  {
    hide Sound, Anchored, Scrolls, ExtendAll, Visible, LineStart;
    if |e.buffer| < BUFFER_SIZE {
      VisibleAppend(e.buffer, e.echoed, c, e.echo);
      if e.echo {
        WritePrintable(e.display.log, [c]);
        GrowAnchored(e, [c]);
        AnchoredAlike(Grow(e, [c]), Type(e, c));
        var v := Visible(e.buffer, e.echoed);
        if e.digits == 0 {
          assert (e.display.log + Cells([c]))[e.line..] == Cells(v) + Cells([c]) == Cells(v + [c]);
        }
      } else {
        AnchoredAlike(e, Type(e, c));
      }
    }
  }

  lemma DialAgrees(e: Editor, n: nat)
    requires Agreement(e) && !e.dirty && n <= 9
    ensures Agreement(Dial(e, n))
  {
    hide Sound, Anchored, Scrolls, ExtendAll, Visible, LineStart;
    WritePrintable(e.display.log, [N.Digit(n)]);
    GrowAnchored(e, [N.Digit(n)]);
    AnchoredAlike(Grow(e, [N.Digit(n)]), Dial(e, n));
  }

  /** What a digit key shows. */
  lemma DigitShows(e: Editor, n: nat)
    requires n <= 9
    ensures var r := Dial(e, n);
      r.display.log == e.display.log + [Cell(48 + n, 15)] && r.buffer == e.buffer && r.echoed == e.echoed
  {
    WritePrintable(e.display.log, [N.Digit(n)]);
    assert Cells([N.Digit(n)]) == [Cell(48 + n, 15)];
  }

  lemma EraseEchoedAgrees(e: Editor)
    requires Agreement(e) && !e.dirty && !Faults(e) && e.buffer != [] && e.echoed[|e.buffer| - 1]
    ensures e.display.log != [] && Agreement(EraseLast(e))
  {
    hide Scrolls, LineStart, HiddenFrom;
    var n := |e.buffer| - 1;
    VisibleOnDisplay(e);
    if e.digits == 0 {
      CellsShorter(e.display.log, e.line, Visible(e.buffer[..n], e.echoed[..n]), e.buffer[n]);
    }
    SoundShorter(e.display);
  }

  lemma EraseHiddenAgrees(e: Editor)
    requires Agreement(e) && !e.dirty && e.buffer != [] && !e.echoed[|e.buffer| - 1]
    ensures Agreement(EraseLast(e))
  {
    hide Sound, Anchored, Visible, Scrolls, HiddenFrom;
    HiddenInvisible(e.buffer, e.echoed);
    AnchoredAlike(e, EraseLast(e));
  }

  lemma EraseAgrees(e: Editor)
    requires Agreement(e) && !e.dirty && !Faults(e)
    ensures e.buffer != [] && e.echoed[|e.buffer| - 1] ==> e.display.log != []
    ensures Agreement(EraseLast(e))
  {
    hide Sound, Anchored, Visible, Faults, HiddenFrom;
    if e.buffer != [] {
      if e.echoed[|e.buffer| - 1] {
        EraseEchoedAgrees(e);
      } else {
        EraseHiddenAgrees(e);
      }
    }
  }

  lemma SoundShorter(d: Display)
    requires Sound(d) && !Exhausted(d)
    ensures d.log != [] && Sound(d.(log := d.log[..|d.log| - 1]))
  {
    ScrollsGrow(|d.log| - 1);
  }

  lemma CellsShorter(log: seq<Cell>, line: nat, v: seq<Byte>, c: Byte)
    requires line < |log| && log[line..] == Cells(v + [c])
    ensures line <= |log| - 1 && log[..|log| - 1][line..] == Cells(v)
  {
    assert log[..|log| - 1][line..] == log[line..][..|v|];
    assert Cells(v + [c])[..|v|] == Cells(v);
  }

  lemma NewLineSound(e: Editor)
    requires Sound(e.display)
    ensures var r := NewLine(e);
      Sound(r.display) && Anchored(r) && r.line == |r.display.log| && Length(r) == r.peak == r.digits == 0
  {
    SoundWrite(e.display, [10]);
  }

  lemma SendAgrees(e: Editor)
    requires Agreement(e) && !e.dirty
    ensures Agreement(Send(e))
  {
    NewLineSound(e);
  }

  lemma InterruptAgrees(e: Editor, text: seq<Byte>)
    requires Agreement(e)
    ensures Agreement(Interrupt(e, text))
  {
    var x := if e.buffer != [] then NewLine(e).(dirty := true) else e;
    NewLineSound(e);
    SoundWrite(x.display, Text(text));
    NewLineSound(x.(display := Write(x.display, Text(text))));
  }

  lemma StepAgrees(e: Editor, ev: Event)
    requires Agreement(e) && Typed(ev) && !StepFaults(e, ev)
    ensures Agreement(Step(e, ev))
  {
    hide Sound, Anchored, Visible, Restore, Type, Dial, EraseLast, Send, Interrupt, Faults;
    RestoreAgrees(e);
    match ev
    case Letter(c) => TypeAgrees(Restore(e), c);
    case Digit(n) => DialAgrees(Restore(e), n);
    case Erase => EraseAgrees(Restore(e));
    case ToggleEcho => ToggleAgrees(Restore(e));
    case Enter => SendAgrees(Restore(e));
    case Message(text) => InterruptAgrees(e, text);
  }

  lemma ToggleAgrees(e: Editor)
    requires Agreement(e)
    ensures Agreement(e.(echo := !e.echo))
  {
  }

  lemma FreshAgrees()
    ensures Agreement(FRESH) && Plain(FRESH)
  {
  }

  /** The events can follow one another, and no backspace leaves the screen. */
  ghost predicate Feasible(e: Editor, events: seq<Event>)
    requires Agreement(e)
    decreases |events|
  {
    events == [] ||
    (Typed(events[0]) && !StepFaults(e, events[0]) &&
     (StepAgrees(e, events[0]); Feasible(Step(e, events[0]), events[1..])))
  }

  ghost function Run(e: Editor, events: seq<Event>): Editor
    requires Agreement(e) && Feasible(e, events)
    decreases |events|
  {
    if events == [] then e
    else
      StepAgrees(e, events[0]);
      Run(Step(e, events[0]), events[1..])
  }

  /** The input line shows exactly the echoed characters of the buffer, or nothing while interrupted. */
  ghost predicate ShowsEchoed(e: Editor) {
    && |e.echoed| == |e.buffer| <= BUFFER_SIZE && e.line <= |e.display.log|
    && var v := if e.dirty then [] else Visible(e.buffer, e.echoed);
    && |e.display.log| - e.line == |v|
    && forall i {:trigger v[i]} :: 0 <= i < |v| ==> e.display.log[e.line + i] == Cell(v[i], ATTRIB)
  }

  lemma AgreementShows(e: Editor)
    requires Agreement(e)
    ensures ShowsEchoed(e) <==> e.digits == 0
  {
    hide Sound, Anchored, Visible;
    if e.digits == 0 {
      var v := if e.dirty then [] else Visible(e.buffer, e.echoed);
      assert e.display.log[e.line..] == Cells(v);
      forall i {:trigger v[i]} | 0 <= i < |v|
        ensures e.display.log[e.line + i] == Cell(v[i], ATTRIB)
      {
        assert e.display.log[e.line..][i] == Cells(v)[i];
      }
    }
  }

  /** As long as no backspace leaves the screen, buffer and input line agree exactly if the line has no digits on it. */
  lemma {:induction false} RunAgreesIff(e: Editor, events: seq<Event>)
    requires Agreement(e) && Feasible(e, events)
    ensures var r := Run(e, events); Agreement(r) && (ShowsEchoed(r) <==> r.digits == 0)
    decreases |events|
  {
    hide ShowsEchoed, Agreement, StepFaults;
    if events == [] {
      AgreementShows(e);
    } else {
      StepAgrees(e, events[0]);
      RunAgreesIff(Step(e, events[0]), events[1..]);
    }
  }

  // ---------- without digit keys ----------

  predicate NoDigits(events: seq<Event>) {
    forall i :: 0 <= i < |events| ==> Typed(events[i]) && !events[i].Digit?
  }

  lemma StepPlain(e: Editor, ev: Event)
    requires Agreement(e) && Plain(e) && Typed(ev) && !ev.Digit?
    ensures !StepFaults(e, ev) && Plain(Step(e, ev))
  {
    hide Sound, Anchored, Visible, Faults, Scrolls;
    NeverFaults(e);
    StepAgrees(e, ev);
    RestoreAgrees(e);
  }

  /**
   * Without digit keys no backspace ever leaves the screen, and after any events the input line agrees with the buffer.
   */
  lemma {:induction false} RunAgrees(e: Editor, events: seq<Event>)
    requires Agreement(e) && Plain(e) && NoDigits(events)
    ensures Feasible(e, events)
    ensures var r := Run(e, events); Agreement(r) && Plain(r) && ShowsEchoed(r)
    decreases |events|
  {
    hide ShowsEchoed, Agreement, StepFaults, Plain;
    if events == [] {
      PlainShows(e);
    } else {
      StepPlain(e, events[0]);
      StepAgrees(e, events[0]);
      RunAgrees(Step(e, events[0]), events[1..]);
    }
  }

  lemma PlainShows(e: Editor)
    requires Agreement(e) && Plain(e)
    ensures ShowsEchoed(e)
  {
    AgreementShows(e);
  }

  // ---------- with digit keys ----------

  /** Some backspace of the events leaves the screen. */
  ghost predicate LeavesScreen(e: Editor, events: seq<Event>)
    requires Agreement(e)
    decreases |events|
  {
    events != [] && Typed(events[0]) &&
    (StepFaults(e, events[0]) || (StepAgrees(e, events[0]); LeavesScreen(Step(e, events[0]), events[1..])))
  }

  /** `m` echoed characters in the buffer, and these digits and this peak on the input line. */
  ghost predicate Pressed(e: Editor, m: nat, digits: nat, peak: nat) {
    && Agreement(e) && !e.dirty && e.echo && |e.buffer| == |e.echoed| == m && e.digits == digits && e.peak == peak
    && (forall i {:trigger e.echoed[i]} :: 0 <= i < m ==> e.echoed[i])
  }

  lemma {:induction false} AllVisible(buffer: seq<Byte>, echoed: seq<bool>)
    requires |echoed| == |buffer| && forall i {:trigger echoed[i]} :: 0 <= i < |echoed| ==> echoed[i]
    ensures Visible(buffer, echoed) == buffer
    decreases |buffer|
  {
    if buffer != [] {
      AllVisible(buffer[..|buffer| - 1], echoed[..|buffer| - 1]);
      assert buffer[..|buffer| - 1] + [buffer[|buffer| - 1]] == buffer;
    }
  }

  lemma PressedLetter(e: Editor, m: nat)
    requires Pressed(e, m, 0, m) && m < BUFFER_SIZE
    ensures !StepFaults(e, Letter(97)) && Pressed(Step(e, Letter(97)), m + 1, 0, m + 1)
  {
    hide Sound, Anchored, Write, Visible;
    NothingToRestore(e);
    StepAgrees(e, Letter(97));
    var r := Step(e, Letter(97));
    AllVisible(r.buffer, r.echoed);
  }

  lemma PressedDigit(e: Editor, m: nat)
    requires Pressed(e, m, 0, m)
    ensures !StepFaults(e, Digit(0)) && Pressed(Step(e, Digit(0)), m, 1, m + 1)
  {
    hide Sound, Anchored, Write, Visible;
    NothingToRestore(e);
    StepAgrees(e, Digit(0));
    var r := Step(e, Digit(0));
    AllVisible(r.buffer, r.echoed);
  }

  lemma PressedErase(e: Editor, m: nat)
    requires Pressed(e, m, 1, SCREEN) && m > 0
    ensures StepFaults(e, Erase) <==> m == NO_COLUMNS - 1
    ensures m != NO_COLUMNS - 1 ==> Pressed(Step(e, Erase), m - 1, 1, SCREEN)
  {
    hide Sound, Anchored, Write, Visible, Faults;
    NothingToRestore(e);
    AllVisible(e.buffer, e.echoed);
    FaultsIff(e);
    if m != NO_COLUMNS - 1 {
      StepAgrees(e, Erase);
    }
  }

  ghost function Erases(n: nat): seq<Event> {
    if n == 0 then [] else [Erase] + Erases(n - 1)
  }

  /** `n` times the letter a, the digit 0, and 1841 backspaces. */
  ghost function Presses(n: nat): seq<Event> {
    if n == 0 then [Digit(0)] + Erases(1841) else [Letter(97)] + Presses(n - 1)
  }

  lemma {:induction false} ErasesLeave(e: Editor, m: nat)
    requires Pressed(e, m, 1, SCREEN) && m >= NO_COLUMNS - 1
    ensures LeavesScreen(e, Erases(m - NO_COLUMNS + 2))
    decreases m
  {
    hide Pressed, StepFaults;
    PressedAgrees(e, m, 1, SCREEN);
    PressedErase(e, m);
    assert Erases(m - NO_COLUMNS + 2)[1..] == Erases(m - NO_COLUMNS + 1);
    if m >= NO_COLUMNS {
      ErasesLeave(Step(e, Erase), m - 1);
    }
  }

  lemma PressedAgrees(e: Editor, m: nat, digits: nat, peak: nat)
    requires Pressed(e, m, digits, peak)
    ensures Agreement(e)
  {
  }

  lemma {:induction false} PressesLeave(e: Editor, m: nat)
    requires Pressed(e, m, 0, m) && m <= BUFFER_SIZE
    ensures LeavesScreen(e, Presses(BUFFER_SIZE - m))
    decreases BUFFER_SIZE - m
  {
    hide Pressed, StepFaults, Erases;
    PressedAgrees(e, m, 0, m);
    if m == BUFFER_SIZE {
      PressedDigit(e, m);
      ErasesLeave(Step(e, Digit(0)), m);
      assert Presses(0)[1..] == Erases(1841);
    } else {
      PressedLetter(e, m);
      PressesLeave(Step(e, Letter(97)), m + 1);
      assert Presses(BUFFER_SIZE - m)[1..] == Presses(BUFFER_SIZE - m - 1);
    }
  }

  /** One digit is enough: behind a full line of letters it makes a later backspace leave the screen. */
  lemma DigitLeavesScreen()
    ensures Agreement(FRESH) && LeavesScreen(FRESH, Presses(1919))
  {
    FreshAgrees();
    PressesLeave(FRESH, 0);
  }

  // ---------- erasing ----------

  /** One press of backspace removes one echoed character and the last cell, or one whole run of hidden characters. */
  lemma EraseRemoves(e: Editor)
    requires Agreement(e) && !e.dirty && e.buffer != [] && !StepFaults(e, Erase)
    ensures var r, n, v := Step(e, Erase), |e.buffer| - 1, Visible(e.buffer, e.echoed);
      if e.echoed[n] then
        && r.buffer == e.buffer[..n] && |v| > 0 && Visible(r.buffer, r.echoed) == v[..|v| - 1]
        && r.display.log == e.display.log[..|e.display.log| - 1]
      else
        && r.buffer <= e.buffer && r.display == e.display && Visible(r.buffer, r.echoed) == v
        && (forall i :: |r.buffer| <= i <= n ==> !e.echoed[i])
        && (r.buffer != [] ==> e.echoed[|r.buffer| - 1])
  {
    hide Restore, Sound, Anchored, Written, Write, Type, Dial, Send, Interrupt;
    NothingToRestore(e);
    VisibleOnDisplay(e);
    if !e.echoed[|e.buffer| - 1] {
      HiddenInvisible(e.buffer, e.echoed);
    }
  }

  // ---------- messages ----------

  /** A message leaves the buffer alone; the next key brings the visible part of the line back, without digits. */
  lemma InterruptionIsUndone(e: Editor, text: seq<Byte>)
    requires Agreement(e) && e.buffer != []
    ensures var x := Interrupt(e, text);
      && Agreement(x) && x.dirty && |x.display.log| == x.line
      && var r := Restore(x);
      && Agreement(r) && r.buffer == e.buffer && r.echoed == e.echoed && !r.dirty && r.line <= |r.display.log|
      && r.display.log[r.line..] == Cells(Visible(e.buffer, e.echoed))
  {
    InterruptAgrees(e, text);
    RestoreAgrees(Interrupt(e, text));
  }

  /**
   * Printable text that arrives is appended to the log from a line start on, behind an unfinished input line if there
   * is one, and the next line begins behind it.
   */
  lemma MessageShown(e: Editor, text: seq<Byte>)
    requires forall i :: 0 <= i < |text| ==> 32 <= text[i] <= 126
    ensures var log, r := e.display.log, Interrupt(e, text).display.log;
      var from := if e.buffer != [] then NextLine(|log|) else |log|;
      && from + |text| < |r| && LineStart(|r|) && r[..|log|] == log
      && r[from..from + |text|] == seq(|text|, i requires 0 <= i < |text| => Cell(text[i], 15))
      && (forall i :: |log| <= i < from || from + |text| <= i < |r| ==> r[i] == Cell(32, 15))
  {
    hide LineStart, NextLine, Scrolls, Extend, Text, Printable;
    TextMeans(text, []);
    var log := e.display.log;
    var x := if e.buffer != [] then Extend(log, 10) else log;
    LogOfLine(log);
    LogOfLine(x + Cells(text));
    WriteShown(x, text);
  }

  lemma LogOfLine(log: seq<Cell>)
    ensures var r := ExtendAll(log, [10]);
      && r == Extend(log, 10) && |log| < |r| == NextLine(|log|) && LineStart(|r|) && r[..|log|] == log
      && forall i :: |log| <= i < |r| ==> r[i] == Cell(32, 15)
  {
    hide LineStart, NextLine, Scrolls;
    ExtendMeans(log, 10);
    assert [10][1..] == [];
  }

  lemma WriteShown(log: seq<Cell>, text: seq<Byte>)
    requires forall i :: 0 <= i < |text| ==> 32 <= text[i] <= 126
    ensures ExtendAll(log, text) == log + seq(|text|, i requires 0 <= i < |text| => Cell(text[i], 15))
    ensures ExtendAll(log, text) == log + Cells(text)
  {
    WritePrintable(log, text);
  }

  /** Enter sends all that was typed, hidden characters included, with a terminating zero. */
  lemma EnterSendsAll(e: Editor)
    requires Agreement(e)
    ensures var r := Step(e, Enter);
      r.sent == e.sent + [e.buffer + [0]] && r.buffer == [] && r.echoed == [] && r.echo == e.echo
  {
  }

  /** The same has been typed and sent, whatever is on the screen. */
  predicate SameInput(e: Editor, f: Editor) {
    e.buffer == f.buffer && e.echoed == f.echoed && e.echo == f.echo && e.sent == f.sent
  }

  /** The events without the messages. */
  ghost function Keys(events: seq<Event>): seq<Event> {
    if events == [] then [] else (if events[0].Message? then [] else [events[0]]) + Keys(events[1..])
  }

  lemma KeySame(e: Editor, f: Editor, ev: Event)
    requires Agreement(e) && Agreement(f) && SameInput(e, f) && Typed(ev) && !ev.Message?
    ensures SameInput(Step(e, ev), Step(f, ev))
  {
    hide Agreement, Write, HiddenFrom, Visible;
    if ev.Enter? {
      EnterSendsAll(e);
      EnterSendsAll(f);
    } else {
      RestoreAgrees(e);
      RestoreAgrees(f);
    }
  }

  lemma MessageSame(e: Editor, text: seq<Byte>)
    requires Agreement(e)
    ensures SameInput(Step(e, Message(text)), e)
  {
  }

  /** What is typed and what is sent do not depend on the messages that come in between. */
  lemma {:induction false} MessagesHarmless(e: Editor, f: Editor, events: seq<Event>)
    requires Agreement(e) && Agreement(f) && SameInput(e, f)
    requires Feasible(e, events) && Feasible(f, Keys(events))
    ensures SameInput(Run(e, events), Run(f, Keys(events)))
    decreases |events|
  {
    hide Agreement, SameInput, StepFaults, Step;
    if events != [] {
      var ev := events[0];
      StepAgrees(e, ev);
      if ev.Message? {
        MessageSame(e, ev.text);
        SameTrans(Step(e, ev), e, f);
        assert Keys(events) == Keys(events[1..]);
        MessagesHarmless(Step(e, ev), f, events[1..]);
      } else {
        assert Keys(events)[0] == ev && Keys(events)[1..] == Keys(events[1..]);
        StepAgrees(f, ev);
        KeySame(e, f, ev);
        MessagesHarmless(Step(e, ev), Step(f, ev), events[1..]);
      }
    }
  }

  lemma SameTrans(e: Editor, f: Editor, g: Editor)
    requires SameInput(e, f) && SameInput(f, g)
    ensures SameInput(e, g)
  {
  }

  // ---------- from the keys to the messages ----------

  /** What the keys pressed amount to: the characters typed, each shown or hidden, and the messages sent. */
  datatype Draft = Draft(text: seq<(Byte, bool)>, echo: bool, sent: seq<seq<Byte>>)

  function Chars(text: seq<(Byte, bool)>): seq<Byte> {
    seq(|text|, i requires 0 <= i < |text| => text[i].0)
  }

  /** The characters that are shown. */
  function ShownOf(text: seq<(Byte, bool)>): seq<Byte> {
    if text == [] then []
    else ShownOf(text[..|text| - 1]) + (if text[|text| - 1].1 then [text[|text| - 1].0] else [])
  }

  /** Without the hidden characters at the end. */
  function WithoutHidden(text: seq<(Byte, bool)>): seq<(Byte, bool)> {
    if text == [] || text[|text| - 1].1 then text else WithoutHidden(text[..|text| - 1])
  }

  /** What a key or a message does to what has been typed: there is room for 1919 characters. */
  function Press(d: Draft, ev: Event): Draft {
    match ev
    case Letter(c) => if |d.text| < 1919 then d.(text := d.text + [(c, d.echo)]) else d
    case Digit(_) => d
    case Erase =>
      if d.text == [] then d
      else if d.text[|d.text| - 1].1 then d.(text := d.text[..|d.text| - 1])
      else d.(text := WithoutHidden(d.text))
    case ToggleEcho => d.(echo := !d.echo)
    case Enter => d.(text := [], sent := d.sent + [Chars(d.text) + [0]])
    case Message(_) => d
  }

  function PressAll(d: Draft, events: seq<Event>): Draft
    decreases |events|
  {
    if events == [] then d else PressAll(Press(d, events[0]), events[1..])
  }

  /** The editor holds this draft. */
  ghost predicate Drafts(e: Editor, d: Draft) {
    && |e.buffer| == |e.echoed| == |d.text| && e.echo == d.echo && e.sent == d.sent
    && (forall i {:trigger d.text[i]} :: 0 <= i < |d.text| ==> d.text[i] == (e.buffer[i], e.echoed[i]))
  }

  lemma {:induction false} HiddenDrafts(buffer: seq<Byte>, echoed: seq<bool>, text: seq<(Byte, bool)>)
    requires |buffer| == |echoed| == |text|
    requires forall i {:trigger text[i]} :: 0 <= i < |text| ==> text[i] == (buffer[i], echoed[i])
    ensures WithoutHidden(text) == text[..HiddenFrom(echoed)]
    decreases |text|
  {
    if text != [] && !text[|text| - 1].1 {
      var n := |text| - 1;
      HiddenDrafts(buffer[..n], echoed[..n], text[..n]);
      assert text[..n][..HiddenFrom(echoed)] == text[..HiddenFrom(echoed)];
    }
  }

  lemma RestoreDrafts(e: Editor, d: Draft)
    requires Agreement(e) && Drafts(e, d)
    ensures Drafts(Restore(e), d)
  {
    hide Agreement, Write;
  }

  lemma StepDrafts(e: Editor, ev: Event, d: Draft)
    requires Agreement(e) && Typed(ev) && Drafts(e, d)
    ensures Drafts(Step(e, ev), Press(d, ev))
  {
    hide Agreement, Write, HiddenFrom, WithoutHidden, Visible;
    RestoreAgrees(e);
    RestoreDrafts(e, d);
    if ev.Erase? {
      HiddenDrafts(e.buffer, e.echoed, d.text);
    } else if ev.Enter? {
      EnterSendsAll(e);
      assert Chars(d.text) == e.buffer;
    }
  }

  lemma {:induction false} ShownDrafts(e: Editor, d: Draft)
    requires Drafts(e, d)
    ensures |e.buffer| == |e.echoed| && Visible(e.buffer, e.echoed) == ShownOf(d.text)
    decreases |d.text|
  {
    if d.text != [] {
      var n := |d.text| - 1;
      ShownDrafts(e.(buffer := e.buffer[..n], echoed := e.echoed[..n]), d.(text := d.text[..n]));
    }
  }

  /** After any keys and messages the editor holds, shows and has sent what the keys amount to. */
  lemma {:induction false} RunDrafts(e: Editor, events: seq<Event>, d: Draft)
    requires Agreement(e) && Feasible(e, events) && Drafts(e, d)
    ensures var r := Run(e, events);
      && Drafts(r, PressAll(d, events)) && Visible(r.buffer, r.echoed) == ShownOf(PressAll(d, events).text)
    decreases |events|
  {
    hide Agreement, Drafts, StepFaults, Step, Press;
    if events == [] {
      ShownDrafts(e, d);
    } else {
      StepAgrees(e, events[0]);
      StepDrafts(e, events[0], d);
      RunDrafts(Step(e, events[0]), events[1..], Press(d, events[0]));
    }
  }

  /** Nothing is erased or sent. */
  predicate OnlyTyping(events: seq<Event>) {
    forall i :: 0 <= i < |events| ==> Typed(events[i]) && !events[i].Erase? && !events[i].Enter?
  }

  /** The letters pressed. */
  function Letters(events: seq<Event>): seq<Byte> {
    if events == [] then [] else (if events[0].Letter? then [events[0].c] else []) + Letters(events[1..])
  }

  /** The letters pressed while the echo was on. */
  function EchoedLetters(events: seq<Event>, echo: bool): seq<Byte> {
    if events == [] then []
    else
      (if events[0].Letter? && echo then [events[0].c] else [])
      + EchoedLetters(events[1..], if events[0].ToggleEcho? then !echo else echo)
  }

  lemma {:induction false} TypingFeasible(e: Editor, events: seq<Event>)
    requires Agreement(e) && OnlyTyping(events)
    ensures Feasible(e, events)
    decreases |events|
  {
    hide Agreement;
    if events != [] {
      StepAgrees(e, events[0]);
      TypingFeasible(Step(e, events[0]), events[1..]);
    }
  }

  lemma {:induction false} TypingDrafts(d: Draft, events: seq<Event>)
    requires OnlyTyping(events) && |d.text| + |Letters(events)| <= 1919
    ensures var r := PressAll(d, events);
      && Chars(r.text) == Chars(d.text) + Letters(events) && r.sent == d.sent
      && ShownOf(r.text) == ShownOf(d.text) + EchoedLetters(events, d.echo)
    decreases |events|
  {
    hide Press, Chars, ShownOf;
    if events == [] {
      assert Chars(d.text) + [] == Chars(d.text) && ShownOf(d.text) + [] == ShownOf(d.text);
    } else {
      var ev, x := events[0], Press(d, events[0]);
      PressTyped(d, ev);
      TypingDrafts(x, events[1..]);
      var c: seq<Byte> := if ev.Letter? then [ev.c] else [];
      var s: seq<Byte> := if ev.Letter? && d.echo then [ev.c] else [];
      assert Chars(d.text) + (c + Letters(events[1..])) == Chars(d.text) + c + Letters(events[1..]);
      assert ShownOf(d.text) + (s + EchoedLetters(events[1..], x.echo))
        == ShownOf(d.text) + s + EchoedLetters(events[1..], x.echo);
    }
  }

  lemma PressTyped(d: Draft, ev: Event)
    requires Typed(ev) && !ev.Erase? && !ev.Enter? && (ev.Letter? ==> |d.text| < 1919)
    ensures var x := Press(d, ev);
      && Chars(x.text) == Chars(d.text) + (if ev.Letter? then [ev.c] else [])
      && ShownOf(x.text) == ShownOf(d.text) + (if ev.Letter? && d.echo then [ev.c] else [])
      && |x.text| == |d.text| + (if ev.Letter? then 1 else 0) && x.sent == d.sent
      && x.echo == if ev.ToggleEcho? then !d.echo else d.echo
  {
    if ev.Letter? {
      assert (d.text + [(ev.c, d.echo)])[..|d.text|] == d.text;
    }
  }

  /**
   * Whatever letters are typed into an empty line are what enter sends, with a zero behind them; the input line shows
   * those typed while the echo was on.
   */
  lemma TypedIsSent(e: Editor, events: seq<Event>)
    requires Agreement(e) && e.buffer == [] && OnlyTyping(events) && |Letters(events)| <= 1919
    ensures Feasible(e, events)
    ensures var r := Run(e, events);
      && Agreement(r) && Visible(r.buffer, r.echoed) == EchoedLetters(events, e.echo)
      && Step(r, Enter).sent == e.sent + [Letters(events) + [0]] && Step(r, Enter).buffer == []
  {
    hide Agreement, Drafts, PressAll, Chars, ShownOf, Run, Feasible, Step, Visible;
    var d := Draft([], e.echo, e.sent);
    NothingTyped();
    TypingFeasible(e, events);
    NothingDrafted(e);
    RunDrafts(e, events, d);
    TypingDrafts(d, events);
    RunAgreesIff(e, events);
    var r := Run(e, events);
    EnterSendsAll(r);
    DraftChars(r, PressAll(d, events));
    assert [] + Letters(events) == Letters(events);
    assert [] + EchoedLetters(events, e.echo) == EchoedLetters(events, e.echo);
  }

  lemma NothingTyped()
    ensures Chars([]) == [] && ShownOf([]) == []
  {
  }

  lemma DraftChars(e: Editor, d: Draft)
    requires Drafts(e, d)
    ensures e.buffer == Chars(d.text) && e.sent == d.sent
  {
  }

  lemma NothingDrafted(e: Editor)
    requires Agreement(e) && e.buffer == []
    ensures Drafts(e, Draft([], e.echo, e.sent))
  {
  }

  // ---------- the handlers ----------

  /** The editor's global variables. */
  class Input {
    const screen: Screen
    const sndBuffer: array<Byte>
    const screenEchoed: array<bool>
    var screenIdx: nat
    var echo: bool
    var inputDirty: bool
    ghost var view: Editor

    /** The string in the buffer is what the view says, ends at the index, and the screen shows the view's display. */
    ghost predicate Holds()
      reads this, screen, screen.cells, sndBuffer, screenEchoed
    {
      && sndBuffer.Length == BUFFER_SIZE + 1 && screenEchoed.Length == BUFFER_SIZE && screenIdx <= BUFFER_SIZE
      && screen.Valid()
      && view.buffer == sndBuffer[..screenIdx] && sndBuffer[screenIdx] == 0
      && view.echoed == screenEchoed[..screenIdx]
      && view.echo == echo && view.dirty == inputDirty
      && view.display == Display(screen.log, screen.scrolled)
    }

    ghost predicate Valid()
      reads this, screen, screen.cells, sndBuffer, screenEchoed
    {
      Holds() && Agreement(view)
    }

    /** The text stands on the screen from a cell on, up to the cursor, and nothing is visible behind it. */
    ghost predicate Shows(from: nat, text: seq<Byte>)
      requires screen.cells.Length == SEGMENT
      reads this, screen, screen.cells
    {
      && from + |text| < SCREEN && screen.cursor == 2 * (from + |text|)
      && screen.cells[from..from + |text|] == Cells(text)
      && screen.BlankFrom(from + |text|)
    }

    /** How much of the input line has scrolled off. */
    ghost function Gone(): (n: nat)
      reads this, screen
    {
      if NO_COLUMNS * screen.scrolled < view.line then 0 else NO_COLUMNS * screen.scrolled - view.line
    }

    /**
     * Without digits on the input line the screen shows, from the first column, exactly the echoed characters of the
     * buffer, or nothing while interrupted, and nothing behind them; all of them if no line has scrolled off.
     */
    lemma LineOnScreen() returns (from: nat)
      requires Valid() && view.digits == 0
      ensures var v := if inputDirty then [] else Visible(view.buffer, view.echoed);
        && LineStart(from) && Gone() <= |v| && Shows(from, v[Gone()..])
        && from + NO_COLUMNS * screen.scrolled == view.line + Gone()
      ensures Plain(view) ==> Gone() == 0
    {
      hide Visible;
      var v := if inputDirty then [] else Visible(view.buffer, view.echoed);
      var k := NO_COLUMNS * screen.scrolled;
      LineScrolls(view.line, view.peak);
      from := view.line + Gone() - k;
      assert screen.log[view.line..] == Cells(v);
      assert screen.cells[..|screen.log| - k][from..] == screen.log[k..][from..] == screen.log[view.line..][Gone()..];
      assert Cells(v)[Gone()..] == Cells(v[Gone()..]);
    }

    /** The editor starts by clearing the screen. */
    constructor (cells: array<Cell>)
      requires cells.Length == SEGMENT
      modifies cells
      ensures Valid() && view == FRESH && screen.cells == cells
    {
      screen := new Screen(cells);
      sndBuffer := new Byte[BUFFER_SIZE + 1](i => 0);
      screenEchoed := new bool[BUFFER_SIZE](i => false);
      screenIdx, echo, inputDirty := 0, true, false;
      view := FRESH;
      new;
      screen.Cls();
      FreshAgrees();
      assert sndBuffer[..0] == [] && screenEchoed[..0] == [];
    }

    /** Put one character and bring the view's display up to date. */
    method Put(what: Byte)
      requires Holds()
      modifies this`view, screen, screen.cells
      ensures Holds() && view == old(view).(display := Write(old(view).display, [what]))
    {
      screen.PutCharacter(what);
      assert [what][1..] == [];
      assert ExtendAll(old(screen.log), [what]) == Extend(old(screen.log), what);
      view := view.(display := Write(view.display, [what]));
    }

    lemma BufferLength()
      requires Valid()
      ensures |view.buffer| == |view.echoed| == screenIdx
    {
    }

    method ReadChar(c: Byte)
      requires Valid() && Printable(c)
      modifies this, screen, screen.cells, sndBuffer, screenEchoed
      ensures Holds() && view == Type(old(view), c)
    {
      hide Screen.Valid, Agreement, Write;
      BufferLength();
      if screenIdx < BUFFER_SIZE {
        ghost var goal := Type(view, c);
        if echo {
          Put(c);
          screenEchoed[screenIdx] := true;
        } else {
          screenEchoed[screenIdx] := false;
        }
        sndBuffer[screenIdx] := c;
        screenIdx := screenIdx + 1;
        sndBuffer[screenIdx] := 0;
        view := goal;
      }
    }

    /** Backspace; the screen faults when what is to be erased has scrolled off. */
    method BackspacePressed() returns (fault: bool)
      requires Valid() && !inputDirty
      modifies this, screen, screen.cells, sndBuffer
      ensures fault <==> old(Faults(view))
      ensures old(view.buffer != [] && view.echoed[|view.buffer| - 1] ==> view.display.log != [])
      ensures !fault ==> Holds() && view == EraseLast(old(view))
    {
      hide Agreement, Screen.Valid, Write, Visible, HiddenFrom, NonZero;
      fault := false;
      if screenIdx <= 0 {
        return;
      }
      ghost var was := view;
      VisibleOnDisplay(view);
      screenIdx := screenIdx - 1;
      sndBuffer[screenIdx] := 0;
      assert was.echoed[screenIdx] == screenEchoed[screenIdx];
      assert sndBuffer[..screenIdx] == was.buffer[..screenIdx];
      if screenEchoed[screenIdx] {
        fault := screen.Backspace();
        if !fault {
          view := EraseLast(was);
          assert was.echoed[..screenIdx] == screenEchoed[..screenIdx];
        }
        return;
      }
      assert was.echoed == screenEchoed[..screenIdx + 1];
      DropHidden(was);
      view := EraseLast(was);
    }

    /** Drop the run of hidden characters that the one just dropped belongs to. */
    method DropHidden(ghost was: Editor)
      requires sndBuffer.Length == BUFFER_SIZE + 1 && screenEchoed.Length == BUFFER_SIZE && screenIdx < BUFFER_SIZE
      requires |was.buffer| == |was.echoed| == screenIdx + 1 && sndBuffer[screenIdx] == 0
      requires was.buffer[..screenIdx] == sndBuffer[..screenIdx] && was.echoed == screenEchoed[..screenIdx + 1]
      requires !was.echoed[screenIdx]
      modifies this`screenIdx, sndBuffer
      ensures screenIdx == HiddenFrom(was.echoed) < BUFFER_SIZE && sndBuffer[screenIdx] == 0
      ensures sndBuffer[..screenIdx] == was.buffer[..screenIdx]
    {
      hide HiddenFrom;
      assert was.echoed[..screenIdx + 1] == was.echoed;
      ghost var from := HiddenFrom(was.echoed);
      HiddenStep(was.echoed, screenIdx);
      while screenIdx > 0 && !screenEchoed[screenIdx - 1]
        invariant 0 <= screenIdx < |was.buffer| && sndBuffer[screenIdx] == 0
        invariant forall i {:trigger sndBuffer[i]} :: 0 <= i < screenIdx ==> sndBuffer[i] == was.buffer[i]
        invariant from == HiddenFrom(was.echoed[..screenIdx])
      {
        assert was.echoed[screenIdx - 1] == screenEchoed[screenIdx - 1];
        HiddenStep(was.echoed, screenIdx - 1);
        screenIdx := screenIdx - 1;
        sndBuffer[screenIdx] := 0;
      }
      assert screenIdx > 0 ==> was.echoed[screenIdx - 1];
      HiddenStop(was.echoed[..screenIdx]);
    }

    /** Write a number in hexadecimal on the input line, nibble by nibble from the highest. */
    method PutHex(what: Word)
      requires Holds()
      modifies this`view, screen, screen.cells
      ensures Holds() && view == old(view).(display := Write(old(view).display, N.Numeral(what, 16)))
    {
      hide Screen.Valid, Write, N.Pow, N.Numeral, N.Printed, N.Masked, N.Shifted, N.Split, N.MaskAt, N.Digit;
      ghost var was := view;
      NothingWritten();
      var shift: int, mask: nat, first := 7, 0xf000_0000, false;
      ghost var prefix: nat, rest: nat, t: seq<Byte> := 0, what, [];
      N.EightNibbles(what);
      while mask > 0
        invariant -1 <= shift <= 7 && mask == N.MaskAt(shift) && N.Split(what, prefix, rest, shift + 1, 16)
        invariant shift == -1 ==> mask == 0
        invariant shift >= 0 ==> t == N.Printed(prefix, 16) && (first <==> prefix > 0)
        invariant shift == -1 ==> t == N.Numeral(prefix, 16)
        invariant Holds() && view == was.(display := Write(was.display, t))
        decreases shift
      {
        ghost var digit, left := N.HexStep(what, prefix, rest, shift);
        var val := N.Masked(what, shift);
        if val != 0 || mask == 0xf || first {
          first := true;
          val := N.Shifted(val, shift);
          WriteAppend(was.display, t, N.Digit(val));
          PutNibble(val);
          t := t + [N.Digit(val)];
        }
        prefix, rest := prefix * 16 + digit, left;
        mask := mask / 16;
        shift := shift - 1;
      }
      N.MaskUsedUp(shift);
      N.LastDigit(what, prefix, rest, 16);
    }

    method PutNibble(val: nat)
      requires Holds() && val < 16
      modifies this`view, screen, screen.cells
      ensures Holds() && view == old(view).(display := Write(old(view).display, [N.Digit(val)]))
    {
      if 0 <= val <= 9 {
        Put(N.ZERO + val);
      } else {
        Put(N.LETTER_A + val - 10);
      }
    }

    lemma NothingWritten()
      requires Holds()
      ensures Write(view.display, []) == view.display
    {
      WriteNothing(view.display);
    }

    /** Write a number in decimal on the input line. */
    method PutUnsint(what: Word)
      requires Holds()
      modifies this`view, screen, screen.cells
      ensures Holds() && view == old(view).(display := Write(old(view).display, N.Numeral(what, 10)))
    {
      hide Screen.Valid, Write, N.Pow, N.Numeral, N.Printed, N.Split, N.DividerAt, N.Digit, Div, Mul;
      ghost var was := view;
      NothingWritten();
      var rest: Word, divider: Word, first := what, 1_000_000_000, false;
      ghost var j: nat, prefix: nat, t: seq<Byte> := 10, 0, [];
      N.TenDigits(what);
      while divider > 0
        invariant 0 <= j <= 10 && divider == N.DividerAt(j) && N.Split(what, prefix, rest, j, 10)
        invariant j > 0 ==> t == N.Printed(prefix, 10) && (first <==> prefix > 0)
        invariant j == 0 ==> t == N.Numeral(prefix, 10) && divider == 0
        invariant Holds() && view == was.(display := Write(was.display, t))
        decreases j
      {
        ghost var digit, left := N.DecimalStep(what, prefix, rest, j);
        var val := Div(rest, divider);
        if val != 0 || divider == 1 || first {
          first := true;
          WriteAppend(was.display, t, N.Digit(val));
          OneNibble(val);
          PutHex(val);
          t := t + [N.Digit(val)];
        }
        prefix := prefix * 10 + digit;
        rest := Sub(rest, Mul(val, divider));
        divider := divider / 10;
        j := j - 1;
      }
      N.DividerUsedUp(j);
      N.LastDigit(what, prefix, rest, 10);
    }

    /** A digit key. */
    method ReadUnsint(n: Word)
      requires Valid() && n <= 9
      modifies this`view, screen, screen.cells
      ensures Holds() && view == Dial(old(view), n)
    {
      hide Agreement, Screen.Valid, Write;
      ghost var was := view;
      assert N.Numeral(n, 10) == [N.Digit(n)];
      PutUnsint(n);
      view := Dial(was, n);
    }

    method EscapePressed()
      requires Valid()
      modifies this
      ensures Holds() && view == old(view).(echo := !old(view).echo)
    {
      echo := !echo;
      view := view.(echo := !view.echo);
    }

    /** The length of the string in the buffer. */
    method Strlen() returns (n: nat)
      requires Valid()
      ensures n == screenIdx
    {
      hide Agreement, Screen.Valid;
      TypedNonZero();
      n := 0;
      while sndBuffer[n] != 0
        invariant n <= screenIdx
        decreases screenIdx - n
      {
        n := n + 1;
      }
      if n < screenIdx {
        NonZeroIn(sndBuffer[..screenIdx], n);
      }
    }

    lemma TypedNonZero()
      requires Valid()
      ensures NonZero(sndBuffer[..screenIdx])
    {
      AllPrintable(view.buffer);
    }

    /** End the line and send all of the buffer; the message is what the caller's system call transmits. */
    method EnterPressed() returns (message: seq<Byte>)
      requires Valid() && !inputDirty
      modifies this, screen, screen.cells, sndBuffer
      ensures Holds() && view == Send(old(view)) && [message] == view.sent[|old(view.sent)|..]
    {
      ghost var was := view;
      var n := Strlen();
      message := sndBuffer[..n + 1];
      assert message == was.buffer + [0];
      PutLine();
      screenIdx := 0;
      sndBuffer[0] := 0;
      view := Send(was);
      assert sndBuffer[..0] == [] && screenEchoed[..0] == [];
    }

    /** A line feed: a new input line begins. */
    method PutLine()
      requires Holds()
      modifies this`view, screen, screen.cells
      ensures Holds() && view == NewLine(old(view))
    {
      Put(10);
      view := view.(line := |view.display.log|, digits := 0, peak := 0);
    }

    method PutText(what: seq<Byte>)
      requires Holds()
      modifies this`view, screen, screen.cells
      ensures Holds() && view == old(view).(display := Write(old(view).display, Text(what)))
    {
      screen.PutString(what);
      view := view.(display := Write(view.display, Text(what)));
    }

    /** Show a message of `bytes` bytes, below the input line if something has been typed. */
    method ProcessMessage(buffer: array<Byte>, bytes: nat)
      requires Valid() && 0 < bytes <= buffer.Length && buffer != sndBuffer
      modifies this, screen, screen.cells, buffer
      ensures Holds() && view == Interrupt(old(view), old(buffer[..bytes - 1]))
    {
      hide Agreement, Write, Interrupt, NewLine;
      ghost var was, text := view, buffer[..bytes - 1];
      assert was.buffer != [] <==> sndBuffer[0] != 0 by {
        BufferStart();
      }
      if sndBuffer[0] != 0 {
        PutLine();
        inputDirty := true;
        view := view.(dirty := true);
      }
      buffer[bytes - 1] := 0;
      assert buffer[..bytes] == text + [0];
      TextEnds(text);
      PutText(buffer[..bytes]);
      PutLine();
      InterruptSteps(was, text);
    }

    lemma BufferStart()
      requires Valid()
      ensures view.buffer != [] <==> sndBuffer[0] != 0
    {
      if view.buffer != [] {
        assert view.buffer[0] == sndBuffer[0];
      }
    }

    /** Write one character of the buffer again if it was echoed. */
    method RestoreChar(i: nat)
      requires Holds() && i < screenIdx
      modifies this`view, screen, screen.cells
      ensures Holds()
      ensures view == old(view).(display :=
        if old(view).echoed[i] then Write(old(view).display, [old(view).buffer[i]]) else old(view).display)
    {
      if screenEchoed[i] {
        Put(sndBuffer[i]);
      }
    }

    /** Write the echoed characters of the buffer again after a message. */
    method RestoreInput()
      requires Valid() && inputDirty
      modifies this, screen, screen.cells
      ensures Holds() && view == Restore(old(view))
    {
      hide Agreement, Screen.Valid, Restored, Restore;
      ghost var was, typed := view, sndBuffer[..];
      TypedNonZero();
      RestoredStart(was);
      var i := 0;
      while sndBuffer[i] != 0
        invariant i <= screenIdx == |was.buffer| && Holds() && sndBuffer[..] == typed && inputDirty
        invariant |was.echoed| == |was.buffer| && view == Restored(was, i)
        decreases screenIdx - i
      {
        RestoredNext(was, i);
        RestoreChar(i);
        i := i + 1;
      }
      if i < screenIdx {
        assert typed[i] == 0;
        NonZeroIn(typed[..screenIdx], i);
      }
      RestoredEnd(was);
      inputDirty := false;
      view := Restore(was);
    }

    /** Serve a key: first bring back an interrupted line, then call the key's handler. */
    method Key(ev: Event) returns (fault: bool)
      requires Valid() && Typed(ev) && !ev.Message?
      modifies this, screen, screen.cells, sndBuffer, screenEchoed
      ensures fault <==> StepFaults(old(view), ev)
      ensures !fault ==> Valid() && view == Step(old(view), ev)
    {
      hide Agreement, Screen.Valid, Restore;
      ghost var was := view;
      RestoreAgrees(view);
      fault := false;
      if inputDirty {
        RestoreInput();
      } else {
        NothingToRestore(view);
      }
      match ev {
        case Letter(c) => ReadChar(c);
        case Digit(n) => ReadUnsint(n);
        case Erase => fault := BackspacePressed();
        case ToggleEcho => EscapePressed();
        case Enter => var message := EnterPressed();
      }
      if !fault {
        StepAgrees(was, ev);
      }
    }

    /** Serve a message. */
    method Receive(buffer: array<Byte>, bytes: nat)
      requires Valid() && 0 < bytes <= buffer.Length && buffer != sndBuffer
      modifies this, screen, screen.cells, buffer
      ensures Valid() && view == Step(old(view), Message(old(buffer[..bytes - 1])))
    {
      hide Agreement, Screen.Valid, Interrupt;
      StepAgrees(view, Message(buffer[..bytes - 1]));
      ProcessMessage(buffer, bytes);
    }
  }

  lemma OneNibble(val: nat)
    requires val < 16
    ensures N.Numeral(val, 16) == [N.Digit(val)]
  {
  }

  lemma HiddenStep(echoed: seq<bool>, i: nat)
    requires i < |echoed| && !echoed[i]
    ensures HiddenFrom(echoed[..i + 1]) == HiddenFrom(echoed[..i])
  {
    assert echoed[..i + 1][..i] == echoed[..i];
  }

  lemma HiddenStop(echoed: seq<bool>)
    requires echoed == [] || echoed[|echoed| - 1]
    ensures HiddenFrom(echoed) == |echoed|
  {
  }

  lemma NothingToRestore(e: Editor)
    requires |e.echoed| == |e.buffer| && !e.dirty
    ensures Restore(e) == e
  {
  }

  /** After a message, with the line's first `i` characters back on the screen. */
  ghost function Restored(e: Editor, i: nat): Editor
    requires |e.echoed| == |e.buffer| && i <= |e.buffer|
  {
    e.(display := Write(e.display, Visible(e.buffer[..i], e.echoed[..i])))
  }

  lemma RestoredStart(e: Editor)
    requires Agreement(e)
    ensures Restored(e, 0) == e
  {
    WriteNothing(e.display);
  }

  lemma RestoredNext(e: Editor, i: nat)
    requires |e.echoed| == |e.buffer| && i < |e.buffer|
    ensures var x := Restored(e, i);
      && x.buffer == e.buffer && x.echoed == e.echoed
      && Restored(e, i + 1) == x.(display := if e.echoed[i] then Write(x.display, [e.buffer[i]]) else x.display)
  {
    WriteNext(e.display, e.buffer, e.echoed, i);
  }

  lemma RestoredEnd(e: Editor)
    requires |e.echoed| == |e.buffer| && e.dirty
    ensures var r := Restore(e); r == Restored(e, |e.buffer|).(dirty := false, peak := r.peak)
  {
    assert e.buffer[..|e.buffer|] == e.buffer && e.echoed[..|e.buffer|] == e.echoed;
  }

  predicate NonZero(text: seq<Byte>) {
    text == [] || (text[0] != 0 && NonZero(text[1..]))
  }

  lemma {:induction false} NonZeroIn(text: seq<Byte>, i: nat)
    requires NonZero(text) && i < |text|
    ensures text[i] != 0
  {
    if i > 0 {
      NonZeroIn(text[1..], i - 1);
    }
  }

  lemma {:induction false} AllPrintable(text: seq<Byte>)
    requires forall i {:trigger text[i]} :: 0 <= i < |text| ==> Printable(text[i])
    ensures NonZero(text)
  {
    if text != [] {
      AllPrintable(text[1..]);
    }
  }

  lemma TextEnds(text: seq<Byte>)
    ensures Text(text + [0]) == Text(text)
  {
    if text != [] {
      TextEnds(text[1..]);
      assert (text + [0])[1..] == text[1..] + [0];
    }
  }

  lemma InterruptSteps(e: Editor, text: seq<Byte>)
    ensures var x := if e.buffer != [] then NewLine(e).(dirty := true) else e;
      Interrupt(e, text) == NewLine(x.(display := Write(x.display, Text(text))))
  {
  }

  lemma {:induction false} ExtendAllAppend(log: seq<Cell>, text: seq<Byte>, c: Byte)
    ensures ExtendAll(log, text + [c]) == Extend(ExtendAll(log, text), c)
    decreases |text|
  {
    if text == [] {
      assert [c][1..] == [];
    } else {
      assert (text + [c])[1..] == text[1..] + [c];
      ExtendAllAppend(Extend(log, text[0]), text[1..], c);
    }
  }

  lemma WriteNothing(d: Display)
    requires Sound(d)
    ensures Write(d, []) == d
  {
  }

  lemma WriteAppend(d: Display, text: seq<Byte>, c: Byte)
    ensures Write(Write(d, text), [c]) == Write(d, text + [c])
  {
    ExtendAllAppend(d.log, text, c);
    assert ExtendAll(ExtendAll(d.log, text), [c]) == Extend(ExtendAll(d.log, text), c) by {
      assert [c][1..] == [];
    }
    ExtendGrows(ExtendAll(d.log, text), c);
    ScrollsMonotone(|ExtendAll(d.log, text)|, |ExtendAll(d.log, text + [c])|);
  }

  /** Rewriting one more character of the line. */
  lemma WriteNext(d: Display, buffer: seq<Byte>, echoed: seq<bool>, i: nat)
    requires |echoed| == |buffer| && i < |buffer|
    ensures Write(d, Visible(buffer[..i + 1], echoed[..i + 1])) ==
      if echoed[i] then Write(Write(d, Visible(buffer[..i], echoed[..i])), [buffer[i]])
      else Write(d, Visible(buffer[..i], echoed[..i]))
  {
    hide Write;
    assert buffer[..i + 1] == buffer[..i] + [buffer[i]] && echoed[..i + 1] == echoed[..i] + [echoed[i]];
    VisibleAppend(buffer[..i], echoed[..i], buffer[i], echoed[i]);
    assert Visible(buffer[..i], echoed[..i]) + [] == Visible(buffer[..i], echoed[..i]);
    WriteAppend(d, Visible(buffer[..i], echoed[..i]), buffer[i]);
  }
}
