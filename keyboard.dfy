/** The keyboard state machine run on every scancode: a repeat filter on the last code, an ALT latch, a
    60-byte line input with a file-name builder, and the menus (main, math, Polish glyphs, and the FAT16
    mini-commander that opens files in the editor). Its state lives in fixed bytes from 0x500 on and in
    the capture buffer at 0x600. */
module Keyboard {
  import opened Words
  import opened Fat16Layout
  import opened Fat16
  import opened Editor
  import KernelMain
  import Vga

  /** Scan code set 1 make codes the machine tests. A break code is the make code with bit 7 set. */
  const SC_ESC: byte := 0x01
  const SC_1: byte := 0x02
  const SC_2: byte := 0x03
  const SC_3: byte := 0x04
  const SC_4: byte := 0x05
  const SC_6: byte := 0x07
  const SC_8: byte := 0x09
  const SC_9: byte := 0x0A
  const SC_0: byte := 0x0B
  const SC_BACKSPACE: byte := 0x0E
  const SC_I: byte := 0x17
  const SC_ENTER: byte := 0x1C
  const SC_M: byte := 0x32
  const SC_ALT: byte := 0x38
  const SC_F5: byte := 0x3F
  const SC_F7: byte := 0x41
  const SC_F8: byte := 0x42
  const SC_HOME: byte := 0x47
  const SC_UP: byte := 0x48
  const SC_DOWN: byte := 0x50
  const SC_F8_SET3: byte := 0x64
  const SC_ALT_BREAK: byte := 0xB8
  const SC_SET2_BREAK_PREFIX: byte := 0xF0
  const BREAK_BIT: byte := 0x80

  /** Values of the menu-state byte at 0x500. */
  const MENU_MAIN: byte := 0
  const MENU_MATH: byte := 1
  const MENU_UNICODE: byte := 2
  const MENU_COMMANDER: byte := 3

  /** The input context at 0x511 that makes Enter create a file. */
  const CTX_CREATE: byte := 1

  /** The line input stops accepting characters at 60. */
  const CAPTURE_SIZE: nat := 60
  /** A file name takes at most this many typed characters. */
  const NAME_CHARS: nat := 8

  /** The machine's state: the bytes at 0x500, 0x501, 0x505, 0x506, 0x507, 0x508, 0x510, 0x511 and
      0x512, the capture buffer, the generator's SEED, the editor and the RAM disk. */
  datatype Machine = Machine(
    menu: byte,
    last: byte,
    inputLen: byte,
    inputMode: byte,
    alt: byte,
    encoding: byte,
    selection: byte,
    context: byte,
    fileCount: byte,
    capture: seq<byte>,
    seed: u64,
    editor: EditorState,
    fs: FsState)

  /** What a step shows or does outside the state: the screen output it produces, named, and the
      reset request. */
  datatype Effect =
    | Quiet
    | Echo(ch: byte)
    | Erased
    | InputClosed
    | ShowInput(text: seq<byte>)
    | FileCreated(name: seq<byte>, outcome: Outcome)
    | Commander
    | ListRefreshed
    | NoFiles
    | Edited(name: seq<byte>)
    | Banner(n: nat)
    | Line
    | MathMenu
    | InputPrompt
    | NamePrompt
    | UnicodeMenu
    | MainMenu
    | Cleared
    | MathResult(value: nat)
    | RandomNumber(n: nat)
    | VmNotice
    | Reboot

  /** A byte the input tables produce: non-zero 7-bit ASCII or one of the glyph codes 1 .. 9. */
  predicate Typable(b: byte)
  {
    0 < b < BREAK_BIT
  }

  /** The ASCII table of the line input, for scancodes without ALT; 0 for none. */
  function PlainChar(sc: byte): byte
  {
    match sc
    case 0x1E => 0x41 case 0x30 => 0x42 case 0x2E => 0x43 case 0x20 => 0x44 case 0x12 => 0x45   // A B C D E
    case 0x21 => 0x46 case 0x22 => 0x47 case 0x23 => 0x48 case 0x17 => 0x49 case 0x24 => 0x4A   // F G H I J
    case 0x25 => 0x4B case 0x26 => 0x4C case 0x32 => 0x4D case 0x31 => 0x4E case 0x18 => 0x4F   // K L M N O
    case 0x19 => 0x50 case 0x10 => 0x51 case 0x13 => 0x52 case 0x1F => 0x53 case 0x14 => 0x54   // P Q R S T
    case 0x16 => 0x55 case 0x2F => 0x56 case 0x11 => 0x57 case 0x2D => 0x58 case 0x15 => 0x59   // U V W X Y
    case 0x2C => 0x5A case 0x39 => 0x20                                                         // Z space
    case 0x02 => 0x31 case 0x03 => 0x32 case 0x04 => 0x33 case 0x05 => 0x34 case 0x06 => 0x35   // 1 2 3 4 5
    case 0x07 => 0x36 case 0x08 => 0x37 case 0x09 => 0x38 case 0x0A => 0x39 case 0x0B => 0x30   // 6 7 8 9 0
    case 0x0C => 0x2D case 0x0D => 0x3D case 0x1A => 0x5B case 0x1B => 0x5D case 0x27 => 0x3B   // - = [ ] ;
    case 0x28 => 0x27 case 0x29 => 0x60 case 0x2B => 0x5C case 0x33 => 0x2C case 0x34 => 0x2E   // ' ` \ , .
    case 0x35 => 0x2F                                                                           // /
    case _ => 0
  }

  /** With ALT held: the Polish letters, as the glyph codes 1 .. 9 the font loader fills; 0 for none. */
  function AltChar(sc: byte): byte
  {
    match sc
    case 0x1E => 1 case 0x2E => 2 case 0x12 => 3 case 0x26 => 4 case 0x31 => 5   // a-ogonek c-acute e-ogonek l-stroke n-acute
    case 0x18 => 6 case 0x1F => 7 case 0x2C => 8 case 0x2D => 9                  // o-acute s-acute z-acute z-dot
    case _ => 0
  }

  /** The character a make code types, 0 for none: always 7-bit, and with ALT one of the glyph codes
      whose bitmap load_polish_fonts placed in that character's font slot. */
  function CharFor(sc: byte, altHeld: bool): (c: byte)
    ensures c == 0 || Typable(c)
    ensures altHeld && c != 0 ==> 1 <= c as int <= |Vga.GLYPHS| && Vga.IsGlyphByte(c as nat * Vga.FONT_SLOT)
  {
    if altHeld then AltChar(sc) else PlainChar(sc)
  }

  /** Every Polish letter key is a letter key without ALT: the glyph stands in for that letter. */
  lemma AltKeysAreLetters(sc: byte)
    ensures CharFor(sc, true) != 0 ==> 0x41 <= CharFor(sc, false) <= 0x5A
  {
  }

  /** 'a' .. 'z' to upper case, everything else unchanged. */
  function Upper(c: byte): (u: byte)
    ensures 0x61 <= c <= 0x7A ==> u as int == c as int - 32
    ensures !(0x61 <= c <= 0x7A) ==> u == c
  {
    if 0x61 <= c <= 0x7A then c - 32 else c
  }

  /** The 8-byte name Enter builds from the input: the first min(len, 8) characters upper-cased, the
      rest spaces. */
  function FileName(capture: seq<byte>, len: nat): (name: seq<byte>)
    requires len <= |capture|
    ensures |name| == NAME_CHARS
    ensures forall i :: 0 <= i < NAME_CHARS ==>
      name[i] == if i < len then Upper(capture[i]) else SPACE
  {
    seq(NAME_CHARS, i requires 0 <= i < NAME_CHARS => if i < len then Upper(capture[i]) else SPACE)
  }

  /** A name built from typed characters is never a free-slot marker. */
  lemma TypedNameIsNotFree(capture: seq<byte>, len: nat)
    requires 0 < len <= |capture| && forall i :: 0 <= i < len ==> Typable(capture[i])
    ensures FileName(capture, len)[0] != FREE_MARK && FileName(capture, len)[0] != DELETED_MARK
  {
    assert FileName(capture, len)[0] == Upper(capture[0]);
  }

  /** The state the machine keeps: the capture length bounded by the buffer and its characters typable,
      the latch holding a make code, the flags and menu in range, a sound store and editor, the stored
      count not above the listing and the selection inside it. */
  ghost predicate Ok(m: Machine)
  {
    && |m.capture| == CAPTURE_SIZE && m.inputLen as int <= CAPTURE_SIZE
    && (forall i :: 0 <= i < m.inputLen as int ==> Typable(m.capture[i]))
    && m.last < BREAK_BIT && m.menu <= MENU_COMMANDER && m.inputMode <= 1 && m.alt <= 1
    && Inv(m.fs) && Good(m.editor)
    && m.fileCount as int <= UsedCount(m.fs.dir, LIST_SLOTS)
    && (m.selection == 0 || m.selection < m.fileCount)
  }

  /** The count refresh_mc_list stores at 0x512. */
  function Refresh(fs: FsState): (n: byte)
    requires Shaped(fs)
    ensures n as int == UsedCount(fs.dir, LIST_SLOTS) <= LIST_SLOTS
  {
    UsedCount(fs.dir, LIST_SLOTS) as byte
  }

  /** The input-mode branch for a make code. */
  function InputKey(m: Machine, sc: byte): (r: (Machine, Effect))
    requires Ok(m) && m.inputMode == 1 && sc < BREAK_BIT
    ensures Ok(r.0)
    ensures r.0.last == m.last && r.0.alt == m.alt && r.0.seed == m.seed && r.0.editor == m.editor
  {
    if sc == SC_ENTER then
      if m.inputLen > 0 then
        if m.context == CTX_CREATE then
          var name := FileName(m.capture, m.inputLen as nat);
          var u := Create(m.fs, name);
          TypedNameIsNotFree(m.capture, m.inputLen as nat);
          CreatePreservesInv(m.fs, name);
          CreateKeepsListing(m.fs, name);
          (m.(fs := u.fs, inputMode := 0, inputLen := 0, context := 0, fileCount := Refresh(u.fs)),
           FileCreated(name, u.outcome))
        else
          (m.(inputMode := 0, inputLen := 0), ShowInput(m.capture[..m.inputLen]))
      else (m, Quiet)
    else if sc == SC_ESC then (m.(inputMode := 0), InputClosed)
    else if sc == SC_BACKSPACE then
      if m.inputLen > 0 then (m.(inputLen := m.inputLen - 1), Erased) else (m, Quiet)
    else if sc == SC_HOME then
      (m.(selection := 0, inputMode := 0, menu := MENU_COMMANDER, fileCount := Refresh(m.fs)), Commander)
    else if sc != SC_ALT then
      var ascii := CharFor(sc, m.alt == 1);
      if ascii != 0 && (m.inputLen as int) < CAPTURE_SIZE then
        (m.(capture := m.capture[m.inputLen := ascii], inputLen := m.inputLen + 1), Echo(ascii))
      else (m, Quiet)
    else (m, Quiet)
  }

  /** The main menu's keys. */
  function MainMenuKey(m: Machine, sc: byte): (r: (Machine, Effect))
    requires Ok(m) && m.menu == MENU_MAIN
    ensures Ok(r.0)
  {
    if sc == SC_1 then (m, Banner(1))
    else if sc == SC_2 then (m, Banner(2))
    else if sc == SC_3 then (m, Banner(3))
    else if sc == SC_4 then (m, Line)
    else if sc == SC_9 then (m, Quiet)
    else if sc == SC_M then (m.(menu := MENU_MATH), MathMenu)
    else if sc == SC_I then (m.(inputMode := 1), InputPrompt)
    else if sc == SC_HOME then
      (m.(selection := 0, menu := MENU_COMMANDER, fileCount := Refresh(m.fs)), Commander)
    else if sc == SC_F8 || sc == SC_6 || sc == SC_F8_SET3 || sc == SC_9 || sc == SC_8 || sc == SC_SET2_BREAK_PREFIX then
      (m.(encoding := 1, menu := MENU_UNICODE), UnicodeMenu)
    else if sc == SC_ESC then (m, Cleared)
    else (m, Quiet)
  }

  /** The math menu's keys: fixed results for 1 .. 4, a number below 100 from next_rand for 9. */
  function MathMenuKey(m: Machine, sc: byte): (r: (Machine, Effect))
    requires Ok(m) && m.menu == MENU_MATH
    ensures Ok(r.0)
    ensures r.1.RandomNumber? ==> r.0.seed == KernelMain.Lcg(m.seed) && r.1.n == r.0.seed as int % 100
    ensures !r.1.RandomNumber? ==> r.0.seed == m.seed
  {
    if sc == SC_0 then (m.(menu := MENU_MAIN), MainMenu)
    else if sc == SC_1 then (m, MathResult(2 + 2))
    else if sc == SC_2 then (m, MathResult(5 - 3))
    else if sc == SC_3 then (m, MathResult(3 * 4))
    else if sc == SC_4 then (m, MathResult(8 / 2))
    else if sc == SC_9 then
      var s := KernelMain.Lcg(m.seed);
      (m.(seed := s), RandomNumber(s as int % 100))
    else (m, Quiet)
  }

  /** The mini-commander's keys. Up and Down move the selection within the counted files and refresh the
      count; F7 opens the name prompt; Enter edits the selected slot (the editor reads session) and then
      refreshes; ESC returns to the main menu. */
  function CommanderKey(m: Machine, sc: byte, session: seq<byte>): (r: (Machine, Effect))
    requires Ok(m) && m.menu == MENU_COMMANDER
    ensures Ok(r.0)
    ensures r.1.Edited? ==> m.fileCount > 0 && r.1.name == m.fs.dir[m.selection].name && r.1.name[0] != FREE_MARK
  {
    if sc == SC_UP then
      (m.(selection := if m.selection > 0 then m.selection - 1 else m.selection, fileCount := Refresh(m.fs)), ListRefreshed)
    else if sc == SC_DOWN then
      var next := (m.selection as int + 1) % 0x100;
      var sel := if m.fileCount > 0 && next < m.fileCount as int then m.selection + 1 else m.selection;
      (m.(selection := sel, fileCount := Refresh(m.fs)), ListRefreshed)
    else if sc == SC_F7 then (m.(context := CTX_CREATE, inputLen := 0, inputMode := 1), NamePrompt)
    else if sc == SC_ENTER then
      if m.fileCount == 0 then (m, NoFiles)
      else
        var name := m.fs.dir[m.selection].name;
        ListedSlotsAreUsed(m.fs, m.selection as nat);
        var ed := Edit(m.editor, m.fs, name, session);
        SessionKeepsListing(Load(m.editor, m.fs, name), m.fs, session);
        (m.(editor := ed.0, fs := ed.1, fileCount := Refresh(ed.1)), Edited(name))
    else if sc == SC_ESC then (m.(menu := MENU_MAIN), MainMenu)
    else (m, Quiet)
  }

  /** The menu branch for a make code outside input mode. */
  function MenuKey(m: Machine, sc: byte, session: seq<byte>): (r: (Machine, Effect))
    requires Ok(m) && m.inputMode != 1 && sc < BREAK_BIT
    ensures Ok(r.0)
    ensures r.0.last == m.last && r.0.alt == m.alt
  {
    if m.menu == MENU_MAIN then MainMenuKey(m, sc)
    else if m.menu == MENU_MATH then MathMenuKey(m, sc)
    else if m.menu == MENU_UNICODE then
      if sc == SC_0 then (m.(menu := MENU_MAIN), MainMenu)
      else if sc == SC_1 then (m, VmNotice)
      else (m, Quiet)
    else CommanderKey(m, sc, session)
  }

  /** One run of poll_keyboard_unified on a scancode: a code equal to the latch is ignored; otherwise
      the latch takes it, the ALT latch follows ALT's make and break codes, and a make code goes to the
      input or the menu branch, after which F5 requests a reset. A break code finally clears the latch.
      session is what the editor reads when Enter opens a file. */
  function Next(m: Machine, sc: byte, session: seq<byte>): (r: (Machine, Effect))
    requires Ok(m)
    ensures Ok(r.0)
  {
    var stepped :=
      if sc == m.last then (m, Quiet)
      else
        var latched := m.(last := sc, alt := if sc == SC_ALT then 1 else if sc == SC_ALT_BREAK then 0 else m.alt);
        if sc >= BREAK_BIT then (latched, Quiet)
        else
          var handled := if latched.inputMode == 1 then InputKey(latched, sc) else MenuKey(latched, sc, session);
          (handled.0, if sc == SC_F5 then Reboot else handled.1);
    (stepped.0.(last := if sc >= BREAK_BIT then 0 else stepped.0.last), stepped.1)
  }

  // ---------------------------------------------------------------------------------------------
  // Properties of the machine

  /** A repeated code does nothing: holding a key down acts once. */
  lemma HeldKeyActsOnce(m: Machine, sc: byte, s1: seq<byte>, s2: seq<byte>)
    requires Ok(m) && sc < BREAK_BIT
    ensures Next(Next(m, sc, s1).0, sc, s2) == (Next(m, sc, s1).0, Quiet)
  {
    if sc != m.last {
      var latched := m.(last := sc, alt := if sc == SC_ALT then 1 else m.alt);
      assert Next(m, sc, s1).0.last == sc by {
        if latched.inputMode == 1 {
          assert InputKey(latched, sc).0.last == sc;
        } else {
          assert MenuKey(latched, sc, s1).0.last == sc;
        }
      }
    }
  }

  /** A break code never reaches a handler: only the ALT latch follows it and the latch clears, so the
      same key registers again when next pressed. */
  lemma BreakCodesOnlyLatch(m: Machine, sc: byte, session: seq<byte>)
    requires Ok(m) && sc >= BREAK_BIT
    ensures Next(m, sc, session) == (m.(last := 0, alt := if sc == SC_ALT_BREAK then 0 else m.alt), Quiet)
  {
  }

  /** ESC in input mode clears the input flag and nothing else; length and context stay. */
  lemma EscClosesInputOnly(m: Machine, session: seq<byte>)
    requires Ok(m) && m.inputMode == 1 && m.last != SC_ESC
    ensures Next(m, SC_ESC, session) == (m.(last := SC_ESC, inputMode := 0), InputClosed)
  {
  }

  /** Typing a character and then backspace gives the input back: the length returns and only the
      buffer byte past the input changed. */
  lemma BackspaceUndoesTyping(m: Machine, sc: byte, s1: seq<byte>, s2: seq<byte>)
    requires Ok(m) && m.inputMode == 1 && sc != m.last && sc < BREAK_BIT && sc != SC_BACKSPACE
    requires CharFor(sc, m.alt == 1) != 0 && (m.inputLen as int) < CAPTURE_SIZE
    ensures var m2 := Next(Next(m, sc, s1).0, SC_BACKSPACE, s2).0;
      && m2.inputLen == m.inputLen
      && m2.capture[..m.inputLen] == m.capture[..m.inputLen]
      && m2 == m.(last := SC_BACKSPACE, capture := m2.capture)
  {
    var ascii := CharFor(sc, m.alt == 1);
    assert sc != SC_ENTER && sc != SC_ESC && sc != SC_HOME && sc != SC_ALT && sc != SC_F5;
    var m1 := Next(m, sc, s1).0;
    assert m1 == m.(last := sc, capture := m.capture[m.inputLen := ascii], inputLen := m.inputLen + 1);
    assert m1.capture[..m.inputLen] == m.capture[..m.inputLen];
  }

  /** At the length limit typed characters are dropped. */
  lemma FullInputDropsCharacters(m: Machine, sc: byte, session: seq<byte>)
    requires Ok(m) && m.inputMode == 1 && sc != m.last && sc < BREAK_BIT && m.inputLen as int == CAPTURE_SIZE
    requires sc !in {SC_ENTER, SC_ESC, SC_BACKSPACE, SC_HOME}
    ensures Next(m, sc, session).0 == m.(last := sc, alt := if sc == SC_ALT then 1 else m.alt)
  {
  }

  /** Enter on a non-empty input in the create context makes a file of the upper-cased name and leaves
      input mode with length and context reset; with an empty input it does nothing. */
  lemma EnterCreatesNamedFile(m: Machine, session: seq<byte>)
    requires Ok(m) && m.inputMode == 1 && m.last != SC_ENTER
    ensures m.inputLen == 0 ==> Next(m, SC_ENTER, session) == (m.(last := SC_ENTER), Quiet)
    ensures m.inputLen > 0 && m.context == CTX_CREATE ==>
      var name := FileName(m.capture, m.inputLen as nat);
      && name[0] != FREE_MARK && name[0] != DELETED_MARK
      && Next(m, SC_ENTER, session).0.fs == Create(m.fs, name).fs
      && Next(m, SC_ENTER, session).0.inputMode == 0
      && Next(m, SC_ENTER, session).0.inputLen == 0
      && Next(m, SC_ENTER, session).0.context == 0
      && Next(m, SC_ENTER, session).0.menu == m.menu
  {
    if m.inputLen > 0 {
      TypedNameIsNotFree(m.capture, m.inputLen as nat);
    }
  }

  /** In the mini-commander, Enter with no counted file never opens the editor; otherwise it opens a
      slot that the listing shows, whose name is not a free marker. */
  lemma CommanderEnterOpensListedFile(m: Machine, session: seq<byte>)
    requires Ok(m) && m.inputMode != 1 && m.menu == MENU_COMMANDER && m.last != SC_ENTER
    ensures m.fileCount == 0 ==> Next(m, SC_ENTER, session) == (m.(last := SC_ENTER), NoFiles)
    ensures m.fileCount > 0 ==>
      && Next(m, SC_ENTER, session).1 == Edited(m.fs.dir[m.selection].name)
      && (m.selection as int) < UsedCount(m.fs.dir, LIST_SLOTS)
      && m.fs.dir[m.selection].name[0] != FREE_MARK
  {
  }

  /** Up and Down keep the selection inside the listing, and Down moves it only when a next file is
      counted. */
  lemma SelectionStaysInList(m: Machine, sc: byte, session: seq<byte>)
    requires Ok(m) && m.inputMode != 1 && m.menu == MENU_COMMANDER && sc != m.last
    requires sc == SC_UP || sc == SC_DOWN
    ensures var r := Next(m, sc, session).0;
      && (r.selection == 0 || r.selection < r.fileCount)
      && r.fileCount as int == UsedCount(m.fs.dir, LIST_SLOTS)
      && (sc == SC_DOWN ==> (r.selection == m.selection + 1 <==> (m.selection as int) + 1 < m.fileCount as int))
      && (sc == SC_UP ==> r.selection as int == if m.selection > 0 then m.selection as int - 1 else 0)
  {
  }

  /** The mode switches: M opens the math menu, I input mode, Home the mini-commander with the first
      entry selected; F7 in the mini-commander starts a name prompt; ESC there and 0 in the math and
      glyph menus go back to the main menu. */
  lemma MenuTransitions(m: Machine, sc: byte, session: seq<byte>)
    requires Ok(m) && m.inputMode != 1 && sc != m.last
    ensures m.menu == MENU_MAIN && sc == SC_M ==> Next(m, sc, session).0.menu == MENU_MATH
    ensures m.menu == MENU_MAIN && sc == SC_I ==> Next(m, sc, session).0.inputMode == 1
    ensures m.menu == MENU_MAIN && sc == SC_HOME ==>
      Next(m, sc, session).0.menu == MENU_COMMANDER && Next(m, sc, session).0.selection == 0
    ensures m.menu == MENU_COMMANDER && sc == SC_F7 ==>
      var r := Next(m, sc, session).0; r.context == CTX_CREATE && r.inputLen == 0 && r.inputMode == 1
    ensures m.menu == MENU_COMMANDER && sc == SC_ESC ==> Next(m, sc, session).0.menu == MENU_MAIN
    ensures (m.menu == MENU_MATH || m.menu == MENU_UNICODE) && sc == SC_0 ==> Next(m, sc, session).0.menu == MENU_MAIN
  {
  }

  /** The generator advances only on key 9 in the math menu, and the number shown is below 100. */
  lemma SeedAdvancesOnlyForRandom(m: Machine, sc: byte, session: seq<byte>)
    requires Ok(m)
    ensures var r := Next(m, sc, session);
      if r.1.RandomNumber? then r.0.seed == KernelMain.Lcg(m.seed) && r.1.n < 100 && m.menu == MENU_MATH
      else r.0.seed == m.seed
  {
    if sc != m.last && sc < BREAK_BIT && m.inputMode != 1 && m.menu == MENU_COMMANDER && sc == SC_ENTER && m.fileCount > 0 {
      assert Next(m, sc, session).1.Edited?;
    }
  }

  /** F5 requests a reset in every mode, but only as a fresh make code. */
  lemma F5Reboots(m: Machine, session: seq<byte>)
    requires Ok(m)
    ensures Next(m, SC_F5, session).1 == Reboot <==> m.last != SC_F5
  {
  }

  /** The state kernel_main leaves before its loop: menu and latch 0, the other bytes taken as zero,
      SEED from the counter, the editor as statically initialised and the store formatted. */
  function Boot(seed: u64, editor: EditorState, fs: FsState): (m: Machine)
  {
    Machine(MENU_MAIN, 0, 0, 0, 0, 0, 0, 0, 0, seq(CAPTURE_SIZE, _ => 0), seed, editor, fs)
  }

  /** The boot state satisfies the machine's invariant. */
  lemma BootIsOk(seed: u64, editor: EditorState, fs: FsState)
    requires Good(editor) && Formatted(fs)
    ensures Ok(Boot(seed, editor, fs))
  {
    FormattedIsEmpty(fs, BLANK.name);
  }

  // ---------------------------------------------------------------------------------------------
  // The machine in memory

  /** The kernel's keyboard-facing state: the fixed-address bytes as fields, the capture buffer at
      0x600 as an array, and the generator, editor and RAM disk objects it calls into. */
  class Controller {
    var menu: byte
    var last: byte
    var inputLen: byte
    var inputMode: byte
    var alt: byte
    var encoding: byte
    var selection: byte
    var context: byte
    var fileCount: byte
    var capture: array<byte>
    var rng: KernelMain.Rng
    var editor: TextEditor
    var disk: Fat16Disk

    ghost function Snapshot(): Machine
      reads this, capture, rng, editor, editor.content, disk, disk.fat, disk.data
    {
      Machine(menu, last, inputLen, inputMode, alt, encoding, selection, context, fileCount,
              capture[..], rng.seed, editor.View(), disk.State())
    }

    /** The machine's invariant, and the three byte buffers are different memory. */
    ghost predicate Valid()
      reads this, capture, rng, editor, editor.content, disk, disk.fat, disk.data
    {
      Ok(Snapshot()) && capture != disk.data && editor.content != disk.data && capture != editor.content
    }

    /** kernel_main before its loop: seed_rng, menu state 0 (main_menu writes it too), latch 0. The
        bytes it does not write are taken as zero, the store as formatted. */
    constructor Start(rax: bv64, rdx: bv64)
      ensures Valid()
      ensures Snapshot() == Boot(rng.seed, editor.View(), disk.State())
      ensures rng.seed as bv64 == KernelMain.Rdtsc(rax, rdx)
      ensures Formatted(disk.State()) && editor.View().size == 0
    {
      var r := new KernelMain.Rng();
      r.SeedRng(rax, rdx);
      var buffer := new byte[CAPTURE_SIZE](_ => 0);
      var ed := new TextEditor();
      var d := new Fat16Disk.Format();
      ghost var booted := Boot(r.seed, ed.View(), d.State());
      BootIsOk(r.seed, ed.View(), d.State());
      rng := r;
      capture := buffer;
      editor := ed;
      disk := d;
      menu := MENU_MAIN;
      last := 0;
      inputLen := 0;
      inputMode := 0;
      alt := 0;
      encoding := 0;
      selection := 0;
      context := 0;
      fileCount := 0;
      new;
      assert capture[..] == booted.capture;
      assert editor.View() == booted.editor && disk.State() == booted.fs;
      assert Snapshot() == booted;
    }

    /** The name-building loop of Enter: up to eight captured bytes, upper-cased, into a buffer of
        spaces. */
    method BuildFileName(len: byte) returns (name: seq<byte>)
      requires capture.Length == CAPTURE_SIZE && len as int <= CAPTURE_SIZE
      ensures name == FileName(capture[..], len as nat)
    {
      var nameBuf := new byte[NAME_CHARS](_ => SPACE);
      var count: byte := if len > 8 then 8 else len;
      var idx: byte := 0;
      while idx < count
        invariant idx <= count
        invariant forall i :: 0 <= i < NAME_CHARS ==>
          nameBuf[i] == if i < idx as int then Upper(capture[i]) else SPACE
      {
        var c := capture[idx];
        nameBuf[idx] := Upper(c);
        idx := idx + 1;
      }
      name := nameBuf[..];
    }

    /** Enter in the file-name prompt, once the name is built: create the file, close the prompt and
        recount the listing (fat16_mc). */
    method CreateNamed(name: seq<byte>) returns (effect: Effect)
      requires Valid() && inputMode == 1 && inputLen > 0 && context == CTX_CREATE
      requires name == FileName(capture[..], inputLen as nat)
      modifies this, disk, disk.fat
      ensures (Snapshot(), effect) == InputKey(old(Snapshot()), SC_ENTER)
      ensures capture == old(capture) && rng == old(rng) && editor == old(editor) && disk == old(disk)
      ensures disk.fat == old(disk.fat) && disk.data == old(disk.data)
    {
      ghost var m := Snapshot();
      ghost var u := Create(m.fs, name);
      assert InputKey(m, SC_ENTER)
          == (m.(fs := u.fs, inputMode := 0, inputLen := 0, context := 0, fileCount := Refresh(u.fs)),
              FileCreated(name, u.outcome));
      var outcome := disk.CreateFile(name);
      inputMode := 0;
      inputLen := 0;
      context := 0;
      fileCount := disk.CountListed();
      effect := FileCreated(name, outcome);
    }

    /** Enter in input mode: in the file-name prompt it creates the file, otherwise it shows the
        captured text; either way the prompt closes. An empty capture does nothing. */
    method InputEnter() returns (effect: Effect)
      requires Valid() && inputMode == 1
      modifies this, disk, disk.fat
      ensures (Snapshot(), effect) == InputKey(old(Snapshot()), SC_ENTER)
      ensures capture == old(capture) && rng == old(rng) && editor == old(editor) && disk == old(disk)
      ensures disk.fat == old(disk.fat) && disk.data == old(disk.data)
    {
      var len := inputLen;
      var ctx := context;
      if len > 0 {
        if ctx == CTX_CREATE {
          var name := BuildFileName(len);
          effect := CreateNamed(name);
        } else {
          effect := ShowInput(capture[..len]);
          inputMode := 0;
          inputLen := 0;
        }
      } else {
        effect := Quiet;
      }
    }

    /** HOME in input mode: leave the prompt for the commander, selection at the top. */
    method InputHome() returns (effect: Effect)
      requires Valid() && inputMode == 1
      modifies this
      ensures (Snapshot(), effect) == InputKey(old(Snapshot()), SC_HOME)
      ensures capture == old(capture) && rng == old(rng) && editor == old(editor) && disk == old(disk)
    {
      ghost var m := Snapshot();
      assert InputKey(m, SC_HOME)
          == (m.(selection := 0, inputMode := 0, menu := MENU_COMMANDER, fileCount := Refresh(m.fs)), Commander);
      selection := 0;
      inputMode := 0;
      menu := MENU_COMMANDER;
      fileCount := disk.CountListed();
      effect := Commander;
    }

    /** Any other make code in input mode: its character, from the ALT table while ALT is held, is
        stored and echoed while the capture has room. */
    method TypeKey(sc: byte) returns (effect: Effect)
      requires Valid() && inputMode == 1 && sc < BREAK_BIT
      requires sc != SC_ENTER && sc != SC_ESC && sc != SC_BACKSPACE && sc != SC_HOME
      modifies this, capture
      ensures (Snapshot(), effect) == InputKey(old(Snapshot()), sc)
      ensures capture == old(capture) && rng == old(rng) && editor == old(editor) && disk == old(disk)
    {
      if sc != SC_ALT {
        var ascii := CharFor(sc, alt == 1);
        if ascii != 0 && (inputLen as int) < CAPTURE_SIZE {
          capture[inputLen] := ascii;
          inputLen := inputLen + 1;
          effect := Echo(ascii);
        } else {
          effect := Quiet;
        }
      } else {
        effect := Quiet;
      }
    }

    /** The input-mode branch. */
    method OnInputKey(sc: byte) returns (effect: Effect)
      requires Valid() && inputMode == 1 && sc < BREAK_BIT
      modifies this, capture, disk, disk.fat
      ensures (Snapshot(), effect) == InputKey(old(Snapshot()), sc)
      ensures capture == old(capture) && rng == old(rng) && editor == old(editor) && disk == old(disk)
      ensures disk.fat == old(disk.fat) && disk.data == old(disk.data)
    {
      if sc == SC_ENTER {
        effect := InputEnter();
      } else if sc == SC_ESC {
        inputMode := 0;
        effect := InputClosed;
      } else if sc == SC_BACKSPACE {
        if inputLen > 0 {
          inputLen := inputLen - 1;
          effect := Erased;
        } else {
          effect := Quiet;
        }
      } else if sc == SC_HOME {
        effect := InputHome();
      } else {
        effect := TypeKey(sc);
      }
    }

    /** main_menu's state write: back to the main menu, nothing else changes. */
    method EnterMainMenu()
      modifies this
      ensures Snapshot() == old(Snapshot()).(menu := MENU_MAIN)
      ensures capture == old(capture) && rng == old(rng) && editor == old(editor) && disk == old(disk)
    {
      menu := MENU_MAIN;
    }

    /** HOME in the main menu: open the commander, selection at the top. */
    method MainMenuHome() returns (effect: Effect)
      requires Valid() && menu == MENU_MAIN
      modifies this
      ensures (Snapshot(), effect) == MainMenuKey(old(Snapshot()), SC_HOME)
      ensures capture == old(capture) && rng == old(rng) && editor == old(editor) && disk == old(disk)
    {
      ghost var m := Snapshot();
      assert MainMenuKey(m, SC_HOME) == (m.(selection := 0, menu := MENU_COMMANDER, fileCount := Refresh(m.fs)), Commander);
      selection := 0;
      menu := MENU_COMMANDER;
      fileCount := disk.CountListed();
      effect := Commander;
    }

    /** The main menu. */
    method OnMainMenuKey(sc: byte) returns (effect: Effect)
      requires Valid() && menu == MENU_MAIN
      modifies this
      ensures (Snapshot(), effect) == MainMenuKey(old(Snapshot()), sc)
      ensures capture == old(capture) && rng == old(rng) && editor == old(editor) && disk == old(disk)
    {
      if sc == SC_1 {
        effect := Banner(1);
      } else if sc == SC_2 {
        effect := Banner(2);
      } else if sc == SC_3 {
        effect := Banner(3);
      } else if sc == SC_4 {
        effect := Line;
      } else if sc == SC_9 {
        effect := Quiet;
      } else if sc == SC_M {
        menu := MENU_MATH;
        effect := MathMenu;
      } else if sc == SC_I {
        inputMode := 1;
        effect := InputPrompt;
      } else if sc == SC_HOME {
        effect := MainMenuHome();
      } else if sc == SC_F8 || sc == SC_6 || sc == SC_F8_SET3 || sc == SC_9 || sc == SC_8 || sc == SC_SET2_BREAK_PREFIX {
        encoding := 1;
        menu := MENU_UNICODE;
        effect := UnicodeMenu;
      } else if sc == SC_ESC {
        effect := Cleared;
      } else {
        effect := Quiet;
      }
    }

    /** The math menu. */
    method OnMathKey(sc: byte) returns (effect: Effect)
      requires Valid() && menu == MENU_MATH
      modifies this, rng
      ensures (Snapshot(), effect) == MathMenuKey(old(Snapshot()), sc)
      ensures rng == old(rng)
      ensures capture == old(capture) && rng == old(rng) && editor == old(editor) && disk == old(disk)
    {
      if sc == SC_0 {
        EnterMainMenu();
        effect := MainMenu;
      } else if sc == SC_1 {
        effect := MathResult(2 + 2);
      } else if sc == SC_2 {
        effect := MathResult(5 - 3);
      } else if sc == SC_3 {
        effect := MathResult(3 * 4);
      } else if sc == SC_4 {
        effect := MathResult(8 / 2);
      } else if sc == SC_9 {
        var r := rng.NextRand();
        effect := RandomNumber(r as int % 100);
      } else {
        effect := Quiet;
      }
    }

    /** Up in the commander: move the selection up unless it is at the top, then recount. */
    method MoveUp() returns (effect: Effect)
      requires Valid() && menu == MENU_COMMANDER
      modifies this
      ensures (Snapshot(), effect) == CommanderKey(old(Snapshot()), SC_UP, [])
      ensures capture == old(capture) && rng == old(rng) && editor == old(editor) && disk == old(disk)
    {
      ghost var m := Snapshot();
      assert CommanderKey(m, SC_UP, [])
          == (m.(selection := if m.selection > 0 then m.selection - 1 else m.selection, fileCount := Refresh(m.fs)),
              ListRefreshed);
      if selection > 0 {
        selection := selection - 1;
      }
      fileCount := disk.CountListed();
      effect := ListRefreshed;
    }

    /** Down in the commander: move the selection down while the next index (in u8 arithmetic) is
        below the count, then recount. */
    method MoveDown() returns (effect: Effect)
      requires Valid() && menu == MENU_COMMANDER
      modifies this
      ensures (Snapshot(), effect) == CommanderKey(old(Snapshot()), SC_DOWN, [])
      ensures capture == old(capture) && rng == old(rng) && editor == old(editor) && disk == old(disk)
    {
      ghost var m := Snapshot();
      ghost var next := (m.selection as int + 1) % 0x100;
      ghost var moved := if m.fileCount > 0 && next < m.fileCount as int then m.selection + 1 else m.selection;
      assert CommanderKey(m, SC_DOWN, []) == (m.(selection := moved, fileCount := Refresh(m.fs)), ListRefreshed);
      var filesCnt := fileCount;
      var sel := selection;
      if filesCnt > 0 {
        var next := (sel as int + 1) % 0x100;
        if next < filesCnt as int {
          selection := selection + 1;
        }
      }
      fileCount := disk.CountListed();
      effect := ListRefreshed;
    }

    /** Enter in the commander: edit the selected slot's file, then recount the listing. */
    method OpenSelected(session: seq<byte>) returns (effect: Effect)
      requires Valid() && menu == MENU_COMMANDER && fileCount > 0
      modifies this, editor, editor.content, disk, disk.fat, disk.data
      ensures (Snapshot(), effect) == CommanderKey(old(Snapshot()), SC_ENTER, session)
      ensures capture == old(capture) && rng == old(rng) && editor == old(editor) && disk == old(disk)
      ensures editor.content == old(editor.content) && disk.fat == old(disk.fat) && disk.data == old(disk.data)
    {
      ghost var m := Snapshot();
      ListedSlotsAreUsed(m.fs, selection as nat);
      var name := disk.dir[selection].name;
      ghost var ed := Edit(m.editor, m.fs, name, session);
      assert CommanderKey(m, SC_ENTER, session)
          == (m.(editor := ed.0, fs := ed.1, fileCount := Refresh(ed.1)), Edited(name));
      editor.EditFile(disk, name, session);
      assert editor.View() == ed.0 && disk.State() == ed.1;
      fileCount := disk.CountListed();
      effect := Edited(name);
      assert capture[..] == m.capture;
      assert Snapshot() == m.(editor := ed.0, fs := ed.1, fileCount := Refresh(ed.1));
    }

    /** The mini-commander. */
    method OnCommanderKey(sc: byte, session: seq<byte>) returns (effect: Effect)
      requires Valid() && menu == MENU_COMMANDER
      modifies this, editor, editor.content, disk, disk.fat, disk.data
      ensures (Snapshot(), effect) == CommanderKey(old(Snapshot()), sc, session)
      ensures capture == old(capture) && rng == old(rng) && editor == old(editor) && disk == old(disk)
      ensures editor.content == old(editor.content) && disk.fat == old(disk.fat) && disk.data == old(disk.data)
    {
      if sc == SC_UP {
        effect := MoveUp();
      } else if sc == SC_DOWN {
        effect := MoveDown();
      } else if sc == SC_F7 {
        context := CTX_CREATE;
        inputLen := 0;
        inputMode := 1;
        effect := NamePrompt;
      } else if sc == SC_ENTER {
        if fileCount == 0 {
          effect := NoFiles;
        } else {
          effect := OpenSelected(session);
        }
      } else if sc == SC_ESC {
        EnterMainMenu();
        effect := MainMenu;
      } else {
        effect := Quiet;
      }
      assert capture[..] == old(capture[..]);
    }

    /** The menu branch. */
    method OnMenuKey(sc: byte, session: seq<byte>) returns (effect: Effect)
      requires Valid() && inputMode != 1 && sc < BREAK_BIT
      modifies this, rng, editor, editor.content, disk, disk.fat, disk.data
      ensures (Snapshot(), effect) == MenuKey(old(Snapshot()), sc, session)
      ensures capture == old(capture) && rng == old(rng) && editor == old(editor) && disk == old(disk)
      ensures editor.content == old(editor.content) && disk.fat == old(disk.fat) && disk.data == old(disk.data)
    {
      if menu == MENU_MAIN {
        effect := OnMainMenuKey(sc);
      } else if menu == MENU_MATH {
        effect := OnMathKey(sc);
      } else if menu == MENU_UNICODE {
        if sc == SC_0 {
          EnterMainMenu();
          effect := MainMenu;
        } else if sc == SC_1 {
          effect := VmNotice;
        } else {
          effect := Quiet;
        }
      } else {
        effect := OnCommanderKey(sc, session);
      }
    }

    /** A make code different from the latch: latch it, update the ALT latch, and hand it to the
        input or the menu branch; F5 then requests a reset. */
    method Press(sc: byte, session: seq<byte>) returns (effect: Effect)
      requires Valid() && sc != last && sc < BREAK_BIT
      modifies this, capture, rng, editor, editor.content, disk, disk.fat, disk.data
      ensures (Snapshot(), effect) == Next(old(Snapshot()), sc, session)
      ensures capture == old(capture) && rng == old(rng) && editor == old(editor) && disk == old(disk)
      ensures editor.content == old(editor.content) && disk.fat == old(disk.fat) && disk.data == old(disk.data)
    {
      ghost var m := Snapshot();
      last := sc;
      if sc == SC_ALT {
        alt := 1;
      }
      ghost var latched := m.(last := sc, alt := if sc == SC_ALT then 1 else m.alt);
      assert Snapshot() == latched;
      ghost var handled := if latched.inputMode == 1 then InputKey(latched, sc) else MenuKey(latched, sc, session);
      assert Next(m, sc, session) == (handled.0, if sc == SC_F5 then Reboot else handled.1);
      if inputMode == 1 {
        effect := OnInputKey(sc);
      } else {
        effect := OnMenuKey(sc, session);
      }
      if sc == SC_F5 {
        effect := Reboot;
      }
    }

    /** poll_keyboard_unified on one scancode read from port 0x60. */
    method Step(sc: byte, session: seq<byte>) returns (effect: Effect)
      requires Valid()
      modifies this, capture, rng, editor, editor.content, disk, disk.fat, disk.data
      ensures Valid()
      ensures (Snapshot(), effect) == Next(old(Snapshot()), sc, session)
      ensures capture == old(capture) && rng == old(rng) && editor == old(editor) && disk == old(disk)
      ensures editor.content == old(editor.content) && disk.fat == old(disk.fat) && disk.data == old(disk.data)
    {
      ghost var m := Snapshot();
      if sc == last {
        assert Next(m, sc, session) == (m, Quiet);
        effect := Quiet;
      } else if sc < BREAK_BIT {
        effect := Press(sc, session);
      } else {
        assert Next(m, sc, session) == (m.(last := 0, alt := if sc == SC_ALT_BREAK then 0 else m.alt), Quiet);
        last := sc;
        if sc == SC_ALT_BREAK {
          alt := 0;
        }
        last := 0;
        effect := Quiet;
      }
    }

    /** One pass of kernel_main's loop: the keyboard routine runs only when bit 0 of the status byte
        read from port 0x64 is set. */
    method Tick(status: byte, sc: byte, session: seq<byte>) returns (effect: Effect)
      requires Valid()
      modifies this, capture, rng, editor, editor.content, disk, disk.fat, disk.data
      ensures Valid()
      ensures status % 2 == 1 ==> (Snapshot(), effect) == Next(old(Snapshot()), sc, session)
      ensures status % 2 == 0 ==> Snapshot() == old(Snapshot()) && effect == Quiet
      ensures capture == old(capture) && rng == old(rng) && editor == old(editor) && disk == old(disk)
      ensures editor.content == old(editor.content) && disk.fat == old(disk.fat) && disk.data == old(disk.data)
    {
      if status % 2 == 1 {
        effect := Step(sc, session);
      } else {
        effect := Quiet;
      }
    }
  }
}
