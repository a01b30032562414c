/** The full-screen text editor: an 8 KiB buffer edited at a cursor laid out 75 columns wide, loaded
    from and saved to the FAT16 store. */
module Editor {
  import opened Words
  import opened Fat16Layout
  import opened Fat16

  const EDITOR_WIDTH: nat := 80
  /** Columns taken by the line-number gutter. */
  const CONTENT_COL_OFFSET: nat := 5
  const CONTENT_WIDTH: nat := EDITOR_WIDTH - CONTENT_COL_OFFSET
  const MAX_FILE_SIZE: nat := 8192

  /** The scancodes (set 1 make codes) the editor reacts to. */
  const KEY_ESC: byte := 0x01
  const KEY_BACKSPACE: byte := 0x0E
  const KEY_ENTER: byte := 0x1C
  const KEY_SPACE: byte := 0x39
  const KEY_F10: byte := 0x44
  const KEY_UP: byte := 0x48
  const KEY_LEFT: byte := 0x4B
  const KEY_RIGHT: byte := 0x4D
  const KEY_DOWN: byte := 0x50

  const SPACE: byte := 0x20
  const NEWLINE: byte := 0x0A

  /** The fields of TextEditor as a value. filename_len is never read and is not part of it. */
  datatype EditorState = EditorState(
    content: seq<byte>,
    size: nat,
    cursorX: nat,
    cursorY: nat,
    offset: nat,
    filename: seq<byte>,
    modified: bool)

  /** The buffer has its fixed size, the text fits in it and the cursor column is on the content area. */
  predicate Good(e: EditorState)
  {
    |e.content| == MAX_FILE_SIZE && e.size <= MAX_FILE_SIZE && e.cursorX < CONTENT_WIDTH && |e.filename| == 8
  }

  /** The text being edited: the first size bytes of the buffer. */
  function Text(e: EditorState): seq<byte>
    requires e.size <= |e.content|
  {
    e.content[..e.size]
  }

  /** The buffer index at the cursor, as insert_char and backspace compute it. */
  function Pos(e: EditorState): nat
  {
    (e.cursorY + e.offset) * CONTENT_WIDTH + e.cursorX
  }

  /** The buffer index delete_char computes: there the offset is added unscaled. */
  function DeletePos(e: EditorState): nat
  {
    e.offset + e.cursorY * CONTENT_WIDTH + e.cursorX
  }

  /** move_cursor_right: one column on, wrapping to the next row after column 74. */
  function MoveRight(e: EditorState): (r: EditorState)
    requires e.cursorX < CONTENT_WIDTH
    ensures r.cursorX < CONTENT_WIDTH && Pos(r) == Pos(e) + 1
    ensures r == e.(cursorX := r.cursorX, cursorY := r.cursorY)
  {
    if e.cursorX + 1 >= CONTENT_WIDTH then e.(cursorX := 0, cursorY := e.cursorY + 1)
    else e.(cursorX := e.cursorX + 1)
  }

  /** move_cursor_left: one column back, wrapping to the end of the previous row; stays put at the
      first column of the first row. */
  function MoveLeft(e: EditorState): (r: EditorState)
    requires e.cursorX < CONTENT_WIDTH
    ensures r.cursorX < CONTENT_WIDTH
    ensures e.cursorX > 0 || e.cursorY > 0 ==> Pos(r) + 1 == Pos(e)
    ensures e.cursorX == 0 && e.cursorY == 0 ==> r == e
    ensures r == e.(cursorX := r.cursorX, cursorY := r.cursorY)
  {
    if e.cursorX > 0 then e.(cursorX := e.cursorX - 1)
    else if e.cursorY > 0 then e.(cursorY := e.cursorY - 1, cursorX := CONTENT_WIDTH - 1)
    else e
  }

  /** Moving left undoes moving right. */
  lemma LeftUndoesRight(e: EditorState)
    requires e.cursorX < CONTENT_WIDTH
    ensures MoveLeft(MoveRight(e)) == e
  {
  }

  /** Moving right undoes moving left, except at the very first position where left does nothing. */
  lemma RightUndoesLeft(e: EditorState)
    requires e.cursorX < CONTENT_WIDTH && (e.cursorX > 0 || e.cursorY > 0)
    ensures MoveRight(MoveLeft(e)) == e
  {
  }

  /** The buffer with ch inserted at p and the text's tail shifted one place right. */
  function Inserted(c: seq<byte>, p: nat, size: nat, ch: byte): (r: seq<byte>)
    requires p <= size < |c|
    ensures |r| == |c|
    ensures forall j :: 0 <= j < |c| ==>
      r[j] == if j < p then c[j] else if j == p then ch else if j <= size then c[j - 1] else c[j]
  {
    c[..p] + [ch] + c[p..size] + c[size + 1..]
  }

  /** The buffer with the byte at p removed from the text, the tail shifted one place left; the byte
      at size - 1 keeps its value. */
  function Removed(c: seq<byte>, p: nat, size: nat): (r: seq<byte>)
    requires p < size <= |c|
    ensures |r| == |c|
    ensures forall j :: 0 <= j < |c| ==> r[j] == if j < p || size - 1 <= j then c[j] else c[j + 1]
  {
    c[..p] + c[p + 1..size] + c[size - 1..]
  }

  /** insert_char: at a cursor within or at the end of the text, and with room in the buffer, the byte
      goes in at the cursor and the cursor moves right; otherwise nothing changes. */
  function Insert(e: EditorState, ch: byte): (r: EditorState)
    requires Good(e)
    ensures Good(r) && r.filename == e.filename && r.offset == e.offset
    ensures e.size < MAX_FILE_SIZE && Pos(e) <= e.size ==>
      && Text(r) == Text(e)[..Pos(e)] + [ch] + Text(e)[Pos(e)..]
      && Pos(r) == Pos(e) + 1 && r.modified
      && (forall j :: r.size <= j < MAX_FILE_SIZE ==> r.content[j] == e.content[j])
    ensures !(e.size < MAX_FILE_SIZE && Pos(e) <= e.size) ==> r == e
  {
    if e.size >= MAX_FILE_SIZE then e
    else
      var p := Pos(e);
      if p <= e.size then
        var r := MoveRight(e.(content := Inserted(e.content, p, e.size, ch), size := e.size + 1, modified := true));
        assert Text(r) == Text(e)[..p] + [ch] + Text(e)[p..];
        r
      else e
  }

  /** backspace: removes the byte before the cursor and moves the cursor left. With the cursor past
      the end of the text the buffer is not shifted, yet the size still drops: the text's last byte
      is lost. At position 0 or on an empty text nothing changes. */
  function EraseBefore(e: EditorState): (r: EditorState)
    requires Good(e)
    ensures Good(r) && r.filename == e.filename && r.offset == e.offset
    ensures 0 < Pos(e) <= e.size ==> Text(r) == Text(e)[..Pos(e) - 1] + Text(e)[Pos(e)..]
    ensures 0 < e.size < Pos(e) ==> Text(r) == Text(e)[..e.size - 1]
    ensures Pos(e) > 0 && e.size > 0 ==>
      && r.size + 1 == e.size && r.modified
      && r.cursorX == MoveLeft(e).cursorX && r.cursorY == MoveLeft(e).cursorY
      && (forall j :: r.size <= j < MAX_FILE_SIZE ==> r.content[j] == e.content[j])
    ensures !(Pos(e) > 0 && e.size > 0) ==> r == e
  {
    var p := Pos(e);
    if p > 0 && e.size > 0 then
      var c := if p <= e.size then Removed(e.content, p - 1, e.size) else e.content;
      var r := MoveLeft(e.(content := c, size := e.size - 1, modified := true));
      assert p <= e.size ==> Text(r) == Text(e)[..p - 1] + Text(e)[p..];
      assert e.size < p ==> Text(r) == Text(e)[..e.size - 1];
      r
    else e
  }

  /** delete_char: removes the byte at the delete position, when that is within the text; the cursor
      stays. The handler never calls it. */
  function EraseAt(e: EditorState): (r: EditorState)
    requires Good(e)
    ensures Good(r) && r.filename == e.filename && r.offset == e.offset
    ensures DeletePos(e) < e.size ==>
      && Text(r) == Text(e)[..DeletePos(e)] + Text(e)[DeletePos(e) + 1..]
      && r.cursorX == e.cursorX && r.cursorY == e.cursorY && r.modified
      && r.size + 1 == e.size
      && (forall j :: r.size <= j < MAX_FILE_SIZE ==> r.content[j] == e.content[j])
    ensures e.size <= DeletePos(e) ==> r == e
  {
    var p := DeletePos(e);
    if p >= e.size then e
    else
      var r := e.(content := Removed(e.content, p, e.size), size := e.size - 1, modified := true);
      assert Text(r) == Text(e)[..p] + Text(e)[p + 1..];
      r
  }

  /** Inserting a byte and then erasing it with backspace gives back the text and the cursor; only the
      buffer byte just past the text may differ. */
  lemma BackspaceUndoesInsert(e: EditorState, ch: byte)
    requires Good(e) && e.size < MAX_FILE_SIZE && Pos(e) <= e.size
    ensures Text(EraseBefore(Insert(e, ch))) == Text(e)
    ensures EraseBefore(Insert(e, ch)).cursorX == e.cursorX && EraseBefore(Insert(e, ch)).cursorY == e.cursorY
    ensures EraseBefore(Insert(e, ch)).size == e.size
    ensures forall j :: 0 <= j < MAX_FILE_SIZE && j != e.size ==> EraseBefore(Insert(e, ch)).content[j] == e.content[j]
  {
    var e1 := Insert(e, ch);
    var e2 := EraseBefore(e1);
    var p := Pos(e);
    assert Text(e2) == Text(e1)[..p] + Text(e1)[p + 1..];
    assert Text(e1)[..p] == Text(e)[..p];
    assert Text(e1)[p + 1..] == Text(e)[p..];
    assert MoveLeft(e1).cursorX == e.cursorX && MoveLeft(e1).cursorY == e.cursorY by {
      LeftUndoesRight(e.(content := e1.content, size := e1.size, modified := true));
    }
  }

  /** Erasing the byte before the cursor and typing it again gives back the text and the cursor. */
  lemma InsertUndoesBackspace(e: EditorState)
    requires Good(e) && 0 < Pos(e) <= e.size && (e.cursorX > 0 || e.cursorY > 0)
    ensures Text(Insert(EraseBefore(e), e.content[Pos(e) - 1])) == Text(e)
    ensures Insert(EraseBefore(e), e.content[Pos(e) - 1]).cursorX == e.cursorX
    ensures Insert(EraseBefore(e), e.content[Pos(e) - 1]).cursorY == e.cursorY
  {
    var p := Pos(e);
    var e1 := EraseBefore(e);
    var e2 := Insert(e1, e.content[p - 1]);
    assert Pos(e1) == p - 1;
    assert Text(e2) == Text(e1)[..p - 1] + [e.content[p - 1]] + Text(e1)[p - 1..];
    assert Text(e) == Text(e)[..p - 1] + [e.content[p - 1]] + Text(e)[p..];
    RightUndoesLeft(e.(content := e1.content, size := e1.size, modified := true));
  }

  /** The QWERTY letter rows and the two punctuation keys, in lower case. */
  const TOP_ROW: seq<byte> := [0x71, 0x77, 0x65, 0x72, 0x74, 0x79, 0x75, 0x69, 0x6F, 0x70]   // qwertyuiop
  const HOME_ROW: seq<byte> := [0x61, 0x73, 0x64, 0x66, 0x67, 0x68, 0x6A, 0x6B, 0x6C]       // asdfghjkl
  const BOTTOM_ROW: seq<byte> := [0x7A, 0x78, 0x63, 0x76, 0x62, 0x6E, 0x6D]                  // zxcvbnm
  const COMMA: byte := 0x2C
  const PERIOD: byte := 0x2E

  predicate IsLowerLetter(b: byte)
  {
    0x61 <= b <= 0x7A
  }

  /** The character handle_input types for a scancode outside its special keys; 0 for none. */
  function KeyChar(sc: byte): (c: byte)
    ensures c == 0 || IsLowerLetter(c) || c == COMMA || c == PERIOD
  {
    if 0x10 <= sc <= 0x19 then TOP_ROW[sc - 0x10]
    else if 0x1E <= sc <= 0x26 then HOME_ROW[sc - 0x1E]
    else if 0x2C <= sc <= 0x32 then BOTTOM_ROW[sc - 0x2C]
    else if sc == 0x33 then COMMA
    else if sc == 0x34 then PERIOD
    else 0
  }

  /** Where a letter sits in the three rows read left to right. */
  function LetterPlace(c: byte): int
  {
    match c
    case 0x71 => 0 case 0x77 => 1 case 0x65 => 2 case 0x72 => 3 case 0x74 => 4
    case 0x79 => 5 case 0x75 => 6 case 0x69 => 7 case 0x6F => 8 case 0x70 => 9
    case 0x61 => 10 case 0x73 => 11 case 0x64 => 12 case 0x66 => 13 case 0x67 => 14
    case 0x68 => 15 case 0x6A => 16 case 0x6B => 17 case 0x6C => 18
    case 0x7A => 19 case 0x78 => 20 case 0x63 => 21 case 0x76 => 22 case 0x62 => 23
    case 0x6E => 24 case 0x6D => 25
    case _ => -1
  }

  /** Different keys type different characters. */
  lemma KeyCharInjective(a: byte, b: byte)
    ensures KeyChar(a) != 0 && KeyChar(a) == KeyChar(b) ==> a == b
  {
    if KeyChar(a) != 0 && KeyChar(a) == KeyChar(b) {
      var rows := TOP_ROW + HOME_ROW + BOTTOM_ROW;
      assert forall i :: 0 <= i < |rows| ==> LetterPlace(rows[i]) == i;
      var ia := RowIndex(a);
      var ib := RowIndex(b);
      if ia < 26 {
        assert IsLowerLetter(rows[ia]);
        assert ib < 26;
        assert rows[ia] == rows[ib];
      }
      assert ia == ib;
    }
  }

  /** The position of a letter key's character in the concatenated rows; 26 and 27 for the comma and
      the period. */
  function RowIndex(sc: byte): (i: nat)
    requires KeyChar(sc) != 0
    ensures i < 26 ==> (TOP_ROW + HOME_ROW + BOTTOM_ROW)[i] == KeyChar(sc)
    ensures i == 26 <==> KeyChar(sc) == COMMA
    ensures i == 27 <==> KeyChar(sc) == PERIOD
    ensures i <= 27
  {
    if 0x10 <= sc <= 0x19 then (sc - 0x10) as nat
    else if 0x1E <= sc <= 0x26 then (sc - 0x1E) as nat + 10
    else if 0x2C <= sc <= 0x32 then (sc - 0x2C) as nat + 19
    else if sc == 0x33 then 26
    else 27
  }

  /** handle_input: arrows move the cursor (up stops at row 0, down is unbounded), backspace erases,
      space and enter insert ' ' and '\n', the letter keys insert their lower-case letter. */
  function Handle(e: EditorState, sc: byte): (r: EditorState)
    requires Good(e)
    ensures Good(r) && r.filename == e.filename && r.offset == e.offset
    ensures r.size <= e.size + 1 && e.size <= r.size + 1
    ensures sc in {KEY_UP, KEY_DOWN, KEY_LEFT, KEY_RIGHT} ==> Text(r) == Text(e) && r.modified == e.modified
    ensures KeyChar(sc) == 0 && sc !in {KEY_UP, KEY_DOWN, KEY_LEFT, KEY_RIGHT, KEY_BACKSPACE, KEY_SPACE, KEY_ENTER} ==> r == e
  {
    if sc == KEY_UP then (if e.cursorY > 0 then e.(cursorY := e.cursorY - 1) else e)
    else if sc == KEY_DOWN then e.(cursorY := e.cursorY + 1)
    else if sc == KEY_LEFT then MoveLeft(e)
    else if sc == KEY_RIGHT then MoveRight(e)
    else if sc == KEY_BACKSPACE then EraseBefore(e)
    else if sc == KEY_SPACE then Insert(e, SPACE)
    else if sc == KEY_ENTER then Insert(e, NEWLINE)
    else
      var c := KeyChar(sc);
      if c != 0 then Insert(e, c) else e
  }

  /** Typing a letter with the cursor at the end of the text appends it. */
  lemma TypingAtEndAppends(e: EditorState, sc: byte)
    requires Good(e) && Pos(e) == e.size < MAX_FILE_SIZE && KeyChar(sc) != 0
    ensures Text(Handle(e, sc)) == Text(e) + [KeyChar(sc)]
  {
    assert sc !in {KEY_UP, KEY_DOWN, KEY_LEFT, KEY_RIGHT, KEY_BACKSPACE, KEY_SPACE, KEY_ENTER};
    assert Text(e)[..Pos(e)] == Text(e);
  }

  /** The editor's buffer for a file: its bytes when a slot has the name (capped at the buffer size),
      nothing otherwise. */
  function LoadedText(fs: FsState, name: seq<byte>): seq<byte>
    requires Inv(fs)
  {
    match ReadFile(fs, name)
    case None => []
    case Some(b) => b
  }

  /** load_file: the cursor goes home, the name is taken, and the first slot with that exact name
      supplies min(file_size, 8192) bytes from its cluster; the buffer past them keeps old bytes. */
  function Load(e: EditorState, fs: FsState, name: seq<byte>): (r: EditorState)
    requires Good(e) && Inv(fs) && |name| == 8
    ensures Good(r) && r.filename == name && r.offset == e.offset
    ensures r.cursorX == 0 && r.cursorY == 0 && !r.modified
    ensures Text(r) == LoadedText(fs, name)
    ensures forall j :: r.size <= j < MAX_FILE_SIZE ==> r.content[j] == e.content[j]
  {
    var home := e.(size := 0, cursorX := 0, cursorY := 0, modified := false, filename := name);
    match Lookup(fs.dir, name)
    case None => home
    case Some(i) =>
      var ent := fs.dir[i];
      var n := if ent.fileSize as int > MAX_FILE_SIZE then MAX_FILE_SIZE else ent.fileSize as int;
      if n == 0 then home
      else
        var off := Offset(ent.firstCluster as int);
        var r := home.(content := fs.data[off..off + n] + e.content[n..], size := n);
        assert Text(r) == fs.data[off..off + n];
        r
  }

  /** save_file: the text is handed to fat16_save under the editor's name and the modified flag drops. */
  function Store(e: EditorState, fs: FsState): (r: (EditorState, FsState))
    requires Good(e) && Inv(fs)
    ensures Good(r.0) && Inv(r.1)
    ensures r.0 == e.(modified := false)
  {
    SavePreservesInv(fs, e.filename, Text(e));
    (e.(modified := false), Save(fs, e.filename, Text(e)).fs)
  }

  /** Saving under a name no slot has and loading it again gives back the text, with the cursor home. */
  lemma SaveThenLoad(e: EditorState, fs: FsState, other: EditorState)
    requires Good(e) && Good(other) && Inv(fs)
    requires Lookup(fs.dir, e.filename).None?
    requires Save(fs, e.filename, Text(e)).outcome.Created?
    ensures Text(Load(other, Store(e, fs).1, e.filename)) == Text(e)
  {
    SaveThenRead(fs, e.filename, Text(e));
  }

  /** An empty text is never stored: saving it leaves the store as it was. */
  lemma SaveEmptyKeepsStore(e: EditorState, fs: FsState)
    requires Good(e) && Inv(fs) && e.size == 0
    ensures Store(e, fs).1 == fs
  {
  }

  /** One pass of run's loop for a key other than ESC: F10 saves first, then the key is handled. */
  function KeyStep(e: EditorState, fs: FsState, sc: byte): (r: (EditorState, FsState))
    requires Good(e) && Inv(fs)
    ensures Good(r.0) && Inv(r.1)
    ensures r.0.filename == e.filename && r.0.offset == e.offset
    ensures sc != KEY_F10 ==> r.1 == fs
  {
    var saved := if sc == KEY_F10 then Store(e, fs) else (e, fs);
    (Handle(saved.0, sc), saved.1)
  }

  /** The loop of run over the make codes read_scancode returns: ESC ends the session, F10 saves and
      is then handed to handle_input (where it does nothing), every other key is handled. */
  function Session(e: EditorState, fs: FsState, keys: seq<byte>): (r: (EditorState, FsState))
    requires Good(e) && Inv(fs)
    ensures Good(r.0) && Inv(r.1)
    ensures r.0.filename == e.filename && r.0.offset == e.offset
    decreases |keys|
  {
    if |keys| == 0 || keys[0] == KEY_ESC then (e, fs)
    else
      var next := KeyStep(e, fs, keys[0]);
      Session(next.0, next.1, keys[1..])
  }

  /** Keys after the first ESC are never read. */
  lemma {:induction false} SessionStopsAtEsc(e: EditorState, fs: FsState, keys: seq<byte>, i: nat)
    requires Good(e) && Inv(fs) && i < |keys| && keys[i] == KEY_ESC
    ensures Session(e, fs, keys) == Session(e, fs, keys[..i + 1])
    decreases i
  {
    if i > 0 && keys[0] != KEY_ESC {
      var next := KeyStep(e, fs, keys[0]);
      assert keys[..i + 1][1..] == keys[1..][..i];
      SessionStopsAtEsc(next.0, next.1, keys[1..], i - 1);
    }
  }

  /** A session without F10 never touches the store. */
  lemma {:induction false} SessionWithoutSaveKeepsStore(e: EditorState, fs: FsState, keys: seq<byte>)
    requires Good(e) && Inv(fs) && KEY_F10 !in keys
    ensures Session(e, fs, keys).1 == fs
    decreases |keys|
  {
    if |keys| > 0 && keys[0] != KEY_ESC {
      assert keys[0] in keys;
      SessionWithoutSaveKeepsStore(Handle(e, keys[0]), fs, keys[1..]);
    }
  }

  /** A session on a file whose name does not start with 0x00 never shrinks the store's listing. */
  lemma {:induction false} SessionKeepsListing(e: EditorState, fs: FsState, keys: seq<byte>)
    requires Good(e) && Inv(fs) && e.filename[0] != FREE_MARK
    ensures UsedCount(fs.dir, LIST_SLOTS) <= UsedCount(Session(e, fs, keys).1.dir, LIST_SLOTS)
    decreases |keys|
  {
    if |keys| > 0 && keys[0] != KEY_ESC {
      var next := KeyStep(e, fs, keys[0]);
      if keys[0] == KEY_F10 {
        SaveKeepsListing(fs, e.filename, Text(e));
      }
      SessionKeepsListing(next.0, next.1, keys[1..]);
    }
  }

  /** edit_file: load the named file, then run the session. */
  function Edit(e: EditorState, fs: FsState, name: seq<byte>, keys: seq<byte>): (r: (EditorState, FsState))
    requires Good(e) && Inv(fs) && |name| == 8
    ensures Good(r.0) && Inv(r.1) && r.0.filename == name
  {
    Session(Load(e, fs, name), fs, keys)
  }

  /** The first keyboard read that read_scancode accepts: the status port's bit 0 set and a make code
      (below 0x80) in the data port. Reads are (status, data) pairs. */
  function FirstMake(polls: seq<(byte, byte)>): (r: Option<nat>)
    ensures r.Some? ==> r.value < |polls| && polls[r.value].0 % 2 == 1 && polls[r.value].1 < 0x80
    ensures r.Some? ==> forall j :: 0 <= j < r.value ==> !(polls[j].0 % 2 == 1 && polls[j].1 < 0x80)
    ensures r.None? ==> forall j :: 0 <= j < |polls| ==> !(polls[j].0 % 2 == 1 && polls[j].1 < 0x80)
    decreases |polls|
  {
    if |polls| == 0 then None
    else if polls[0].0 % 2 == 1 && polls[0].1 < 0x80 then Some(0)
    else match FirstMake(polls[1..])
      case None => None
      case Some(i) => Some(i + 1)
  }

  /** read_scancode: polls until a make code is available. The port reads are given as a finite
      sequence; None means the sequence ran out first. */
  method ReadScancode(polls: seq<(byte, byte)>) returns (r: Option<byte>)
    ensures r.Some? <==> FirstMake(polls).Some?
    ensures r.Some? ==> r.value == polls[FirstMake(polls).value].1 && r.value < 0x80
  {
    var i := 0;
    while i < |polls|
      invariant 0 <= i <= |polls|
      invariant forall j :: 0 <= j < i ==> !(polls[j].0 % 2 == 1 && polls[j].1 < 0x80)
    {
      var (status, scancode) := polls[i];
      if status % 2 == 1 {
        if scancode < 0x80 {
          FirstMakeIsFirst(polls, i);
          return Some(scancode);
        }
      }
      i := i + 1;
    }
    r := None;
  }

  /** FirstMake picks the first accepted read. */
  lemma FirstMakeIsFirst(polls: seq<(byte, byte)>, i: nat)
    requires i < |polls| && polls[i].0 % 2 == 1 && polls[i].1 < 0x80
    requires forall j :: 0 <= j < i ==> !(polls[j].0 % 2 == 1 && polls[j].1 < 0x80)
    ensures FirstMake(polls) == Some(i)
  {
    assert FirstMake(polls).Some?;
  }

  /** The editor object: the static EDITOR, whose buffer is a fixed array. */
  class TextEditor {
    var content: array<byte>
    var size: nat
    var cursorX: nat
    var cursorY: nat
    var offset: nat
    var filename: seq<byte>
    var modified: bool

    ghost function View(): EditorState
      reads this, content
    {
      EditorState(content[..], size, cursorX, cursorY, offset, filename, modified)
    }

    ghost predicate Valid()
      reads this, content
    {
      Good(View())
    }

    /** The static initialiser: an all-zero buffer, the name all spaces. */
    constructor ()
      ensures Valid() && fresh(content)
      ensures size == 0 && cursorX == 0 && cursorY == 0 && offset == 0 && !modified
      ensures filename == [SPACE, SPACE, SPACE, SPACE, SPACE, SPACE, SPACE, SPACE]
      ensures forall j :: 0 <= j < MAX_FILE_SIZE ==> content[j] == 0
    {
      content := new byte[MAX_FILE_SIZE](_ => 0);
      size := 0;
      cursorX := 0;
      cursorY := 0;
      offset := 0;
      filename := [SPACE, SPACE, SPACE, SPACE, SPACE, SPACE, SPACE, SPACE];
      modified := false;
    }

    method MoveCursorRight()
      requires Valid()
      modifies this
      ensures Valid() && View() == MoveRight(old(View())) && content == old(content)
    {
      cursorX := cursorX + 1;
      if cursorX >= CONTENT_WIDTH {
        cursorX := 0;
        cursorY := cursorY + 1;
      }
    }

    method MoveCursorLeft()
      requires Valid()
      modifies this
      ensures Valid() && View() == MoveLeft(old(View())) && content == old(content)
    {
      if cursorX > 0 {
        cursorX := cursorX - 1;
      } else if cursorY > 0 {
        cursorY := cursorY - 1;
        cursorX := CONTENT_WIDTH - 1;
      }
    }

    /** insert_char: the tail is shifted right from its end backwards, then the byte is written. */
    method InsertChar(ch: byte)
      requires Valid()
      modifies this, content
      ensures Valid() && View() == Insert(old(View()), ch) && content == old(content)
    {
      if size >= MAX_FILE_SIZE {
        return;
      }
      var pos := (cursorY + offset) * CONTENT_WIDTH + cursorX;
      if pos <= size {
        var i := size;
        while i > pos
          modifies content
          invariant pos <= i <= size
          invariant forall j :: 0 <= j < content.Length ==>
            content[j] == if j <= i || size < j then old(content[j]) else old(content[j - 1])
        {
          i := i - 1;
          if i + 1 < MAX_FILE_SIZE {
            content[i + 1] := content[i];
          }
        }
        content[pos] := ch;
        assert content[..] == Inserted(old(content[..]), pos, size, ch);
        size := size + 1;
        modified := true;
        MoveCursorRight();
      }
    }

    /** The shift left shared by delete_char and backspace: bytes from+1 .. size-1 move down one place. */
    method ShiftLeft(from: nat)
      requires Valid() && from < size
      modifies content
      ensures content[..] == Removed(old(content[..]), from, size)
    {
      var i := from;
      while i < size - 1
        invariant from <= i <= size - 1
        invariant forall j :: 0 <= j < content.Length ==>
          content[j] == if j < from || i <= j then old(content[j]) else old(content[j + 1])
      {
        content[i] := content[i + 1];
        i := i + 1;
      }
    }

    method DeleteChar()
      requires Valid()
      modifies this, content
      ensures Valid() && View() == EraseAt(old(View())) && content == old(content)
    {
      var deletePos := offset + cursorY * CONTENT_WIDTH + cursorX;
      if deletePos >= size {
        return;
      }
      ShiftLeft(deletePos);
      size := size - 1;
      modified := true;
    }

    method Backspace()
      requires Valid()
      modifies this, content
      ensures Valid() && View() == EraseBefore(old(View())) && content == old(content)
    {
      var pos := (cursorY + offset) * CONTENT_WIDTH + cursorX;
      if pos > 0 && size > 0 {
        if pos <= size {
          ShiftLeft(pos - 1);
        }
        size := size - 1;
        modified := true;
        MoveCursorLeft();
      }
    }

    method HandleInput(scancode: byte)
      requires Valid()
      modifies this, content
      ensures Valid() && View() == Handle(old(View()), scancode) && content == old(content)
    {
      if scancode == KEY_UP {
        if cursorY > 0 {
          cursorY := cursorY - 1;
        }
      } else if scancode == KEY_DOWN {
        cursorY := cursorY + 1;
      } else if scancode == KEY_LEFT {
        MoveCursorLeft();
      } else if scancode == KEY_RIGHT {
        MoveCursorRight();
      } else if scancode == KEY_BACKSPACE {
        Backspace();
      } else if scancode == KEY_SPACE {
        InsertChar(SPACE);
      } else if scancode == KEY_ENTER {
        InsertChar(NEWLINE);
      } else {
        var c := KeyChar(scancode);
        if c != 0 {
          InsertChar(c);
        }
      }
    }

    /** load_file over the disk: name copied, directory scanned for the first exact match, the bytes
        copied one by one. */
    method LoadFile(disk: Fat16Disk, name: seq<byte>)
      requires Valid() && disk.Valid() && |name| == 8 && content != disk.data
      modifies this, content
      ensures Valid() && View() == Load(old(View()), disk.State(), name) && content == old(content)
    {
      ghost var e := View();
      ghost var fs := disk.State();
      ghost var home := e.(size := 0, cursorX := 0, cursorY := 0, modified := false, filename := name);
      size := 0;
      cursorX := 0;
      cursorY := 0;
      modified := false;
      filename := name;
      assert View() == home;
      var slot := FindSlot(disk, filename);
      if slot.Some? {
        var ent := disk.dir[slot.value];
        var n := if ent.fileSize as int > MAX_FILE_SIZE then MAX_FILE_SIZE else ent.fileSize as int;
        if n > 0 {
          assert Sound(fs, ent);
          var off := Offset(ent.firstCluster as int);
          assert Load(e, fs, name) == home.(content := fs.data[off..off + n] + e.content[n..], size := n);
          CopyIn(disk, off, n);
          size := n;
        } else {
          assert Load(e, fs, name) == home;
        }
      } else {
        assert Load(e, fs, name) == home;
      }
    }

    /** The directory scan of load_file: the first slot whose name is exactly name. */
    method FindSlot(disk: Fat16Disk, name: seq<byte>) returns (r: Option<nat>)
      requires |disk.dir| == ROOT_ENTRIES
      ensures r == Lookup(disk.dir, name)
    {
      var i := 0;
      while i < ROOT_ENTRIES
        invariant 0 <= i <= ROOT_ENTRIES
        invariant LookupFrom(disk.dir, name, i) == Lookup(disk.dir, name)
      {
        if disk.dir[i].name == name {
          return Some(i);
        }
        i := i + 1;
      }
      r := None;
    }

    /** The copy of load_file: n bytes from the data region at src to the start of the buffer. */
    method CopyIn(disk: Fat16Disk, src: nat, n: nat)
      requires Valid() && n <= MAX_FILE_SIZE && src + n <= disk.data.Length && content != disk.data
      modifies content
      ensures content[..] == disk.data[src..src + n] + old(content[n..])
    {
      var k := 0;
      while k < n
        invariant 0 <= k <= n
        invariant forall j :: 0 <= j < content.Length ==>
          content[j] == if j < k then disk.data[src + j] else old(content[j])
      {
        content[k] := disk.data[src + k];
        k := k + 1;
      }
    }

    /** save_file. */
    method SaveFile(disk: Fat16Disk)
      requires Valid() && disk.Valid() && content != disk.data
      modifies this, disk, disk.fat, disk.data
      ensures Valid() && disk.Valid()
      ensures (View(), disk.State()) == Store(old(View()), old(disk.State()))
      ensures content == old(content) && disk.fat == old(disk.fat) && disk.data == old(disk.data)
    {
      var _ := disk.SaveFile(filename, content[..size]);
      modified := false;
    }

    /** One pass of run's loop for a key other than ESC. */
    method Step(disk: Fat16Disk, scancode: byte)
      requires Valid() && disk.Valid() && content != disk.data
      modifies this, content, disk, disk.fat, disk.data
      ensures Valid() && disk.Valid()
      ensures (View(), disk.State()) == KeyStep(old(View()), old(disk.State()), scancode)
      ensures content == old(content) && disk.fat == old(disk.fat) && disk.data == old(disk.data)
    {
      if scancode == KEY_F10 {
        SaveFile(disk);
      }
      HandleInput(scancode);
    }

    /** run over a finite sequence of make codes: stops at ESC, saves on F10, handles every key. */
    method Run(disk: Fat16Disk, keys: seq<byte>)
      requires Valid() && disk.Valid() && content != disk.data
      modifies this, content, disk, disk.fat, disk.data
      ensures Valid() && disk.Valid()
      ensures (View(), disk.State()) == Session(old(View()), old(disk.State()), keys)
      ensures content == old(content) && disk.fat == old(disk.fat) && disk.data == old(disk.data)
    {
      ghost var start := (View(), disk.State());
      var i := 0;
      while i < |keys| && keys[i] != KEY_ESC
        invariant 0 <= i <= |keys|
        invariant Valid() && disk.Valid()
        invariant content == old(content) && disk.fat == old(disk.fat) && disk.data == old(disk.data)
        invariant content != disk.data
        invariant Session(start.0, start.1, keys) == Session(View(), disk.State(), keys[i..])
      {
        Step(disk, keys[i]);
        assert keys[i..][1..] == keys[i + 1..];
        i := i + 1;
      }
    }

    /** edit_file: load_file, then run. */
    method EditFile(disk: Fat16Disk, name: seq<byte>, keys: seq<byte>)
      requires Valid() && disk.Valid() && |name| == 8 && content != disk.data
      modifies this, content, disk, disk.fat, disk.data
      ensures Valid() && disk.Valid()
      ensures (View(), disk.State()) == Edit(old(View()), old(disk.State()), name, keys)
      ensures content == old(content) && disk.fat == old(disk.fat) && disk.data == old(disk.data)
    {
      LoadFile(disk, name);
      Run(disk, keys);
    }
  }
}
