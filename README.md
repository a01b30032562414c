# Rusted kernel core in Dafny

This project models the core of a small x86-64 bare-metal kernel written in Rust. It covers six parts.

- **FAT16 RAM disk** (`kernel/src/fs/fat16.rs`). A 32-byte directory entry and its byte layout. The boot sector and the region layout. First-fit slot and cluster allocation for `fat16_create_file` and `fat16_save`. Lookup by exact 8-byte name (`fat16_read`). The mini-commander file count (`refresh_mc_list`).
- **Text editor** (`kernel/src/editor.rs`). The `TextEditor` with its 8192-byte content buffer, cursor, size and `modified` flag. Covered operations:
  - insert, delete and backspace, which shift bytes in place;
  - cursor movement, which wraps at 75 columns;
  - QWERTY key mapping;
  - loading from and saving to the RAM disk;
  - the `run` loop and `read_scancode`.
- **Keyboard dispatcher** (`kernel/src/macros.rs`, `poll_keyboard_unified!` and `main_menu`). The state bytes at 0x500–0x512 and the 60-byte capture buffer at 0x600. Edge detection through the last-scancode latch and the ALT latch. Input mode, the main, math and unicode menus, the mini-commander, and F5 reboot.
- **Shims** (`kernel/src/shims.rs`): `memcmp`, `memcpy` and `memset`.
- **Kernel entry** (`kernel/src/kernel_main.rs`). `rdtsc`, `seed_rng`, the 64-bit LCG `next_rand`, the state written before the main loop, and the status-bit gate of the polling loop.
- **VGA helpers** (`kernel/src/vga.rs`). `Color`, `ColorCode::new`/`as_u8`, `draw_block`, and the Polish glyph upload of `load_polish_fonts`.

Each imperative part is a class whose fields the methods update in place:
- `Fat16.Fat16Disk` (directory, FAT array, data array);
- `Editor.TextEditor` (content array plus scalar fields);
- `KernelMain.Rng` (the seed);
- `Keyboard.Controller` (the state bytes, the capture array, and references to the RNG, the editor and the disk).

Each class has a ghost view (`State`, `View`, `Snapshot`). Every method is proved equal to a pure function of the old view:
- `Fat16.Create` and `Fat16.Save`;
- `Editor.Insert`, `Editor.Handle`, `Editor.Load` and `Editor.Session`;
- `Keyboard.Next`.

The properties the kernel relies on are lemmas about those functions.

Where the kernel's design notes and the code disagree, the model follows the code:
- **Create, then save under the same name, then read** finds the earlier zero-size entry. `fat16_save` always takes a new slot, and lookup returns the first match (`Fat16.CreateSaveThenReadFindsCreated`).
- **The mini-commander count includes deleted (0xE5) slots.** `refresh_mc_list` tests only `name[0] != 0`.
- **Backspace with the cursor past the end of the text drops the last byte.** The shift loop is then empty, but `size` still decreases (`Editor.EraseBefore`).

## Model

| member | source | states |
|---|---|---|
| Words.Bytes16Le16 | kernel/src/fs/fat16.rs:20-35 | re-encoding a decoded little-endian 16-bit field gives back its two bytes |
| Words.Bytes32Le32 | kernel/src/fs/fat16.rs:20-35 | re-encoding a decoded little-endian 32-bit field gives back its four bytes |
| Words.Le16Determines | kernel/src/fs/fat16.rs:20-35 | two byte strings with the same 16-bit field value agree on both bytes of the field |
| Words.Le32Determines | kernel/src/fs/fat16.rs:20-35 | two byte strings with the same 32-bit field value agree on all four bytes of the field |
| Shims.CompareZeroIffEqual | kernel/src/shims.rs:2-11 | the memcmp result is zero exactly when the two byte sequences are equal (both directions) |
| Shims.CompareFirstMismatch | kernel/src/shims.rs:3-7 | at the first differing index the result is the difference of the two bytes as signed integers |
| Shims.CompareNegativeIffLexLess | kernel/src/shims.rs:3-7 | the result is negative exactly when the first sequence is lexicographically smaller as unsigned bytes |
| Shims.FirstMismatch | kernel/src/shims.rs:3-7 | two different sequences of equal length have a first index at which they differ |
| Shims.Memcmp | kernel/src/shims.rs:2-11 | returns 0 iff the first n bytes agree; otherwise returns the byte difference at the first mismatch; n = 0 gives 0 |
| Shims.Memcpy | kernel/src/shims.rs:14-17 | d[i] = s[i] for i < n, bytes of d from n on are unchanged, and d itself is returned |
| Shims.LowByteIsLowestByte | kernel/src/shims.rs:21 | `c as u8` is the least significant of the four little-endian bytes of c's 32-bit two's-complement pattern |
| Shims.Memset | kernel/src/shims.rs:20-23 | s[i] = c mod 256 for i < n, the rest of s is unchanged, and s is returned |
| KernelMain.Rdtsc | kernel/src/kernel_main.rs:10-17 | for 32-bit halves, the high word of the counter is rdx and the low word is rax |
| KernelMain.Lcg | kernel/src/kernel_main.rs:30 | the wrapping multiply-add equals (s * 6364136223846793005 + 1442695040888963407) mod 2^64 |
| KernelMain.UnstepLcg | kernel/src/kernel_main.rs:27-33 | the LCG step can be undone: stepping back after a step gives the old seed |
| KernelMain.LcgUnstep | kernel/src/kernel_main.rs:27-33 | every 64-bit value is the step of some seed, so the step is a bijection on u64 |
| KernelMain.LcgIterLast | kernel/src/kernel_main.rs:27-33 | the (k+1)-th seed is one LCG step after the k-th |
| KernelMain.Rng.constructor | kernel/src/kernel_main.rs:7 | the seed starts at 12345 |
| KernelMain.Rng.SeedRng | kernel/src/kernel_main.rs:20-24 | the seed becomes the time-stamp counter value |
| KernelMain.Rng.NextRand | kernel/src/kernel_main.rs:27-33 | the seed advances by one LCG step, and the new seed is returned |
| KernelMain.LcgIterAdd | kernel/src/kernel_main.rs:27-33 | j calls of next_rand followed by k more leave the seed where j + k calls leave it, so every later output is determined by the current seed |
| Vga.Color.Value | kernel/src/vga.rs:7-24 | every colour discriminant is below 16 |
| Vga.ColorOf | kernel/src/vga.rs:7-24 | every value below 16 is the discriminant of a colour |
| Vga.ValueInjective | kernel/src/vga.rs:7-24 | different colours have different discriminants |
| Vga.NewColorCode | kernel/src/vga.rs:33-35 | the low nibble is the foreground and the high nibble is the background |
| Vga.AsU8Unpacks | kernel/src/vga.rs:33-40 | both colours can be recovered from the packed byte that as_u8 returns |
| Vga.DrawBlock | kernel/src/vga.rs:43-48 | the cell holds 0xDB; the attribute keeps color in the low nibble and ORs the wrapped shift into the high nibble; for color < 16 both nibbles equal color |
| Vga.GlyphOffset | kernel/src/vga.rs:85 | row i of glyph k lands in font slot k + 1 at row i, a glyph byte |
| Vga.WrittenRow | kernel/src/vga.rs:83-87 | one inner iteration adds exactly the offset of that glyph row to the set of bytes written |
| Vga.WrittenGlyph | kernel/src/vga.rs:82-88 | finishing a glyph's 16 rows is the same as starting the next glyph |
| Vga.WrittenAll | kernel/src/vga.rs:82-88 | after all nine glyphs, the bytes written are exactly rows 0..15 of slots 1..9 |
| Vga.LoadPolishFonts | kernel/src/vga.rs:74-88 | byte (k+1)*32+i holds row i of glyph k for k < 9 and i < 16; slot 0 and bytes 16..31 of each slot are untouched |
| Fat16Layout.Encode | kernel/src/fs/fat16.rs:20-35 | the packed record is 32 bytes: name at 0, ext at 8, attr at 11, the 16-bit fields at 14..26 and first_cluster at 26, all little-endian, with file_size at 28 |
| Fat16Layout.Decode | kernel/src/fs/fat16.rs:20-35 | every 32-byte record decodes to a well-shaped entry |
| Fat16Layout.DecodeEncode | kernel/src/fs/fat16.rs:20-35 | decoding an encoded entry gives back the entry |
| Fat16Layout.EncodeDecode | kernel/src/fs/fat16.rs:20-35 | encoding a decoded record gives back its 32 bytes |
| Fat16Layout.BlankIsZeroed | kernel/src/fs/fat16.rs:46-48 | a zeroed directory record is a free slot |
| Fat16Layout.BootSector | kernel/src/fs/fat16.rs:51-56 | the boot sector holds 512 bytes/sector, 1 sector/cluster, 1 reserved sector, 2 FATs, 512 root entries and 32 sectors/FAT; every other byte is zero |
| Fat16Layout.LayoutFollowsBootSector | kernel/src/fs/fat16.rs:15-18 | the FAT, second FAT, root directory and data region start where the boot sector's counts place them; 512 entries fill the root directory exactly; the cleared range covers them |
| Fat16.FirstFreeSlotFrom | kernel/src/fs/fat16.rs:272-278 | the result is the lowest slot from i whose name starts with 0x00 or 0xE5, or none when no slot is free |
| Fat16.FirstFreeClusterFrom | kernel/src/fs/fat16.rs:284-289 | the result is the lowest cluster from c below 4096 whose FAT value is 0, or none when no cluster is free |
| Fat16.WriteAt | kernel/src/fs/fat16.rs:185-188 | byte j of the result is the (j - off)-th byte written when j is in range, and otherwise the old byte |
| Fat16.LookupFrom | kernel/src/fs/fat16.rs:206-209 | the result is the first slot from i whose name equals the 8 bytes exactly, or none when no slot matches |
| Fat16.UsedCount | kernel/src/fs/fat16.rs:243-255 | the count over the first n slots is at most n |
| Fat16.CreatePreservesInv | kernel/src/fs/fat16.rs:267-302 | create keeps the disk invariant: occupied slots form a prefix, each owns a distinct end-of-chain cluster, and sizes fit |
| Fat16.SavePreservesInv | kernel/src/fs/fat16.rs:156-199 | save keeps the disk invariant |
| Fat16.FillPreservesInv | kernel/src/fs/fat16.rs:190-197 | filling the first free slot with the first free cluster and closing that cluster keeps the invariant |
| Fat16.OccupiedSlotsOwnClosedClusters | kernel/src/fs/fat16.rs:272-301 | two occupied slots own different clusters, each FAT value is 0xFFFF, and every slot before an occupied one is occupied |
| Fat16.CreateFrame | kernel/src/fs/fat16.rs:267-302 | create uses the first free slot and cluster and writes name, "TXT", 0x20, the cluster, size 0 and FAT 0xFFFF; no other slot, FAT entry or data byte changes; on failure nothing changes |
| Fat16.CreateOnFullDirectory | kernel/src/fs/fat16.rs:279 | with no free slot, create changes nothing and reports that the slots are exhausted |
| Fat16.CreateThenRead | kernel/src/fs/fat16.rs:296-301 | a newly created name reads back as an empty file |
| Fat16.SaveThenRead | kernel/src/fs/fat16.rs:184-197 | a saved new name reads back exactly the bytes saved |
| Fat16.CreateSaveThenReadFindsCreated | kernel/src/fs/fat16.rs:164-170 | after create and then save under one name, the lookup finds the earlier empty entry, so reading gives the empty file |
| Fat16.LookupFindsFirst | kernel/src/fs/fat16.rs:206-209 | the first slot carrying the name is the one lookup returns |
| Fat16.LookupFromFindsFirst | kernel/src/fs/fat16.rs:206-209 | the same, for a scan that starts at slot i |
| Fat16.LookupAfterFill | kernel/src/fs/fat16.rs:192-193 | writing a name that was absent into slot k makes lookup return k |
| Fat16.SaveOverrunsNextCluster | kernel/src/fs/fat16.rs:185-188 | a save longer than 512 bytes, with no length check, overwrites the next file's cluster; that file then reads back bytes of the saved data |
| Fat16.ListedSlotsAreUsed | kernel/src/fs/fat16.rs:245 | every index below the listed count names a non-empty slot |
| Fat16.UsedCountStopsAtZero | kernel/src/fs/fat16.rs:243-255 | empty slots add nothing to the count |
| Fat16.UsedCountMonotone | kernel/src/fs/fat16.rs:243-255 | filling more slots never lowers the count |
| Fat16.CreateKeepsListing | kernel/src/fs/fat16.rs:296-297 | creating a file never lowers the mini-commander count |
| Fat16.SaveKeepsListing | kernel/src/fs/fat16.rs:192-193 | saving a file never lowers the mini-commander count |
| Fat16.ScanIgnoresBelow | kernel/src/fs/fat16.rs:284-289 | the cluster scan from c gives the same answer on two tables that agree from c on |
| Fat16.ReservedEntriesUnread | kernel/src/fs/fat16.rs:156-199 | create and save never read FAT entries 0 and 1: whatever those hold, they pick the same slot and cluster and write the same directory, data and other FAT entries |
| Fat16.FormattedIsEmpty | kernel/src/fs/fat16.rs:46-62 | a freshly formatted disk satisfies the invariant, holds no named file and lists nothing |
| Fat16.Fat16Disk.Format | kernel/src/fs/fat16.rs:39-65 | after init: FAT[0] = 0xFFF8, FAT[1] = 0xFFFF, every other scanned FAT entry and every slot is zero, and the boot sector carries the layout |
| Fat16.Fat16Disk.FindFreeSlot | kernel/src/fs/fat16.rs:270-279 | the slot scan returns the first free slot, or none |
| Fat16.Fat16Disk.FindFreeCluster | kernel/src/fs/fat16.rs:282-290 | the cluster scan returns the first free cluster, or 0 when none is free |
| Fat16.Fat16Disk.CreateFile | kernel/src/fs/fat16.rs:267-302 | the disk afterwards is the pure create of the old disk, with the invariant kept |
| Fat16.Fat16Disk.SaveFile | kernel/src/fs/fat16.rs:156-199 | the disk afterwards is the pure save of the old disk, with the invariant kept |
| Fat16.Fat16Disk.WriteData | kernel/src/fs/fat16.rs:184-188 | the copy loop writes the bytes at the offset and leaves every other data byte alone |
| Fat16.Fat16Disk.SaveInputAsFile | kernel/src/fs/fat16.rs:70-128 | saves the first len captured bytes like fat16_save; length 0 changes nothing |
| Fat16.Fat16Disk.Read | kernel/src/fs/fat16.rs:202-222 | returns the contents of the first slot whose name matches, or none |
| Fat16.Fat16Disk.CountListed | kernel/src/fs/fat16.rs:241-257 | the count is the number of the first 15 slots whose name does not start with 0, so it is at most 15 |
| Editor.MoveRight | kernel/src/editor.rs:167-173 | the column stays below 75, the linear position grows by one, and only the cursor changes |
| Editor.MoveLeft | kernel/src/editor.rs:175-182 | the linear position drops by one, except at (0,0) where nothing changes; only the cursor changes |
| Editor.LeftUndoesRight | kernel/src/editor.rs:167-182 | moving left after moving right restores the state |
| Editor.RightUndoesLeft | kernel/src/editor.rs:167-182 | moving right after moving left from a non-origin cursor restores the state |
| Editor.Inserted | kernel/src/editor.rs:126-132 | the buffer after the right shift: bytes before pos kept, ch at pos, bytes pos..size-1 moved up one, the rest kept |
| Editor.Removed | kernel/src/editor.rs:146-149 | the buffer after the left shift: bytes before p and from size-1 on kept, the rest moved down one |
| Editor.Insert | kernel/src/editor.rs:121-137 | when size < 8192 and pos <= size, the text becomes old[..pos] + [c] + old[pos..], the position moves right one and modified is set; otherwise nothing changes |
| Editor.EraseBefore | kernel/src/editor.rs:155-165 | with pos > 0 and size > 0, the byte before the cursor is removed (the last byte when pos > size), size drops, the cursor moves left and modified is set; otherwise nothing changes |
| Editor.EraseAt | kernel/src/editor.rs:139-153 | with delete_pos < size, the byte at the cursor is removed, size drops by one, modified is set, the cursor stays and the bytes past the text are kept; otherwise nothing changes |
| Editor.BackspaceUndoesInsert | kernel/src/editor.rs:121-165 | insert followed by backspace restores text, size and cursor |
| Editor.InsertUndoesBackspace | kernel/src/editor.rs:121-165 | backspace followed by reinserting the erased byte restores the text and cursor |
| Editor.KeyChar | kernel/src/editor.rs:225-232 | a key types a lower-case letter, ',' or '.', or nothing |
| Editor.KeyCharInjective | kernel/src/editor.rs:225-232 | different keys type different characters |
| Editor.RowIndex | kernel/src/editor.rs:226-230 | the typed character is the one at that index of "qwertyuiop" + "asdfghjkl" + "zxcvbnm" + ",." |
| Editor.Handle | kernel/src/editor.rs:214-236 | arrows move only the cursor; unmapped keys change nothing; the size changes by at most one; filename is kept |
| Editor.TypingAtEndAppends | kernel/src/editor.rs:223-234 | typing a mapped key at the end of the text appends its character |
| Editor.Load | kernel/src/editor.rs:58-89 | sets filename, cursor (0,0) and clears modified; the text is the first matching file clipped to 8192 bytes, or empty; offset and bytes past the text are kept |
| Editor.Store | kernel/src/editor.rs:238-242 | saving keeps the disk invariant and changes only modified in the editor |
| Editor.SaveThenLoad | kernel/src/editor.rs:238-242 | text saved under a new name loads back into any editor unchanged |
| Editor.SaveEmptyKeepsStore | kernel/src/editor.rs:239-240 | saving an empty buffer leaves the disk unchanged |
| Editor.KeyStep | kernel/src/editor.rs:192-196 | one loop turn keeps both invariants and the file name, and only F10 touches the disk |
| Editor.Session | kernel/src/editor.rs:184-198 | a run over a key sequence keeps both invariants and the file name |
| Editor.SessionStopsAtEsc | kernel/src/editor.rs:193 | keys after the first ESC have no effect |
| Editor.SessionWithoutSaveKeepsStore | kernel/src/editor.rs:194 | a session without F10 leaves the disk unchanged |
| Editor.SessionKeepsListing | kernel/src/editor.rs:184-198 | a session never lowers the mini-commander count |
| Editor.Edit | kernel/src/editor.rs:38-42 | opening a file and running a session keeps both invariants and names the buffer after the file |
| Editor.FirstMake | kernel/src/editor.rs:203-209 | finds the first poll with the status bit set and a make code, or none |
| Editor.ReadScancode | kernel/src/editor.rs:200-212 | returns the first make code read while the status bit is set, and it is below 0x80 |
| Editor.FirstMakeIsFirst | kernel/src/editor.rs:203-209 | the first qualifying poll is the one chosen |
| Editor.TextEditor.constructor | kernel/src/editor.rs:26-35 | the static editor starts empty at (0,0), unmodified, zero-filled, with a blank name |
| Editor.TextEditor.MoveCursorRight | kernel/src/editor.rs:167-173 | the new state is the right move of the old one |
| Editor.TextEditor.MoveCursorLeft | kernel/src/editor.rs:175-182 | the new state is the left move of the old one |
| Editor.TextEditor.InsertChar | kernel/src/editor.rs:121-137 | the in-place shift produces the pure insert of the old state |
| Editor.TextEditor.ShiftLeft | kernel/src/editor.rs:146-149 | the in-place left shift produces the removed buffer |
| Editor.TextEditor.DeleteChar | kernel/src/editor.rs:139-153 | the new state is the pure delete of the old state |
| Editor.TextEditor.Backspace | kernel/src/editor.rs:155-165 | the new state is the pure backspace of the old state |
| Editor.TextEditor.HandleInput | kernel/src/editor.rs:214-236 | the new state is the pure key handling of the old state |
| Editor.TextEditor.LoadFile | kernel/src/editor.rs:58-89 | the new state is the pure load from the disk |
| Editor.TextEditor.FindSlot | kernel/src/editor.rs:70-87 | the scan returns the first slot with the exact name |
| Editor.TextEditor.CopyIn | kernel/src/editor.rs:81-83 | the first n content bytes become the file's bytes; the rest are kept |
| Editor.TextEditor.SaveFile | kernel/src/editor.rs:238-242 | editor and disk become the pure store of the old pair |
| Editor.TextEditor.Step | kernel/src/editor.rs:192-196 | editor and disk follow one pure loop turn |
| Editor.TextEditor.Run | kernel/src/editor.rs:184-198 | editor and disk follow the pure session over the keys |
| Editor.TextEditor.EditFile | kernel/src/editor.rs:38-42 | editor and disk follow the pure load-and-run |
| Keyboard.CharFor | kernel/src/macros.rs:331-358 | a key yields 0 or a typable byte; with ALT a non-zero result is a Polish glyph code 1..9 loaded into the font |
| Keyboard.AltKeysAreLetters | kernel/src/macros.rs:332-357 | a key with an ALT mapping is a letter key (its plain character is A..Z) |
| Keyboard.Upper | kernel/src/macros.rs:271 | 'a'..'z' become upper case; every other byte is kept |
| Keyboard.FileName | kernel/src/macros.rs:264-274 | the name is the first min(len,8) captured bytes upper-cased, padded with spaces |
| Keyboard.TypedNameIsNotFree | kernel/src/macros.rs:264-274 | a name typed from the key tables never starts with 0x00 or 0xE5, so it occupies its slot |
| Keyboard.Refresh | kernel/src/fs/fat16.rs:241-257 | the stored count is the listing count, at most 15 |
| Keyboard.InputKey | kernel/src/macros.rs:253-372 | input-mode keys keep the machine invariant (len <= 60, selection within the list) and never touch the latches, the seed or the editor |
| Keyboard.MainMenuKey | kernel/src/macros.rs:375-406 | main-menu keys keep the machine invariant |
| Keyboard.MathMenuKey | kernel/src/macros.rs:407-453 | only key 9 advances the seed, by one LCG step, and reports the new seed mod 100 |
| Keyboard.CommanderKey | kernel/src/macros.rs:466-521 | an edited file is always a listed, non-empty slot, and only when the count is non-zero |
| Keyboard.MenuKey | kernel/src/macros.rs:374-522 | menu keys keep the invariant and the latches |
| Keyboard.Next | kernel/src/macros.rs:210-533 | every scancode keeps the machine invariant |
| Keyboard.HeldKeyActsOnce | kernel/src/macros.rs:228-229 | a repeated make code does nothing the second time |
| Keyboard.BreakCodesOnlyLatch | kernel/src/macros.rs:244-252 | a break code only resets the latch to 0, and 0xB8 clears ALT |
| Keyboard.EscClosesInputOnly | kernel/src/macros.rs:303-306 | ESC in input mode clears only the input flag; length and context stay |
| Keyboard.BackspaceUndoesTyping | kernel/src/macros.rs:307-315 | typing a character and then backspace restores the length and the typed prefix, and nothing else changes |
| Keyboard.FullInputDropsCharacters | kernel/src/macros.rs:362-370 | with 60 bytes captured, a character key changes only the latches |
| Keyboard.EnterCreatesNamedFile | kernel/src/macros.rs:255-285 | Enter with len 0 does nothing; in create context it creates the upper-cased name, then resets input flag, length and context |
| Keyboard.CommanderEnterOpensListedFile | kernel/src/macros.rs:499-515 | Enter with count 0 never opens the editor; otherwise it edits the selected slot, which is listed and non-empty |
| Keyboard.SelectionStaysInList | kernel/src/macros.rs:467-486 | Up decrements only above 0; Down increments only while sel+1 < count; the selection stays in range |
| Keyboard.MenuTransitions | kernel/src/macros.rs:383-398 | M enters math, I enters input, Home enters the commander at selection 0, F7 opens create input, and ESC and key 0 return to the main menu |
| Keyboard.SeedAdvancesOnlyForRandom | kernel/src/macros.rs:440-442 | the seed changes only for a random-number event from the math menu, by one step, with a result below 100 |
| Keyboard.F5Reboots | kernel/src/macros.rs:525-527 | F5 resets the machine exactly when it is not the latched key |
| Keyboard.BootIsOk | kernel/src/kernel_main.rs:36-46 | the boot state satisfies the machine invariant |
| Keyboard.Controller.Start | kernel/src/kernel_main.rs:36-46 | boot seeds from the counter and puts state 0 and latch 0; the editor starts empty and the disk is assumed to be in the state fat16_init! leaves (see Left out) |
| Keyboard.Controller.BuildFileName | kernel/src/macros.rs:264-274 | the name-building loop gives the padded, upper-cased name |
| Keyboard.Controller.CreateNamed | kernel/src/macros.rs:262-284 | the machine follows the pure Enter step in create context |
| Keyboard.Controller.InputEnter | kernel/src/macros.rs:255-302 | the machine follows the pure Enter step in input mode |
| Keyboard.Controller.InputHome | kernel/src/macros.rs:316-324 | the machine follows the pure Home step in input mode |
| Keyboard.Controller.TypeKey | kernel/src/macros.rs:331-371 | the machine follows the pure character step in input mode |
| Keyboard.Controller.OnInputKey | kernel/src/macros.rs:253-372 | the machine follows the pure input-mode step |
| Keyboard.Controller.EnterMainMenu | kernel/src/macros.rs:536-540 | only the menu state changes, and it becomes 0 |
| Keyboard.Controller.MainMenuHome | kernel/src/macros.rs:392-398 | the machine follows the pure Home step of the main menu |
| Keyboard.Controller.OnMainMenuKey | kernel/src/macros.rs:375-406 | the machine follows the pure main-menu step |
| Keyboard.Controller.OnMathKey | kernel/src/macros.rs:407-453 | the machine follows the pure math-menu step |
| Keyboard.Controller.MoveUp | kernel/src/macros.rs:467-473 | the machine follows the pure Up step of the commander |
| Keyboard.Controller.MoveDown | kernel/src/macros.rs:474-486 | the machine follows the pure Down step of the commander |
| Keyboard.Controller.OpenSelected | kernel/src/macros.rs:505-514 | the machine follows the pure Enter step of the commander |
| Keyboard.Controller.OnCommanderKey | kernel/src/macros.rs:466-521 | the machine follows the pure commander step |
| Keyboard.Controller.OnMenuKey | kernel/src/macros.rs:374-522 | the machine follows the pure menu step |
| Keyboard.Controller.Press | kernel/src/macros.rs:228-528 | the machine follows the pure step for a new make code |
| Keyboard.Controller.Step | kernel/src/macros.rs:210-533 | one poll follows the pure step and keeps the invariant |
| Keyboard.Controller.Tick | kernel/src/kernel_main.rs:48-59 | with status bit 0 set the machine takes one step; otherwise nothing changes |

## Left out

- Screen output is not modelled. This covers `vga_print!`, `vga_write!`, `vga_draw_rect!`, `vga_clear!` and `vga_clear_animated!`, the debug scancode display, `main_menu`'s text, `fat16_mc`, `ramfs_list_files`, `draw_editor` and `set_cursor`. It produces no state the core reads back.
- `unicode_menu`, `draw_unicode_char!` and the `set_encoding!` text: display only. Entering the unicode menu is modelled as a state change.
- `sleep_time!` and the delay loops: they only spend time.
- Port I/O and the time-stamp counter are inputs. The keyboard ports 0x60/0x64 become the scancode and status parameters. `rdtsc` takes rax/rdx as parameters. The F5 reset and the VGA port writes become effects or are omitted.
- The math menu's fixed results and the unicode menu's 720p message are recorded only as effect values. They are display text.
- `kernel/src/main.rs`, `kernel/src/lib.rs` and `recycle_bin/kernel/main_asm.rs` contain no logic the core depends on.
- The duplicate HOME branch at `kernel/src/macros.rs:325-330` is not modelled: it can never run, because the branch before it tests the same key.
- `TextEditor::new` (`kernel/src/editor.rs:45-56`) is never called; the static initialiser is modelled instead. The `filename_len` field is never read and is omitted.
- The state bytes 0x502, 0x503 and 0x509 are written at boot but read by no modelled code. The other state bytes are taken to be zero at boot.
- Keyboard.Controller.Start and Keyboard.BootIsOk: the model assumes the RAM-disk region starts as `fat16_init!` (`kernel/src/fs/fat16.rs:39-65`) would leave it. Nothing in the kernel's sources calls `fat16_init!`, and `kernel_main` does not format the disk. No scan reads FAT entries 0 and 1 (`Fat16.ReservedEntriesUnread`), and nothing reads the boot sector. So a zero-filled region, which is what unwritten memory is taken to hold, behaves the same. Every lemma built on the machine invariant rests on this assumption.
- Fat16.ReadFile, Fat16.Fat16Disk.Read and Editor.Load: a name of eight zero bytes matches a blank slot, and the model then reads an empty file. The source would compute `cluster - 2` with cluster 0 (`kernel/src/fs/fat16.rs:210`, `kernel/src/editor.rs:76`), which overflows: a panic in a debug build, a wrap in a release build. Typed and listed names never start with 0x00 (`Keyboard.TypedNameIsNotFree`, `Fat16.ListedSlotsAreUsed`), so the modelled key handling never reaches this case.
- Fat16.Fat16Disk.SaveFile: requires at most 8192 bytes of data, the editor buffer size and the largest caller. The data region is sized for a save starting at the last cluster.
- Fat16.Fat16Disk.Format: the FAT is modelled over the 4096 entries the scans read. The second FAT copy and FAT entries 4096..8191 are only cleared by init and never read, so they are not modelled.
- Fat16.Fat16Disk.SaveInputAsFile: `fat16_save_input_as_file` is not called from the modelled key handling, so it is modelled only as a disk method.
- Integer widths: `usize` and `u32` arithmetic in the offset computations is modelled unbounded. Every offset stays far below 2^32. The `u8` counters are modelled as bytes and never overflow, because len <= 60 and count <= 15.
- Editor.Load: requires the disk invariant, which every modelled disk state satisfies. Files larger than 8192 bytes therefore cannot arise.
- Editor.TextEditor.Run: the `run` loop blocks on hardware. It is modelled over a finite key sequence, and `read_scancode` over a finite sequence of polls.
- Keyboard.Controller.OpenSelected: `edit_file` runs a blocking editor session. Its keys are supplied as a finite sequence parameter.
- Keyboard.F5Reboots: the reset itself (`out 0x64, 0xFE`) is reported as a Reboot effect; the state after the reset is not modelled.
