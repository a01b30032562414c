/** Text-mode VGA helpers: the 16-colour palette, attribute-byte packing, the solid block cell and the
    placement of the nine Polish glyphs in font memory. */
module Vga {
  import opened Words

  /** The sixteen text-mode colours. */
  datatype Color =
    | Black | Blue | Green | Cyan | Red | Magenta | Brown | White
    | Gray | LightBlue | LightGreen | LightCyan | LightRed | Pink | Yellow | LightWhite
  {
    /** The enum's u8 discriminant: always a nibble. */
    function Value(): (v: bv8)
      ensures v < 16
    {
      match this
      case Black => 0 case Blue => 1 case Green => 2 case Cyan => 3
      case Red => 4 case Magenta => 5 case Brown => 6 case White => 7
      case Gray => 8 case LightBlue => 9 case LightGreen => 10 case LightCyan => 11
      case LightRed => 12 case Pink => 13 case Yellow => 14 case LightWhite => 15
    }
  }

  /** The colour with a given discriminant: the reference the discriminant table is checked against. */
  function ColorOf(v: bv8): (c: Color)
    requires v < 16
    ensures c.Value() == v
  {
    [Black, Blue, Green, Cyan, Red, Magenta, Brown, White,
     Gray, LightBlue, LightGreen, LightCyan, LightRed, Pink, Yellow, LightWhite][v as int]
  }

  /** Distinct colours have distinct discriminants. */
  lemma ValueInjective(c: Color, d: Color)
    ensures c.Value() == d.Value() ==> c == d
  {
  }

  /** A packed attribute byte: background in the high nibble, foreground in the low one. */
  datatype ColorCode = ColorCode(bits: bv8)

  /** ColorCode::new. The packed byte keeps both colours, each in its own nibble. */
  function NewColorCode(foreground: Color, background: Color): (r: ColorCode)
    ensures r.bits & 0x0F == foreground.Value()
    ensures r.bits >> 4 == background.Value()
  {
    ColorCode((background.Value() << 4) | foreground.Value())
  }

  /** ColorCode::as_u8: the attribute byte itself. */
  function AsU8(c: ColorCode): bv8
  {
    c.bits
  }

  /** Packing is lossless: the colours are recovered from as_u8's byte. */
  lemma AsU8Unpacks(foreground: Color, background: Color)
    ensures ColorOf(AsU8(NewColorCode(foreground, background)) & 0x0F) == foreground
    ensures ColorOf(AsU8(NewColorCode(foreground, background)) >> 4) == background
  {
    var b := AsU8(NewColorCode(foreground, background));
    ValueInjective(ColorOf(b & 0x0F), foreground);
    ValueInjective(ColorOf(b >> 4), background);
  }

  /** A screen cell: code-page-437 character and attribute. */
  datatype Cell = Cell(ch: bv8, attr: bv8)

  /** Code page 437's full block. */
  const FULL_BLOCK: bv8 := 0xDB

  /** The cell draw_block writes: a full block whose attribute is the colour shifted into the
      background nibble (high bits dropped, as u8 shifts do) OR-ed with the colour. For a palette colour
      both nibbles are that colour, so the block is one solid colour. */
  function DrawBlock(color: bv8): (c: Cell)
    ensures c.ch == FULL_BLOCK
    ensures c.attr & 0x0F == color & 0x0F
    ensures c.attr >> 4 == (color & 0x0F) | (color >> 4)
    ensures color < 16 ==> c.attr & 0x0F == color && c.attr >> 4 == color
  {
    Cell(FULL_BLOCK, (color << 4) | color)
  }

  /** The nine Polish glyphs, 8x16 bitmaps in the order a-ogonek, c-acute, e-ogonek, l-stroke, n-acute,
      o-acute, s-acute, z-acute, z-dot. */
  const GLYPHS: seq<seq<byte>> := [
    [0,0,0,124,1,127,129,129,127,1,6,4,0,0,0,0],
    [0,8,4,124,128,128,128,128,124,0,0,0,0,0,0,0],
    [0,0,0,124,130,254,128,126,130,124,4,8,0,0,0,0],
    [0,128,128,136,144,160,128,128,128,0,0,0,0,0,0,0],
    [0,8,4,130,194,162,146,138,134,130,0,0,0,0,0,0],
    [0,8,4,124,130,130,130,130,124,0,0,0,0,0,0,0],
    [0,8,4,124,128,124,2,124,0,0,0,0,0,0,0,0],
    [0,8,4,254,4,8,16,32,254,0,0,0,0,0,0,0],
    [0,16,0,254,4,8,16,32,254,0,0,0,0,0,0,0]
  ]

  /** Each character occupies 32 bytes of font memory, of which an 8x16 glyph uses the first 16. */
  const FONT_SLOT: nat := 32
  const GLYPH_HEIGHT: nat := 16

  /** The font bytes load_polish_fonts writes: the first half of character slots 1 to 9. */
  predicate IsGlyphByte(j: nat)
  {
    FONT_SLOT <= j < (|GLYPHS| + 1) * FONT_SLOT && j % FONT_SLOT < GLYPH_HEIGHT
  }

  /** Where row i of glyph k lands: in character slot k + 1, at row i. */
  function GlyphOffset(k: nat, i: nat): (j: nat)
    requires k < |GLYPHS| && i < GLYPH_HEIGHT
    ensures IsGlyphByte(j) && j / FONT_SLOT == k + 1 && j % FONT_SLOT == i
  {
    (k + 1) * FONT_SLOT + i
  }

  /** The glyph bytes in place once glyphs 0 .. k-1 and the first i rows of glyph k are written. */
  ghost predicate Written(j: nat, k: nat, i: nat)
  {
    IsGlyphByte(j) && (j / FONT_SLOT <= k || (j / FONT_SLOT == k + 1 && j % FONT_SLOT < i))
  }

  /** Writing row i of glyph k adds exactly the byte at GlyphOffset(k, i). */
  lemma WrittenRow(k: nat, i: nat)
    requires k < |GLYPHS| && i < GLYPH_HEIGHT
    ensures forall j: nat :: Written(j, k, i + 1) <==> Written(j, k, i) || j == GlyphOffset(k, i)
  {
    forall j: nat
      ensures Written(j, k, i + 1) <==> Written(j, k, i) || j == GlyphOffset(k, i)
    {
      if j / FONT_SLOT == k + 1 && j % FONT_SLOT == i {
        assert j == FONT_SLOT * (j / FONT_SLOT) + j % FONT_SLOT;
      }
    }
  }

  /** A finished glyph is the same as an unstarted next one. */
  lemma WrittenGlyph(k: nat)
    ensures forall j: nat :: Written(j, k, GLYPH_HEIGHT) <==> Written(j, k + 1, 0)
  {
  }

  /** After all nine glyphs, the written bytes are exactly the glyph bytes. */
  lemma WrittenAll()
    ensures forall j: nat :: Written(j, |GLYPHS|, 0) <==> IsGlyphByte(j)
  {
  }

  /** load_polish_fonts' writes to font memory (plane 2 at 0xA0000): glyph k goes to slot k + 1; slot 0
      and the upper half of every slot keep their bytes. */
  method LoadPolishFonts(font: array<byte>)
    requires font.Length >= (|GLYPHS| + 1) * FONT_SLOT
    modifies font
    ensures forall j :: 0 <= j < font.Length && IsGlyphByte(j) ==> font[j] == GLYPHS[j / FONT_SLOT - 1][j % FONT_SLOT]
    ensures forall j :: 0 <= j < font.Length && !IsGlyphByte(j) ==> font[j] == old(font[j])
  {
    var idx := 0;
    while idx < |GLYPHS|
      invariant idx <= |GLYPHS|
      invariant forall j :: 0 <= j < font.Length && Written(j, idx, 0) ==> font[j] == GLYPHS[j / FONT_SLOT - 1][j % FONT_SLOT]
      invariant forall j :: 0 <= j < font.Length && !Written(j, idx, 0) ==> font[j] == old(font[j])
    {
      var glyph := GLYPHS[idx];
      var i := 0;
      while i < GLYPH_HEIGHT
        invariant i <= GLYPH_HEIGHT
        invariant forall j :: 0 <= j < font.Length && Written(j, idx, i) ==> font[j] == GLYPHS[j / FONT_SLOT - 1][j % FONT_SLOT]
        invariant forall j :: 0 <= j < font.Length && !Written(j, idx, i) ==> font[j] == old(font[j])
      {
        WrittenRow(idx, i);
        font[GlyphOffset(idx, i)] := glyph[i];
        i := i + 1;
      }
      WrittenGlyph(idx);
      idx := idx + 1;
    }
    WrittenAll();
  }
}
