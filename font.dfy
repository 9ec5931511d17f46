/**
 * The font table and the glyph lookup `find_character_data`.
 *
 * The table is a flat list of `(X, Y, Z)` records.  A record whose X is 999
 * is a glyph header: its Y is the character code and its Z the number of
 * stroke records that follow it.  A stroke record holds a point in font
 * coordinates and, in Z, the pen state (non-zero draws).
 */
module Font {
  import opened Config
  import opened Wrappers

  /** One byte of the input text. */
  newtype Byte = b: int | 0 <= b < 256

  /** One font record; `z` is an `int` in the source, X and Y are floats. */
  datatype Record = Record(x: real, y: real, z: int)

  /** What a successful lookup yields: where the strokes start and the header's Z. */
  datatype Glyph = Glyph(start: nat, count: int)

  /**
   * `(int)character` for a plain `char`, which is signed on the targets the
   * driver is built for: bytes from 128 on read as negative codes.
   */
  function CharCode(b: Byte): (code: int)
    ensures -128 <= code < 128
    ensures code % 256 == b as int
  {
    if b < 128 then b as int else b as int - 256
  }

  /** Record `r` is the header of the glyph for character code `code`. */
  predicate IsSentinel(r: Record, code: int) {
    r.x == SENTINEL_X && r.y == code as real
  }

  /** The number of strokes the stroke loop visits: a negative Z visits none. */
  function StrokeCount(g: Glyph): nat {
    if g.count > 0 then g.count else 0
  }

  /** The lookup as a scan of `font` from index `i` onwards. */
  function LookupFrom(font: seq<Record>, code: int, i: nat): Option<Glyph>
    decreases |font| - i
  {
    if i >= |font| then None
    else if IsSentinel(font[i], code) then Some(Glyph(i + 1, font[i].z))
    else LookupFrom(font, code, i + 1)
  }

  /** The glyph of `code`: the first header for it in the whole table. */
  function Lookup(font: seq<Record>, code: int): Option<Glyph> {
    LookupFrom(font, code, 0)
  }

  /** Reading the strokes of a found glyph stays inside the table. */
  predicate GlyphInBounds(font: seq<Record>, code: int) {
    match Lookup(font, code)
    case None => true
    case Some(g) => g.start + StrokeCount(g) <= |font|
  }

  /** Every character of `word` can be drawn without reading past the table. */
  predicate Renderable(font: seq<Record>, word: seq<Byte>) {
    forall i :: 0 <= i < |word| ==> GlyphInBounds(font, CharCode(word[i]))
  }

  /**
   * The strokes of a found glyph, in table order.  A glyph whose strokes
   * would run past the table is cut at its end; the driver's methods
   * exclude that case (`Renderable`), since C would read out of bounds.
   */
  function Strokes(font: seq<Record>, g: Glyph): (strokes: seq<Record>)
    ensures g.start + StrokeCount(g) <= |font| ==> strokes == font[g.start..g.start + StrokeCount(g)]
  {
    var end := if g.start + StrokeCount(g) <= |font| then g.start + StrokeCount(g) else |font|;
    if g.start <= end then font[g.start..end] else []
  }

  lemma {:induction false} LookupFromFirst(font: seq<Record>, code: int, i: nat)
    requires i <= |font|
    ensures LookupFrom(font, code, i).None? <==>
              forall k :: i <= k < |font| ==> !IsSentinel(font[k], code)
    ensures LookupFrom(font, code, i).Some? ==>
              var g := LookupFrom(font, code, i).value;
              i < g.start <= |font| && IsSentinel(font[g.start - 1], code) &&
              g.count == font[g.start - 1].z &&
              forall k :: i <= k < g.start - 1 ==> !IsSentinel(font[k], code)
    decreases |font| - i
  {
    if i < |font| && !IsSentinel(font[i], code) {
      LookupFromFirst(font, code, i + 1);
    }
  }

  /**
   * The lookup finds a glyph iff the table holds a header for the code; the
   * glyph found starts right after the FIRST such header, and its count is
   * that header's Z.
   */
  lemma LookupFirstSentinel(font: seq<Record>, code: int)
    ensures Lookup(font, code).None? <==>
              forall k :: 0 <= k < |font| ==> !IsSentinel(font[k], code)
    ensures Lookup(font, code).Some? ==>
              var g := Lookup(font, code).value;
              1 <= g.start <= |font| && IsSentinel(font[g.start - 1], code) &&
              g.count == font[g.start - 1].z &&
              forall k :: 0 <= k < g.start - 1 ==> !IsSentinel(font[k], code)
  {
    LookupFromFirst(font, code, 0);
  }

  /**
   * Records after the first header of a code do not change its lookup, so
   * a later duplicate header is never reached.
   */
  lemma {:induction false} LookupIgnoresSuffix(font: seq<Record>, more: seq<Record>, code: int, i: nat)
    requires i <= |font|
    requires LookupFrom(font, code, i).Some?
    ensures LookupFrom(font + more, code, i) == LookupFrom(font, code, i)
    decreases |font| - i
  {
    assert (font + more)[i] == font[i];
    if !IsSentinel(font[i], code) {
      LookupIgnoresSuffix(font, more, code, i + 1);
    }
  }

  /**
   * `find_character_data`: scans the LINE_COUNT records for the first header
   * of the character.  On success `data` is the index of the first stroke
   * record and `count` the header's Z; otherwise `data` is None and `count`
   * is the caller's `strokeCount`, left untouched.
   */
  method FindCharacterData(character: Byte, font: array<Record>, strokeCount: int)
    returns (data: Option<nat>, count: int)
    requires font.Length == LINE_COUNT
    ensures data.None? <==>
              forall k :: 0 <= k < font.Length ==> !IsSentinel(font[k], CharCode(character))
    ensures data.None? ==> count == strokeCount
    ensures data.Some? ==>
              1 <= data.value <= font.Length &&
              IsSentinel(font[data.value - 1], CharCode(character)) &&
              count == font[data.value - 1].z &&
              forall k :: 0 <= k < data.value - 1 ==> !IsSentinel(font[k], CharCode(character))
    ensures Lookup(font[..], CharCode(character)) ==
              if data.Some? then Some(Glyph(data.value, count)) else None
  {
    var asciiVal := CharCode(character);
    for i := 0 to LINE_COUNT
      invariant forall k :: 0 <= k < i ==> !IsSentinel(font[k], asciiVal)
      invariant Lookup(font[..], asciiVal) == LookupFrom(font[..], asciiVal, i)
    {
      if font[i].x == SENTINEL_X && font[i].y == asciiVal as real {
        return Some(i + 1), font[i].z;
      }
    }
    return None, strokeCount;
  }
}
