/**
 * The driver's mutable state and the imperative code of main.c: the
 * functions that update the cursor and the remaining width by reference
 * (through `*` parameters), the stroke loops that send commands, and the word loop of
 * `main`.  The commands sent to the plotter are collected in `out`.
 */
module Driver {
  import opened Config
  import opened Font
  import opened Gcode
  import opened Layout

  /**
   * What `main` sends before the font is loaded: the wake-up line (sent and
   * printed), a drawing move to the origin (its feed rate F1000 is not
   * modelled), spindle on, pen up.
   */
  const START_UP: seq<Command> :=
    [Raw("\n"), Raw("\n"), Move(true, 0.0, 0.0), Raw("M3\n"), Pen(PEN_UP)]

  /** What `main` sends after the last word: a drawing move back to the origin. */
  const RETURN_TO_ORIGIN: Command := Move(true, 0.0, 0.0)

  class Plotter {
    /** The font table and scale factor `main` passes to every call. */
    const font: array<Record>
    const scale: real

    /** `current_Xpos`, `current_Ypos`, `remaining_space` of `main`. */
    var x: real
    var y: real
    var remaining: real

    /** Every command sent so far, in order. */
    var out: seq<Command>

    ghost function Snapshot(): State
      reads this
    {
      State(x, y, remaining, out)
    }

    /** Start-up commands sent, then the cursor set as before the word loop. */
    constructor (font: array<Record>, scale: real)
      requires font.Length == LINE_COUNT
      ensures this.font == font && this.scale == scale
      ensures x == 0.0 && y == LINE_SPACING - CHAR_WIDTH * scale && remaining == LINE_WIDTH
      ensures out == START_UP
      ensures Snapshot() == Initial(scale, START_UP)
    {
      this.font := font;
      this.scale := scale;
      out := START_UP;
      remaining := LINE_WIDTH;
      x, y := 0.0, LINE_SPACING - CHAR_WIDTH * scale;
    }

    /** `fits_in_line`: if the word fits, take its width off the remaining width. */
    method FitsInLine(wordWidth: real) returns (fits: bool)
      modifies this`remaining
      ensures fits <==> old(remaining) >= wordWidth
      ensures remaining == if fits then old(remaining) - wordWidth else old(remaining)
    {
      if remaining >= wordWidth {
        remaining := remaining - wordWidth;
        return true;
      }
      return false;
    }

    /** `reset_position`: margin of the next line, full width, one pen-up move sent. */
    method ResetPosition()
      modifies this`x, this`y, this`remaining, this`out
      ensures x == 0.0
      ensures y == old(y) + LINE_SPACING - CHAR_WIDTH * scale
      ensures remaining == LINE_WIDTH
      ensures out == old(out) + [Move(false, 0.0, y)]
      ensures Snapshot() == NewLine(scale, old(Snapshot()))
    {
      x := 0.0;
      y := y + LINE_SPACING - CHAR_WIDTH * scale;
      remaining := LINE_WIDTH;
      out := out + [Move(false, 0.0, y)];
    }

    /**
     * `generate_gcode_for_word`: for each byte, the pen/move pair of every
     * stroke of its glyph (nothing if it has none), then one cell to the
     * right.  `y` is read, never written.
     */
    method GenerateGcodeForWord(word: seq<Byte>)
      requires font.Length == LINE_COUNT
      requires Renderable(font[..], word)
      modifies this`x, this`out
      ensures x == old(x) + CalculateWordWidth(word, scale)
      ensures out == old(out) + WordCommands(font[..], scale, word, old(x), y)
    {
      ghost var x0, sent := x, out;
      var i := 0;
      while i < |word|
        invariant 0 <= i <= |word|
        invariant x == CellStart(x0, scale, i)
        invariant out == sent + WordCommands(font[..], scale, word[..i], x0, y)
      {
        DrawCharacter(word, i, x0, sent);
        i := i + 1;
      }
      assert word[..i] == word;
      CellStartWidth(x0, scale, word);
    }

    /** One pass of the character loop of `generate_gcode_for_word`: the i-th byte's strokes, then one cell right. */
    method DrawCharacter(word: seq<Byte>, i: nat, ghost x0: real, ghost sent: seq<Command>)
      requires font.Length == LINE_COUNT
      requires Renderable(font[..], word)
      requires i < |word|
      requires x == CellStart(x0, scale, i)
      requires out == sent + WordCommands(font[..], scale, word[..i], x0, y)
      modifies this`x, this`out
      ensures x == CellStart(x0, scale, i + 1)
      ensures out == sent + WordCommands(font[..], scale, word[..i + 1], x0, y)
    {
      ghost var table := font[..];
      assert word[..i + 1] == word[..i] + [word[i]];
      ghost var done := WordCommands(table, scale, word[..i], x0, y);
      SendCharacter(word[i]);
      ghost var next := CharCommands(table, scale, word[i], x, y);
      WordCommandsSnoc(table, scale, word[..i], word[i], x0, y);
      AppendAssoc(sent, done, next);
      x := x + CHAR_WIDTH * scale;
    }

    /**
     * The body of the character loop of `generate_gcode_for_word` before the
     * cursor moves: look the byte up and, if its glyph was found, send its strokes.
     */
    method SendCharacter(c: Byte)
      requires font.Length == LINE_COUNT
      requires GlyphInBounds(font[..], CharCode(c))
      modifies this`out
      ensures out == old(out) + CharCommands(font[..], scale, c, x, y)
    {
      var charData, strokeCount := FindCharacterData(c, font, 0);
      if charData.Some? {
        SendStrokes(charData.value, strokeCount);
      }
    }

    /**
     * The stroke loop of `generate_gcode_for_word`: one pen/move pair per
     * stroke record `font[first..first + count]`, placed at the cursor.
     */
    method SendStrokes(first: nat, count: int)
      requires first + StrokeCount(Glyph(first, count)) <= font.Length
      modifies this`out
      ensures out == old(out) + StrokeCommands(Strokes(font[..], Glyph(first, count)), scale, x, y)
    {
      ghost var table := font[..];
      var j := 0;
      while j < count
        invariant 0 <= j <= StrokeCount(Glyph(first, count))
        invariant out == old(out) + StrokeCommands(table[first..first + j], scale, x, y)
      {
        var stroke := font[first + j];
        ghost var done := table[first..first + j + 1];
        assert done[..j] == table[first..first + j] && done[j] == stroke;
        ghost var pair := StrokePair(stroke, scale, x, y);
        out := out + [Pen(if stroke.z != 0 then PEN_DOWN else PEN_UP),
                      Move(stroke.z != 0, stroke.x * scale + x, stroke.y * scale + y)];
        assert out[|out| - 2] == pair[0] && out[|out| - 1] == pair[1];
        assert out == old(out) + StrokeCommands(table[first..first + j], scale, x, y) + pair;
        j := j + 1;
      }
    }

    /**
     * One pass of the word loop of `main`: wrap to the next line if the
     * word's width does not fit (without deducting it), draw the word, then
     * advance one more cell for the space and take that cell off the line.
     */
    method ProcessWord(word: seq<Byte>)
      requires font.Length == LINE_COUNT
      requires Renderable(font[..], word)
      modifies this`x, this`y, this`remaining, this`out
      ensures Snapshot() == PlaceWord(font[..], scale, old(Snapshot()), word)
    {
      ghost var before := Snapshot();
      var wordWidth := CalculateWordWidth(word, scale);
      var fits := FitsInLine(wordWidth);
      if !fits {
        ResetPosition();
      }
      ghost var line := Snapshot();
      assert line == if before.remaining >= wordWidth then before.(remaining := before.remaining - wordWidth)
                     else NewLine(scale, before);
      GenerateGcodeForWord(word);
      ghost var drawn := DrawWord(font[..], scale, line, word);
      DrawWordAdvance(font[..], scale, line, word);
      assert drawn.x == x && drawn.out == out && drawn.y == y && drawn.remaining == remaining;
      x := x + CHAR_WIDTH * scale;
      remaining := remaining - CHAR_WIDTH * scale;
    }

    /** The final command of `main`. */
    method ReturnToOrigin()
      modifies this`out
      ensures out == old(out) + [RETURN_TO_ORIGIN]
    {
      out := out + [RETURN_TO_ORIGIN];
    }
  }

  /**
   * `main` from the moment the serial port is open: start-up commands, the
   * word loop over the words of the text file, the return to the origin.
   * `scaleInput` is the number the user entered that the prompt accepted.
   */
  method Session(font: array<Record>, scaleInput: real, words: seq<seq<Byte>>) returns (out: seq<Command>)
    requires font.Length == LINE_COUNT
    requires ScaleAccepted(scaleInput)
    requires AllRenderable(font[..], words)
    ensures var scale := GetScaleFactor(scaleInput).value;
            out == PlaceWords(font[..], scale, Initial(scale, START_UP), words).out + [RETURN_TO_ORIGIN]
  {
    var scaleFactor := scaleInput / CHAR_WIDTH;
    assert scaleFactor == GetScaleFactor(scaleInput).value;
    var plotter := new Plotter(font, scaleFactor);
    var k := 0;
    while k < |words|
      invariant 0 <= k <= |words|
      invariant AllRenderable(font[..], words[..k])
      invariant plotter.Snapshot() == PlaceWords(font[..], scaleFactor, Initial(scaleFactor, START_UP), words[..k])
    {
      assert words[..k + 1][..k] == words[..k];
      plotter.ProcessWord(words[k]);
      k := k + 1;
    }
    assert words[..k] == words;
    plotter.ReturnToOrigin();
    out := plotter.out;
  }
}
