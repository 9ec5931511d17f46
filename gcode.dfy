/**
 * The motion commands the driver sends and the commands generated for a
 * word (`generate_gcode_for_word`), as specification functions.
 */
module Gcode {
  import opened Config
  import opened Wrappers
  import opened Font

  /**
   * One directive to the plotter.  `Pen(p)` is `S<p>` (1000 pen down, 0 pen
   * up); `Move(draw, x, y)` is `G1` (drawing) or `G0` (moving) to `(x, y)`;
   * `Raw` is a fixed start-up line sent verbatim (the wake-up
   * newline and `M3`).
   */
  datatype Command = Pen(power: int) | Move(draw: bool, x: real, y: real) | Raw(text: string)

  const PEN_DOWN: int := 1000
  const PEN_UP: int := 0

  /** A pen command followed by a move that agrees with it. */
  predicate PairOk(pen: Command, move: Command) {
    pen.Pen? && move.Move? &&
    (pen.power == PEN_DOWN || pen.power == PEN_UP) &&
    (move.draw <==> pen.power == PEN_DOWN)
  }

  /** `cmds` is a sequence of pen/move pairs, each move under its own pen state. */
  predicate Paired(cmds: seq<Command>)
    decreases |cmds|
  {
    cmds == [] || (|cmds| >= 2 && PairOk(cmds[0], cmds[1]) && Paired(cmds[2..]))
  }

  /** The pair one stroke record yields with the glyph placed at `(x, y)`. */
  function StrokePair(r: Record, scale: real, x: real, y: real): seq<Command> {
    [Pen(if r.z != 0 then PEN_DOWN else PEN_UP), Move(r.z != 0, r.x * scale + x, r.y * scale + y)]
  }

  /** The pairs of a glyph's strokes, in stroke order. */
  function StrokeCommands(strokes: seq<Record>, scale: real, x: real, y: real): seq<Command>
    decreases |strokes|
  {
    if strokes == [] then []
    else StrokeCommands(strokes[..|strokes| - 1], scale, x, y)
         + StrokePair(strokes[|strokes| - 1], scale, x, y)
  }

  /** The commands of one character drawn at `(x, y)`: none when its glyph is missing. */
  function CharCommands(font: seq<Record>, scale: real, c: Byte, x: real, y: real): seq<Command>
  {
    match Lookup(font, CharCode(c))
    case None => []
    case Some(g) => StrokeCommands(Strokes(font, g), scale, x, y)
  }

  /** One character cell, scaled. */
  function Cell(scale: real): real {
    CHAR_WIDTH * scale
  }

  /**
   * The x of the n-th character cell of a word starting at `x`: the cursor
   * after n unconditional advances (see CellStartIsOffset for its closed form).
   */
  function CellStart(x: real, scale: real, n: nat): real {
    if n == 0 then x else CellStart(x, scale, n - 1) + Cell(scale)
  }

  /** Each character's commands at its own cell: character i at CellStart(x, scale, i). */
  function CharCells(font: seq<Record>, scale: real, word: seq<Byte>, x: real, y: real): (cells: seq<seq<Command>>)
    ensures |cells| == |word|
    decreases |word|
  {
    if word == [] then []
    else
      var n := |word| - 1;
      CharCells(font, scale, word[..n], x, y) + [CharCommands(font, scale, word[n], CellStart(x, scale, n), y)]
  }

  /** The parts one after the other. */
  function Flatten(parts: seq<seq<Command>>): seq<Command>
    decreases |parts|
  {
    if parts == [] then [] else Flatten(parts[..|parts| - 1]) + parts[|parts| - 1]
  }

  /** The commands of a word whose first character is at `(x, y)`. */
  function WordCommands(font: seq<Record>, scale: real, word: seq<Byte>, x: real, y: real): seq<Command> {
    Flatten(CharCells(font, scale, word, x, y))
  }

  /** Cell starts compose: n cells after the m-th cell is the (m + n)-th cell. */
  lemma {:induction false} CellStartAdd(x: real, scale: real, m: nat, n: nat)
    ensures CellStart(CellStart(x, scale, m), scale, n) == CellStart(x, scale, m + n)
    decreases n
  {
    if n > 0 {
      CellStartAdd(x, scale, m, n - 1);
    }
  }

  /** The n-th cell starts exactly n scaled character widths to the right. */
  lemma {:induction false} CellStartIsOffset(x: real, scale: real, n: nat)
    ensures CellStart(x, scale, n) == x + n as real * CHAR_WIDTH * scale
    decreases n
  {
    if n > 0 {
      CellStartIsOffset(x, scale, n - 1);
      assert (n - 1) as real * CHAR_WIDTH * scale + CHAR_WIDTH * scale == n as real * CHAR_WIDTH * scale;
    }
  }

  /** The number of strokes drawn for one character: none when its glyph is missing. */
  function CharStrokes(font: seq<Record>, c: Byte): nat {
    match Lookup(font, CharCode(c))
    case None => 0
    case Some(g) => StrokeCount(g)
  }

  /** The number of strokes drawn for `word`. */
  function StrokeTotal(font: seq<Record>, word: seq<Byte>): nat
    decreases |word|
  {
    if word == [] then 0
    else StrokeTotal(font, word[..|word| - 1]) + CharStrokes(font, word[|word| - 1])
  }

  lemma {:induction false} PairedAppend(a: seq<Command>, b: seq<Command>)
    requires Paired(a) && Paired(b)
    ensures Paired(a + b)
    decreases |a|
  {
    if a != [] {
      assert (a + b)[2..] == a[2..] + b;
      PairedAppend(a[2..], b);
      assert PairOk((a + b)[0], (a + b)[1]) by { assert (a + b)[0] == a[0] && (a + b)[1] == a[1]; }
    } else {
      assert a + b == b;
    }
  }

  /**
   * The k-th stroke yields exactly the pair `S1000`/`G1` (Z non-zero) or
   * `S0`/`G0` (Z zero) at the stroke's point scaled and offset by `(x, y)`.
   */
  lemma {:induction false} StrokeCommandsAt(strokes: seq<Record>, scale: real, x: real, y: real, k: nat)
    requires k < |strokes|
    ensures |StrokeCommands(strokes, scale, x, y)| == 2 * |strokes|
    ensures StrokeCommands(strokes, scale, x, y)[2 * k] ==
              Pen(if strokes[k].z != 0 then PEN_DOWN else PEN_UP)
    ensures StrokeCommands(strokes, scale, x, y)[2 * k + 1] ==
              Move(strokes[k].z != 0, strokes[k].x * scale + x, strokes[k].y * scale + y)
    decreases |strokes|
  {
    var n := |strokes| - 1;
    var front := strokes[..n];
    if k < n {
      StrokeCommandsAt(front, scale, x, y, k);
      assert front[k] == strokes[k];
    } else {
      StrokeCommandsLength(front, scale, x, y);
    }
  }

  lemma {:induction false} StrokeCommandsLength(strokes: seq<Record>, scale: real, x: real, y: real)
    ensures |StrokeCommands(strokes, scale, x, y)| == 2 * |strokes|
    decreases |strokes|
  {
    if strokes != [] {
      StrokeCommandsLength(strokes[..|strokes| - 1], scale, x, y);
    }
  }

  /** Every stroke's move is emitted under a pen command that agrees with it. */
  lemma {:induction false} StrokeCommandsPaired(strokes: seq<Record>, scale: real, x: real, y: real)
    ensures Paired(StrokeCommands(strokes, scale, x, y))
    decreases |strokes|
  {
    if strokes != [] {
      var n := |strokes| - 1;
      StrokeCommandsPaired(strokes[..n], scale, x, y);
      var pair := StrokePair(strokes[n], scale, x, y);
      assert Paired(pair) by { assert pair[2..] == []; }
      PairedAppend(StrokeCommands(strokes[..n], scale, x, y), pair);
    }
  }

  lemma CharCommandsPaired(font: seq<Record>, scale: real, c: Byte, x: real, y: real)
    ensures Paired(CharCommands(font, scale, c, x, y))
  {
    match Lookup(font, CharCode(c))
    case None =>
    case Some(g) =>
      StrokeCommandsPaired(Strokes(font, g), scale, x, y);
  }

  /** Regrouping appended command runs (a hint the solver finds slowly on its own). */
  lemma AppendAssoc<T>(a: seq<T>, b: seq<T>, c: seq<T>)
    ensures a + b + c == a + (b + c)
  {
  }

  lemma {:induction false} FlattenAppend(a: seq<seq<Command>>, b: seq<seq<Command>>)
    ensures Flatten(a + b) == Flatten(a) + Flatten(b)
    decreases |b|
  {
    if b == [] {
      assert a + b == a;
    } else {
      var n := |b| - 1;
      assert (a + b)[..|a + b| - 1] == a + b[..n];
      assert (a + b)[|a + b| - 1] == b[n];
      FlattenAppend(a, b[..n]);
      AppendAssoc(Flatten(a), Flatten(b[..n]), b[n]);
    }
  }

  /** Appending one character appends its commands at the next cell. */
  lemma WordCommandsSnoc(font: seq<Record>, scale: real, word: seq<Byte>, c: Byte, x: real, y: real)
    ensures WordCommands(font, scale, word + [c], x, y) ==
              WordCommands(font, scale, word, x, y) + CharCommands(font, scale, c, CellStart(x, scale, |word|), y)
  {
    var cells := CharCells(font, scale, word + [c], x, y);
    assert (word + [c])[..|word|] == word;
    assert cells[..|word|] == CharCells(font, scale, word, x, y);
  }

  /** A whole word is a sequence of agreeing pen/move pairs: pen state never lags a move. */
  lemma {:induction false} WordCommandsPaired(font: seq<Record>, scale: real, word: seq<Byte>, x: real, y: real)
    ensures Paired(WordCommands(font, scale, word, x, y))
    decreases |word|
  {
    if word != [] {
      var n := |word| - 1;
      assert word == word[..n] + [word[n]];
      WordCommandsSnoc(font, scale, word[..n], word[n], x, y);
      WordCommandsPaired(font, scale, word[..n], x, y);
      var cx := CellStart(x, scale, n);
      CharCommandsPaired(font, scale, word[n], cx, y);
      PairedAppend(WordCommands(font, scale, word[..n], x, y), CharCommands(font, scale, word[n], cx, y));
    }
  }

  /** A word yields exactly one pair per stroke of its found glyphs. */
  lemma {:induction false} WordCommandsLength(font: seq<Record>, scale: real, word: seq<Byte>, x: real, y: real)
    requires Renderable(font, word)
    ensures |WordCommands(font, scale, word, x, y)| == 2 * StrokeTotal(font, word)
    decreases |word|
  {
    if word != [] {
      var n := |word| - 1;
      assert word == word[..n] + [word[n]];
      WordCommandsSnoc(font, scale, word[..n], word[n], x, y);
      assert Renderable(font, word[..n]) by {
        forall i | 0 <= i < n ensures GlyphInBounds(font, CharCode(word[..n][i])) {
          assert word[..n][i] == word[i];
        }
      }
      WordCommandsLength(font, scale, word[..n], x, y);
      CharCommandsLength(font, scale, word[n], CellStart(x, scale, n), y);
    }
  }

  lemma CharCommandsLength(font: seq<Record>, scale: real, c: Byte, x: real, y: real)
    requires GlyphInBounds(font, CharCode(c))
    ensures |CharCommands(font, scale, c, x, y)| == 2 * CharStrokes(font, c)
  {
    match Lookup(font, CharCode(c))
    case None =>
    case Some(g) =>
      StrokeCommandsLength(Strokes(font, g), scale, x, y);
  }

  /** The cells of a word are those of its first part, then those of the rest |front| cells further right. */
  lemma {:induction false} CharCellsSplit(font: seq<Record>, scale: real, front: seq<Byte>, back: seq<Byte>, x: real, y: real)
    ensures CharCells(font, scale, front + back, x, y) ==
              CharCells(font, scale, front, x, y) + CharCells(font, scale, back, CellStart(x, scale, |front|), y)
    decreases |back|
  {
    var x1 := CellStart(x, scale, |front|);
    if back == [] {
      assert front + back == front;
    } else {
      var n := |back| - 1;
      var word := front + back;
      assert word[..|word| - 1] == front + back[..n];
      assert word[|word| - 1] == back[n];
      CharCellsSplit(font, scale, front, back[..n], x, y);
      CellStartAdd(x, scale, |front|, n);
      var cell := CharCommands(font, scale, back[n], CellStart(x1, scale, n), y);
      AppendAssoc(CharCells(font, scale, front, x, y), CharCells(font, scale, back[..n], x1, y), [cell]);
    }
  }

  /**
   * The commands of a word are those of its first part followed by those of
   * the rest drawn |front| cells further right: characters never interleave.
   */
  lemma WordCommandsSplit(font: seq<Record>, scale: real, front: seq<Byte>, back: seq<Byte>, x: real, y: real)
    ensures WordCommands(font, scale, front + back, x, y) ==
              WordCommands(font, scale, front, x, y)
              + WordCommands(font, scale, back, CellStart(x, scale, |front|), y)
  {
    CharCellsSplit(font, scale, front, back, x, y);
    FlattenAppend(CharCells(font, scale, front, x, y), CharCells(font, scale, back, CellStart(x, scale, |front|), y));
  }

  /**
   * A character whose glyph is missing yields no commands but still takes
   * its cell: what follows it is drawn one cell further right.
   */
  lemma UnresolvedCharacterGap(font: seq<Record>, scale: real, front: seq<Byte>, c: Byte, back: seq<Byte>, x: real, y: real)
    requires Lookup(font, CharCode(c)).None?
    ensures WordCommands(font, scale, front + [c] + back, x, y) ==
              WordCommands(font, scale, front, x, y)
              + WordCommands(font, scale, back, CellStart(x, scale, |front| + 1), y)
  {
    WordCommandsSplit(font, scale, front + [c], back, x, y);
    WordCommandsSplit(font, scale, front, [c], x, y);
    WordCommandsSnoc(font, scale, [], c, CellStart(x, scale, |front|), y);
    assert [] + [c] == [c];
    CellStartAdd(x, scale, |front|, 1);
  }
}
