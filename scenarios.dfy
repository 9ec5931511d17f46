/** Worked layouts that pin the rules down on concrete inputs. */
module Scenarios {
  import opened Config
  import opened Wrappers
  import opened Font
  import opened Gcode
  import opened Layout

  /** A font holding only 'A': a header with two strokes, a pen-up move to (0,0) and a drawn line to (1,1). */
  const A_FONT: seq<Record> := [Record(999.0, 65.0, 2), Record(0.0, 0.0, 0), Record(1.0, 1.0, 1)]

  /**
   * The text "A A" at entered scale 5 (a cell of 5 units): each 'A' yields its
   * two strokes as S0/G0 then S1000/G1, the second 'A' two cells (letter and
   * space) to the right of the first, both on the first line, and no wrap.
   */
  lemma TwoLetterDocument()
    ensures Lookup(A_FONT, 65) == Some(Glyph(1, 2))
    ensures var s := 5.0 / CHAR_WIDTH;
            var r := PlaceWords(A_FONT, s, Initial(s, []), [[65 as Byte], [65 as Byte]]);
            r == State(20.0, -10.0, 80.0,
                       [Pen(PEN_UP), Move(false, 0.0, -10.0), Pen(PEN_DOWN), Move(true, s, -10.0 + s),
                        Pen(PEN_UP), Move(false, 10.0, -10.0), Pen(PEN_DOWN), Move(true, 10.0 + s, -10.0 + s)])
  {
    var s := 5.0 / CHAR_WIDTH;
    var a: seq<Byte> := [65 as Byte];
    var words := [a, a];
    assert words[..1] == [a] && words[..1][..0] == [];
    assert Lookup(A_FONT, 65) == Some(Glyph(1, 2));
    assert Strokes(A_FONT, Glyph(1, 2)) == [Record(0.0, 0.0, 0), Record(1.0, 1.0, 1)];
    assert a[..0] == [];
    AGlyphCommands(0.0, -10.0);
    AGlyphCommands(10.0, -10.0);
    var st0 := Initial(s, []);
    assert st0 == State(0.0, -10.0, 100.0, []);
    PlaceWordCases(A_FONT, s, st0, a);
    var st1 := PlaceWord(A_FONT, s, st0, a);
    assert st1 == State(10.0, -10.0, 90.0, AGlyph(s, 0.0, -10.0));
    PlaceWordCases(A_FONT, s, st1, a);
  }

  /** The commands of 'A' at `(x, y)` at scale `s`. */
  function AGlyph(s: real, x: real, y: real): seq<Command> {
    [Pen(PEN_UP), Move(false, x, y), Pen(PEN_DOWN), Move(true, s + x, s + y)]
  }

  lemma AGlyphCommands(x: real, y: real)
    ensures WordCommands(A_FONT, 5.0 / CHAR_WIDTH, [65 as Byte], x, y) == AGlyph(5.0 / CHAR_WIDTH, x, y)
  {
    var s := 5.0 / CHAR_WIDTH;
    var strokes := [Record(0.0, 0.0, 0), Record(1.0, 1.0, 1)];
    assert Strokes(A_FONT, Glyph(1, 2)) == strokes;
    assert strokes[..1] == [strokes[0]] && [strokes[0]][..0] == [];
    WordCommandsSnoc(A_FONT, s, [], 65 as Byte, x, y);
    assert [] + [65 as Byte] == [65 as Byte];
    assert StrokeCommands(strokes, s, x, y) == StrokePair(strokes[0], s, x, y) + StrokePair(strokes[1], s, x, y);
  }

  /**
   * The line can run past LINE_WIDTH.  At entered scale 10 (a cell of 10
   * units), a 10-byte word exactly fills the first line, a 9-byte word wraps,
   * and a further 9-byte word still "fits", because the wrapped word's width
   * was never deducted: it is drawn from x = 100 to 190 on the same line.
   */
  lemma LineOverflowsAfterWrap(font: seq<Record>, y: real)
    requires GlyphInBounds(font, 97)
    ensures var s := 10.0 / CHAR_WIDTH;
            var long := seq(10, _ => 97 as Byte);
            var short := seq(9, _ => 97 as Byte);
            AllRenderable(font, [long, short, short]) &&
            var before := PlaceWords(font, s, Initial(s, []), [long, short]);
            before.x == LINE_WIDTH && before.remaining >= CalculateWordWidth(short, s) &&
            PlaceWords(font, s, Initial(s, []), [long, short, short]).x == 2.0 * LINE_WIDTH
  {
    var s := 10.0 / CHAR_WIDTH;
    var long := seq(10, _ => 97 as Byte);
    var short := seq(9, _ => 97 as Byte);
    var words := [long, short, short];
    assert words[..2] == [long, short] && words[..2][..1] == [long] && [long, short][..1] == [long];
    assert [long][..0] == [];
    assert Renderable(font, long) && Renderable(font, short);
    assert AllRenderable(font, words);
    assert CalculateWordWidth(long, s) == 100.0 && CalculateWordWidth(short, s) == 90.0 && Cell(s) == 10.0;
    var st0 := Initial(s, []);
    PlaceWordCases(font, s, st0, long);
    var st1 := PlaceWord(font, s, st0, long);
    assert st1.x == 110.0 && st1.remaining == -10.0;
    PlaceWordCases(font, s, st1, short);
    var st2 := PlaceWord(font, s, st1, short);
    assert st2.x == 100.0 && st2.remaining == 90.0;
    PlaceWordCases(font, s, st2, short);
    assert PlaceWord(font, s, st2, short).x == 200.0;
    assert PlaceWords(font, s, st0, [long]) == st1;
    assert PlaceWords(font, s, st0, [long, short]) == st2;
  }
}
