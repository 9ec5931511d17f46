/**
 * Word measurement, scale acceptance and the layout rules of the word loop
 * (`calculate_word_width`, `fits_in_line`, `reset_position`, the body of
 * the `while` loop in `main`), as specification functions over a value
 * that holds the cursor, the remaining line width and the commands sent.
 */
module Layout {
  import opened Config
  import opened Wrappers
  import opened Font
  import opened Gcode

  /** `calculate_word_width`: the scaled width of a word, one cell per byte. */
  function CalculateWordWidth(word: seq<Byte>, scaleFactor: real): (width: real)
    ensures scaleFactor >= 0.0 ==> width >= 0.0
  {
    |word| as real * CHAR_WIDTH * scaleFactor
  }

  /** The acceptance test of `get_scale_factor`: both bounds inclusive. */
  predicate ScaleAccepted(input: real) {
    SCALE_MIN <= input <= SCALE_MAX
  }

  /**
   * What `get_scale_factor` makes of one number the user enters: rejected
   * (the prompt repeats) or the scale factor, the input divided by the
   * character width.
   */
  function GetScaleFactor(input: real): (r: Option<real>)
    ensures r.Some? <==> SCALE_MIN <= input <= SCALE_MAX
    ensures r.Some? ==> r.value * CHAR_WIDTH == input
    ensures r.Some? ==> SCALE_MIN / CHAR_WIDTH <= r.value <= SCALE_MAX / CHAR_WIDTH
  {
    if ScaleAccepted(input) then Some(input / CHAR_WIDTH) else None
  }

  /** The mutable state of one render: cursor, remaining line width, commands sent so far. */
  datatype State = State(x: real, y: real, remaining: real, out: seq<Command>)

  /** The state before the first word: left margin, first line, full width. */
  function Initial(scale: real, out: seq<Command>): State {
    State(0.0, LINE_SPACING - CHAR_WIDTH * scale, LINE_WIDTH, out)
  }

  /** The y of the line below `y`. */
  function NextLineY(scale: real, y: real): real {
    y + LINE_SPACING - CHAR_WIDTH * scale
  }

  /** `reset_position`: back to the left margin of the next line, with a pen-up move there. */
  function NewLine(scale: real, st: State): State {
    var y := NextLineY(scale, st.y);
    State(0.0, y, LINE_WIDTH, st.out + [Move(false, 0.0, y)])
  }

  /** `generate_gcode_for_word` on the state: the word's commands at the cursor, x past its cells. */
  function DrawWord(font: seq<Record>, scale: real, st: State, word: seq<Byte>): State
  {
    st.(x := CellStart(st.x, scale, |word|), out := st.out + WordCommands(font, scale, word, st.x, st.y))
  }

  /** One pass of the word loop of `main`: fit or wrap, draw, then one cell of space. */
  function PlaceWord(font: seq<Record>, scale: real, st: State, word: seq<Byte>): State
  {
    var width := CalculateWordWidth(word, scale);
    var line := if st.remaining >= width then st.(remaining := st.remaining - width) else NewLine(scale, st);
    var drawn := DrawWord(font, scale, line, word);
    drawn.(x := drawn.x + Cell(scale), remaining := drawn.remaining - Cell(scale))
  }

  predicate AllRenderable(font: seq<Record>, words: seq<seq<Byte>>) {
    forall k :: 0 <= k < |words| ==> Renderable(font, words[k])
  }

  /** The whole word loop: the words placed one after the other. */
  function PlaceWords(font: seq<Record>, scale: real, st: State, words: seq<seq<Byte>>): State
    decreases |words|
  {
    if words == [] then st
    else
      var n := |words| - 1;
      PlaceWord(font, scale, PlaceWords(font, scale, st, words[..n]), words[n])
  }

  /** A longer word is never narrower, and a larger scale never makes a word narrower. */
  lemma WordWidthMonotone(w1: seq<Byte>, w2: seq<Byte>, s1: real, s2: real)
    requires |w1| <= |w2| && 0.0 <= s1 <= s2
    ensures 0.0 <= CalculateWordWidth(w1, s1) <= CalculateWordWidth(w2, s2)
  {
    var n1, n2 := |w1| as real, |w2| as real;
    assert n1 * CHAR_WIDTH * s1 <= n1 * CHAR_WIDTH * s2;
    assert n1 * CHAR_WIDTH * s2 <= n2 * CHAR_WIDTH * s2;
  }

  /** Stepping over the cells of a word one by one covers the word's width. */
  lemma CellStartWidth(x: real, scale: real, word: seq<Byte>)
    ensures CellStart(x, scale, |word|) == x + CalculateWordWidth(word, scale)
  {
    CellStartIsOffset(x, scale, |word|);
  }

  /** Drawing a word moves the cursor by exactly the width `calculate_word_width` gives it. */
  lemma DrawWordAdvance(font: seq<Record>, scale: real, st: State, word: seq<Byte>)
    ensures DrawWord(font, scale, st, word).x == st.x + CalculateWordWidth(word, scale)
    ensures DrawWord(font, scale, st, word).y == st.y
    ensures DrawWord(font, scale, st, word).remaining == st.remaining
  {
    CellStartIsOffset(st.x, scale, |word|);
  }

  /** With the scale the user entered, a character cell is exactly that many units wide. */
  lemma ScaleIsCellWidth(input: real, word: seq<Byte>)
    requires GetScaleFactor(input).Some?
    ensures Cell(GetScaleFactor(input).value) == input
    ensures CalculateWordWidth(word, GetScaleFactor(input).value) == |word| as real * input
  {
    var f := GetScaleFactor(input).value;
    assert CHAR_WIDTH * f == input;
    assert |word| as real * CHAR_WIDTH * f == |word| as real * (CHAR_WIDTH * f);
  }

  /** A new line starts at the margin with the full width, strictly below the old one for a non-negative scale. */
  lemma NewLineLowers(scale: real, st: State)
    requires scale >= 0.0
    ensures NewLine(scale, st).y < st.y
    ensures NewLine(scale, st).x == 0.0 && NewLine(scale, st).remaining == LINE_WIDTH
    ensures NewLine(scale, st).out == st.out + [Move(false, 0.0, NewLine(scale, st).y)]
  {
  }

  /**
   * One word in closed form.  Either it fits: its width and one cell come off
   * the remaining width and it is drawn at the cursor.  Or the line wraps
   * exactly once, the word is drawn at the margin of the next line however
   * wide it is, and only the trailing cell comes off the full width: the
   * word's own width is not deducted.
   */
  lemma PlaceWordCases(font: seq<Record>, scale: real, st: State, word: seq<Byte>)
    ensures var width := CalculateWordWidth(word, scale);
            var r := PlaceWord(font, scale, st, word);
            if st.remaining >= width then
              r == State(st.x + width + Cell(scale), st.y, st.remaining - width - Cell(scale),
                         st.out + WordCommands(font, scale, word, st.x, st.y))
            else
              var y := NextLineY(scale, st.y);
              r == State(width + Cell(scale), y, LINE_WIDTH - Cell(scale),
                         st.out + [Move(false, 0.0, y)] + WordCommands(font, scale, word, 0.0, y))
  {
    var width := CalculateWordWidth(word, scale);
    if st.remaining >= width {
      DrawWordAdvance(font, scale, st.(remaining := st.remaining - width), word);
    } else {
      DrawWordAdvance(font, scale, NewLine(scale, st), word);
    }
  }

  /**
   * How far the line runs past its budget.  On a line that did not start
   * with a wrap, cursor plus remaining width stays LINE_WIDTH; after a wrap
   * it is LINE_WIDTH plus the width of the word that caused it.
   */
  lemma PlaceWordBalance(font: seq<Record>, scale: real, st: State, word: seq<Byte>)
    ensures var width := CalculateWordWidth(word, scale);
            var r := PlaceWord(font, scale, st, word);
            r.x + r.remaining == if st.remaining >= width then st.x + st.remaining else LINE_WIDTH + width
  {
    PlaceWordCases(font, scale, st, word);
  }

  /** Words only ever append commands: what was sent before is kept as it was. */
  lemma {:induction false} PlaceWordsAppends(font: seq<Record>, scale: real, st: State, words: seq<seq<Byte>>)
    ensures |st.out| <= |PlaceWords(font, scale, st, words).out|
    ensures PlaceWords(font, scale, st, words).out[..|st.out|] == st.out
    decreases |words|
  {
    if words != [] {
      var n := |words| - 1;
      PlaceWordsAppends(font, scale, st, words[..n]);
      var mid := PlaceWords(font, scale, st, words[..n]);
      PlaceWordCases(font, scale, mid, words[n]);
    }
  }

  /** For a non-negative scale the cursor never moves up the page. */
  lemma {:induction false} PlaceWordsDescend(font: seq<Record>, scale: real, st: State, words: seq<seq<Byte>>)
    requires scale >= 0.0
    ensures PlaceWords(font, scale, st, words).y <= st.y
    decreases |words|
  {
    if words != [] {
      var n := |words| - 1;
      PlaceWordsDescend(font, scale, st, words[..n]);
      var mid := PlaceWords(font, scale, st, words[..n]);
      PlaceWordCases(font, scale, mid, words[n]);
    }
  }
}
