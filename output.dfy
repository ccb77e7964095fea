/** The status-bar line: the condition glyph span, the temperature span, the unit glyph span. */
module Output {
  import opened Wrappers
  import opened Glyphs

  const SpanOpen: string := "<span font='Weather Icons'>&#x"
  const SpanClose: string := ";</span>"
  const TempOpen: string := " <span>"
  const TempClose: string := "</span>"

  /** One glyph as a numeric character reference in the icon font. */
  function GlyphSpan(hex: string): (span: string)
    ensures |span| == |SpanOpen| + |hex| + |SpanClose|
    ensures span[..|SpanOpen|] == SpanOpen
    ensures span[|SpanOpen|..|SpanOpen| + |hex|] == hex
    ensures span[|SpanOpen| + |hex|..] == SpanClose
  {
    SpanOpen + hex + SpanClose
  }

  /** `line` as built by the first `format` call and the `+=` after it. */
  function Line(iconHex: string, temp: string, degreesHex: string): (line: string)
    ensures var head := |GlyphSpan(iconHex)| + |TempOpen|;
      var tail := |TempClose| + |GlyphSpan(degreesHex)|;
      && |line| == head + |temp| + tail
      && line[..head] == GlyphSpan(iconHex) + TempOpen
      && line[head..head + |temp|] == temp
      && line[head + |temp|..] == TempClose + GlyphSpan(degreesHex)
  {
    var first := GlyphSpan(iconHex) + TempOpen + temp + TempClose;
    first + GlyphSpan(degreesHex)
  }

  /** Length of everything except the three fields. */
  const FixedLength: nat := 2 * |SpanOpen| + 2 * |SpanClose| + |TempOpen| + |TempClose|

  /** Reads the three fields back out of a line with four-character glyphs. */
  function Unformat(s: string): (r: Option<(string, string, string)>)
  {
    if |s| < FixedLength + 8 then None
    else
      var a := |SpanOpen|;
      var b := a + 4;
      var c := b + |SpanClose| + |TempOpen|;
      var e := |s| - |SpanClose| - 4 - |SpanOpen| - |TempClose|;
      var icon := s[a..b];
      var temp := s[c..e];
      var deg := s[|s| - |SpanClose| - 4..|s| - |SpanClose|];
      if s == Line(icon, temp, deg) then Some((icon, temp, deg)) else None
  }

  /** The fields of a line are recovered exactly: glyph, temperature, glyph, in that order. */
  lemma UnformatLine(iconHex: string, temp: string, degreesHex: string)
    requires |iconHex| == 4 && |degreesHex| == 4
    ensures Unformat(Line(iconHex, temp, degreesHex)) == Some((iconHex, temp, degreesHex))
  {
    var s := Line(iconHex, temp, degreesHex);
    var a := |SpanOpen|;
    var c := a + 4 + |SpanClose| + |TempOpen|;
    var e := c + |temp|;
    assert s == SpanOpen + iconHex + SpanClose + TempOpen + temp + TempClose
      + SpanOpen + degreesHex + SpanClose;
    assert s[a..a + 4] == iconHex;
    assert s[c..e] == temp;
    assert s[|s| - |SpanClose| - 4..|s| - |SpanClose|] == degreesHex;
  }

  /** Whatever `Unformat` accepts is a line built from the fields it returns. */
  lemma UnformatSound(s: string)
    requires Unformat(s).Some?
    ensures var (i, t, d) := Unformat(s).value; s == Line(i, t, d) && |i| == 4 && |d| == 4
  {
  }

  /** Two lines with four-character glyphs are equal only if all three fields are. */
  lemma LineInjective(i1: string, t1: string, d1: string, i2: string, t2: string, d2: string)
    requires |i1| == 4 && |d1| == 4 && |i2| == 4 && |d2| == 4
    requires Line(i1, t1, d1) == Line(i2, t2, d2)
    ensures i1 == i2 && t1 == t2 && d1 == d2
  {
    UnformatLine(i1, t1, d1);
    UnformatLine(i2, t2, d2);
  }
}
