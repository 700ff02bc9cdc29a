/**
  The two random colour generators of the favicon editor and the
  `hsl(h, s%, l%)` text they store.

  Each `Math.floor(Math.random() * k)` of the source is an integer draw
  `0 <= d < k` supplied by the caller (`HslDraw`, one per channel).
*/
module Colors {
  import opened Wrappers
  import opened Numerals
  import opened Scan

  /** A colour as hue (degrees), saturation (%) and lightness (%). */
  datatype Hsl = Hsl(hue: nat, saturation: nat, lightness: nat)

  /** The three raw draws behind one generated colour. */
  datatype HslDraw = HslDraw(hue: int, saturation: int, lightness: int)

  predicate DrawsBelow(d: HslDraw, hueBound: int, saturationBound: int, lightnessBound: int) {
    && 0 <= d.hue < hueBound
    && 0 <= d.saturation < saturationBound
    && 0 <= d.lightness < lightnessBound
  }

  predicate ValidBackgroundDraw(d: HslDraw) {
    DrawsBelow(d, 360, 30, 20)
  }

  predicate ValidThemeDraw(d: HslDraw) {
    DrawsBelow(d, 360, 40, 30)
  }

  /** The light pastel range a background colour is drawn from. */
  predicate IsBackgroundColor(c: Hsl) {
    c.hue <= 359 && 70 <= c.saturation <= 99 && 70 <= c.lightness <= 89
  }

  /** The stronger range a theme colour is drawn from. */
  predicate IsThemeColor(c: Hsl) {
    c.hue <= 359 && 60 <= c.saturation <= 99 && 40 <= c.lightness <= 69
  }

  /** `generateBackgroundColor`, before it is printed. */
  function BackgroundColor(d: HslDraw): (c: Hsl)
    requires ValidBackgroundDraw(d)
    ensures IsBackgroundColor(c)
  {
    Hsl(d.hue, d.saturation + 70, d.lightness + 70)
  }

  /** One theme colour, as drawn by `regenerateSingleColor` and by the theme loops. */
  function ThemeColor(d: HslDraw): (c: Hsl)
    requires ValidThemeDraw(d)
    ensures IsThemeColor(c)
  {
    Hsl(d.hue, d.saturation + 60, d.lightness + 40)
  }

  /** Exactly the colours of the background range can be generated. */
  lemma BackgroundColorRange(c: Hsl)
    ensures IsBackgroundColor(c) <==> exists d :: ValidBackgroundDraw(d) && BackgroundColor(d) == c
  {
    if IsBackgroundColor(c) {
      var d := HslDraw(c.hue, c.saturation - 70, c.lightness - 70);
      assert ValidBackgroundDraw(d) && BackgroundColor(d) == c;
    }
  }

  /** Exactly the colours of the theme range can be generated. */
  lemma ThemeColorRange(c: Hsl)
    ensures IsThemeColor(c) <==> exists d :: ValidThemeDraw(d) && ThemeColor(d) == c
  {
    if IsThemeColor(c) {
      var d := HslDraw(c.hue, c.saturation - 60, c.lightness - 40);
      assert ValidThemeDraw(d) && ThemeColor(d) == c;
    }
  }

  /**
    The CSS text `hsl(h, s%, l%)` stored for a generated colour: it opens
    with `hsl(`, and no `"` occurs in it, so it can stand inside an attribute.
  */
  function HslText(c: Hsl): (t: string)
    ensures "hsl(" <= t
    ensures QuoteFree(t)
  {
    var h, s, l := NatToString(c.hue), NatToString(c.saturation), NatToString(c.lightness);
    assert forall i :: 0 <= i < |h| ==> IsDigit(h[i]);
    assert forall i :: 0 <= i < |s| ==> IsDigit(s[i]);
    assert forall i :: 0 <= i < |l| ==> IsDigit(l[i]);
    "hsl(" + (h + (", " + (s + ("%, " + (l + "%)")))))
  }

  /** Reads back a colour printed by `HslText`; nothing may follow it. */
  function ParseHsl(s: string): Option<Hsl>
  {
    var r0 :- Expect("hsl(", s);
    var h :- ReadNat(r0);
    var r1 :- Expect(", ", h.1);
    var sat :- ReadNat(r1);
    var r2 :- Expect("%, ", sat.1);
    var l :- ReadNat(r2);
    var r3 :- Expect("%)", l.1);
    if r3 == "" then Some(Hsl(h.0, sat.0, l.0)) else None
  }

  /** The stored text determines the colour it was printed from. */
  lemma ParseHslRoundTrip(c: Hsl)
    ensures ParseHsl(HslText(c)) == Some(c)
  {
    var tl := "%)";
    var t2 := NatToString(c.lightness) + tl;
    var t1 := NatToString(c.saturation) + ("%, " + t2);
    var t0 := NatToString(c.hue) + (", " + t1);
    assert HslText(c) == "hsl(" + t0;
    ExpectRoundTrip("hsl(", t0);
    ReadNatRoundTrip(c.hue, ", " + t1);
    ExpectRoundTrip(", ", t1);
    ReadNatRoundTrip(c.saturation, "%, " + t2);
    ExpectRoundTrip("%, ", t2);
    ReadNatRoundTrip(c.lightness, tl);
    ExpectRoundTrip("%)", "");
    assert tl == "%)" + "";
  }

  /** The printed text of a colour of the theme range. */
  ghost predicate IsThemeText(t: string) {
    exists c :: IsThemeColor(c) && HslText(c) == t
  }

  /** The printed text of a colour of the background range. */
  ghost predicate IsBackgroundText(t: string) {
    exists c :: IsBackgroundColor(c) && HslText(c) == t
  }

  /** A stored theme text reads back as the theme-range colour it was printed from. */
  lemma ThemeTextReadsBack(t: string)
    requires IsThemeText(t)
    ensures ParseHsl(t).Some? && IsThemeColor(ParseHsl(t).value)
    ensures HslText(ParseHsl(t).value) == t
  {
    var c :| IsThemeColor(c) && HslText(c) == t;
    ParseHslRoundTrip(c);
  }

  /** A stored background text reads back as the background-range colour it was printed from. */
  lemma BackgroundTextReadsBack(t: string)
    requires IsBackgroundText(t)
    ensures ParseHsl(t).Some? && IsBackgroundColor(ParseHsl(t).value)
    ensures HslText(ParseHsl(t).value) == t
  {
    var c :| IsBackgroundColor(c) && HslText(c) == t;
    ParseHslRoundTrip(c);
  }

  /** Generated colour texts never contain `"`. */
  lemma ColorTextQuoteFree(t: string)
    requires IsThemeText(t) || IsBackgroundText(t)
    ensures QuoteFree(t)
  {
    var c :| (IsThemeColor(c) || IsBackgroundColor(c)) && HslText(c) == t;
  }

  /** The text `regenerateSingleColor` stores for one draw. */
  function ThemeText(d: HslDraw): (t: string)
    requires ValidThemeDraw(d)
    ensures IsThemeText(t)
    ensures QuoteFree(t)
  {
    var c := ThemeColor(d);
    HslText(c)
  }

  /** The text `generateBackgroundColor` returns for one draw. */
  function BackgroundText(d: HslDraw): (t: string)
    requires ValidBackgroundDraw(d)
    ensures IsBackgroundText(t)
    ensures QuoteFree(t)
  {
    var c := BackgroundColor(d);
    HslText(c)
  }
}
