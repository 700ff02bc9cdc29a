/**
  `drawFavicon`: the editor state composed into SVG markup.

  The document is a fixed 64 x 64 header, one full-canvas background
  rectangle, one primitive per placement in placement order, each filled
  with the theme colour its index cycles to, and the closing tag.
*/
module Composer {
  import opened Wrappers
  import opened Numerals
  import opened Scan
  import opened Colors
  import opened Theme
  import opened Placement
  import opened Svg
  import opened Editor

  /** The fill of the background rectangle: the background colour if it is in use, else white. */
  function BackgroundFill(s: State): string {
    if s.useBackground then s.backgroundColor else "white"
  }

  /** The fill of item `i`: `colors[i % colors.length]` over `Object.values(colorTheme)`. */
  function ItemFill(s: State, i: nat): string {
    FillAt(ThemeValues(s.colorTheme), i)
  }

  /** The structure `drawFavicon` writes out. */
  function Compose(s: State): (doc: Document)
    ensures doc.background == (if s.useBackground then s.backgroundColor else "white")
    ensures |doc.items| == |s.positions|
    ensures forall i :: 0 <= i < |doc.items| ==>
      && ShapeOf(doc.items[i]) == s.shape
      && FitsBox(doc.items[i], PlacementBox(s.positions[i]))
      && doc.items[i].fill ==
           (if |s.colorTheme| == 0 then "undefined" else ThemeValues(s.colorTheme)[i % |s.colorTheme|])
  {
    var items := seq(|s.positions|, i requires 0 <= i < |s.positions| =>
      DrawShape(s.shape, s.positions[i], ItemFill(s, i)));
    assert |ThemeValues(s.colorTheme)| == |s.colorTheme|;
    assert forall i :: 0 <= i < |items| ==> items[i] == DrawShape(s.shape, s.positions[i], ItemFill(s, i));
    Document(BackgroundFill(s), items)
  }

  /** The markup `drawFavicon` stores for the preview and the download. */
  function DrawFavicon(s: State): (svg: string)
    ensures Header <= svg
    ensures Header + BackgroundTag(if s.useBackground then s.backgroundColor else "white") <= svg
    ensures EndsWith(svg, Close)
  {
    var doc := Compose(s);
    assert doc.background == (if s.useBackground then s.backgroundColor else "white");
    PrefixOfConcat(Header, BackgroundTag(doc.background));
    Render(doc)
  }

  /** Colour texts the markup can carry unambiguously. */
  predicate QuoteFreeColors(s: State) {
    && QuoteFree(s.backgroundColor)
    && forall k :: k in s.colorTheme ==> QuoteFree(s.colorTheme[k])
  }

  /**
    When no colour text contains `"`, the markup reads back as the composed
    document: exactly one background rectangle, then exactly one primitive
    per placement, in placement order.
  */
  lemma DrawFaviconReadsBack(s: State)
    requires QuoteFreeColors(s)
    ensures ParseDocument(DrawFavicon(s)) == Some(Compose(s))
    ensures |Compose(s).items| == |s.positions|
  {
    var doc := Compose(s);
    var colors := ThemeValues(s.colorTheme);
    assert QuoteFree("white") && QuoteFree("undefined");
    forall i | 0 <= i < |doc.items|
      ensures QuoteFree(doc.items[i].fill)
    {
      if |colors| > 0 {
        var c := colors[i % |colors|];
        assert c in s.colorTheme.Values;
        var k :| k in s.colorTheme && s.colorTheme[k] == c;
        assert doc.items[i].fill == c;
      }
    }
    assert WellFormed(doc);
    RenderRoundTrip(doc);
  }

  /**
    In every state the editor reaches, the favicon has one item per count,
    item `i` is filled with theme slot `i % 3`, spans exactly its placement's
    square, and the markup reads back as the composed document.
  */
  lemma ConsistentFavicon(s: State)
    requires Consistent(s)
    ensures |Compose(s).items| == s.itemCount
    ensures forall i :: 0 <= i < s.itemCount ==>
      && Compose(s).items[i].fill == s.colorTheme[i % ThemeSlots]
      && BoundingBox(Compose(s).items[i]) == PlacementBox(s.positions[i])
    ensures ParseDocument(DrawFavicon(s)) == Some(Compose(s))
  {
    var doc := Compose(s);
    forall i | 0 <= i < s.itemCount
      ensures doc.items[i].fill == s.colorTheme[i % ThemeSlots]
      ensures BoundingBox(doc.items[i]) == PlacementBox(s.positions[i])
    {
      DenseThemeFill(s.colorTheme, ThemeSlots, i);
      assert InPlacementRange(s.positions[i]);
      FitsBoxBounds(doc.items[i], PlacementBox(s.positions[i]));
    }
    forall k | k in s.colorTheme
      ensures QuoteFree(s.colorTheme[k])
    {
      ColorTextQuoteFree(s.colorTheme[k]);
    }
    ColorTextQuoteFree(s.backgroundColor);
    DrawFaviconReadsBack(s);
  }

  /**
    A worked example: three circles of size 16 on the diagonal, a two-slot
    theme with any colours and the background switched on. In half-units the circles are
    centred at (16, 16), (56, 56) and (96, 96) with radius 16, that is at
    (8, 8), (28, 28) and (48, 48) with radius 8, and their fills cycle
    through the two theme colours.
  */
  lemma ThreeCirclesExample(c0: string, c1: string, bg: string)
    ensures
      var s := State(3, Circle, map[0 := c0, 1 := c1], bg, true,
                     [Position(0, 0, 16), Position(20, 20, 16), Position(40, 40, 16)]);
      Compose(s) == Document(bg, [CircleElem(16, 16, 16, c0), CircleElem(56, 56, 16, c1), CircleElem(96, 96, 16, c0)])
  {
    var theme: ColorTheme := map[0 := c0, 1 := c1];
    var s := State(3, Circle, theme, bg, true,
                   [Position(0, 0, 16), Position(20, 20, 16), Position(40, 40, 16)]);
    var expected := [CircleElem(16, 16, 16, c0), CircleElem(56, 56, 16, c1), CircleElem(96, 96, 16, c0)];
    var doc := Compose(s);
    assert ThemeValues(theme) == [c0, c1] by {
      TwoSlotValues(c0, c1);
    }
    forall i | 0 <= i < 3
      ensures doc.items[i] == expected[i]
    {
      ComposeItem(s, i);
    }
    assert doc.items == expected;
  }

  lemma TwoSlotValues(c0: string, c1: string)
    ensures ThemeValues(map[0 := c0, 1 := c1]) == [c0, c1]
  {
    DenseThemeValues(map[0 := c0, 1 := c1], 2);
  }

  /** Item `i` of the composed document is the shape drawn in placement `i` with fill `i`. */
  lemma ComposeItem(s: State, i: nat)
    requires i < |s.positions|
    ensures Compose(s).items[i] == DrawShape(s.shape, s.positions[i], ItemFill(s, i))
  {
  }

  /** The numerals of the example as printed: 8, 28 and 48. */
  lemma ThreeCirclesNumerals()
    ensures HalfToString(16) == "8"
    ensures HalfToString(56) == "28"
    ensures HalfToString(96) == "48"
  {
    assert NatToString(2) == "2";
    assert NatToString(4) == "4";
  }

  /** The complete markup of one circle of size 16 at the origin, background off. */
  lemma OneCircleMarkup(c: string, bg: string)
    ensures
      DrawFavicon(State(1, Circle, map[0 := c], bg, false, [Position(0, 0, 16)])) ==
        Header
        + "<rect width=\"64\" height=\"64\" fill=\"white\" />"
        + "<circle cx=\"8\" cy=\"8\" r=\"8\" fill=\"" + c + "\" />"
        + "</svg>"
  {
    OneCircleRender(c, bg);
    OneCircleRegroup(c);
  }

  lemma OneCircleRegroup(c: string)
    ensures Header + (BackgroundOpen + ("white" + ("\" />" + (("<circle cx=\"8\" cy=\"8\" r=\"8\" fill=\"" + c + "\" />") + Close))))
         == Header
            + "<rect width=\"64\" height=\"64\" fill=\"white\" />"
            + "<circle cx=\"8\" cy=\"8\" r=\"8\" fill=\"" + c + "\" />"
            + "</svg>"
  {
    var circle := "<circle cx=\"8\" cy=\"8\" r=\"8\" fill=\"" + c + "\" />";
    LeftNest(Header, BackgroundOpen, "white", "\" />", circle, Close);
    WhiteRect();
  }

  lemma OneCircleRender(c: string, bg: string)
    ensures
      DrawFavicon(State(1, Circle, map[0 := c], bg, false, [Position(0, 0, 16)])) ==
        Header + (BackgroundOpen + ("white" + ("\" />" + (("<circle cx=\"8\" cy=\"8\" r=\"8\" fill=\"" + c + "\" />") + Close))))
  {
    OneCircleDocument(c, bg);
    OneCircleItem(c);
  }

  /** The background tag of the white rectangle, spelled out. */
  lemma WhiteRect()
    ensures BackgroundOpen + "white" + "\" />" == "<rect width=\"64\" height=\"64\" fill=\"white\" />"
  {
  }

  lemma LeftNest<T>(a: seq<T>, b: seq<T>, c: seq<T>, d: seq<T>, e: seq<T>, f: seq<T>)
    ensures a + (b + (c + (d + (e + f)))) == a + (b + c + d) + e + f
  {
  }

  lemma OneCircleDocument(c: string, bg: string)
    ensures Compose(State(1, Circle, map[0 := c], bg, false, [Position(0, 0, 16)]))
         == Document("white", [CircleElem(16, 16, 16, c)])
  {
    DenseThemeValues(map[0 := c], 1);
  }

  lemma OneCircleItem(c: string)
    ensures ItemsThen([CircleElem(16, 16, 16, c)], Close)
         == "<circle cx=\"8\" cy=\"8\" r=\"8\" fill=\"" + c + "\" />" + Close
  {
    var e := CircleElem(16, 16, 16, c);
    assert ItemsThen([e], Close) == ElementThen(e, Close);
    assert ElementThen(e, Close)
        == CircleOpen + ("8" + ("\" cy=\"" + ("8" + ("\" r=\"" + ("8" + FillTail(c, Close)))))) by {
      ThreeCirclesNumerals();
    }
    CircleMarkupRegroup(c);
  }

  lemma CircleMarkupRegroup(c: string)
    ensures CircleOpen + ("8" + ("\" cy=\"" + ("8" + ("\" r=\"" + ("8" + FillTail(c, Close))))))
         == "<circle cx=\"8\" cy=\"8\" r=\"8\" fill=\"" + c + "\" />" + Close
  {
    assert CircleOpen + ("8" + ("\" cy=\"" + ("8" + ("\" r=\"" + ("8" + "\" fill=\"")))))
        == "<circle cx=\"8\" cy=\"8\" r=\"8\" fill=\"";
  }
}
