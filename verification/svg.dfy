/**
  The SVG markup the favicon composer writes: the primitives `drawShape`
  emits, how they sit in an item's box, the printed document, and a reader
  for that document which shows the printing loses nothing.

  All numbers are in half-units (see `Numerals`).
*/
module Svg {
  import opened Wrappers
  import opened Numerals
  import opened Scan
  import opened Placement

  datatype Shape = Circle | Triangle | Square

  /** A point, in half-units. */
  datatype Point = Point(x: int, y: int)

  /** One primitive of the document, every number in half-units. */
  datatype Element =
    | CircleElem(cx: int, cy: int, r: int, fill: string)
    | PolygonElem(a: Point, b: Point, c: Point, fill: string)
    | RectElem(x: int, y: int, width: int, height: int, fill: string)

  /** The full-canvas background fill followed by the items in drawing order. */
  datatype Document = Document(background: string, items: seq<Element>)

  /** An axis-aligned box, in half-units. */
  datatype Box = Box(left: int, top: int, right: int, bottom: int)

  /** The square an item occupies: corner `(x, y)`, edge `size`. */
  function PlacementBox(p: Position): Box {
    Box(2 * p.x, 2 * p.y, 2 * (p.x + p.size), 2 * (p.y + p.size))
  }

  function ShapeOf(e: Element): Shape {
    match e
    case CircleElem(_, _, _, _) => Circle
    case PolygonElem(_, _, _, _) => Triangle
    case RectElem(_, _, _, _, _) => Square
  }

  /**
    How each primitive sits in a box: the circle is inscribed (centred, with
    the box edge as diameter), the triangle has its apex at the middle of the
    top edge and its base on the bottom corners, and the square is the box.
  */
  predicate FitsBox(e: Element, box: Box) {
    match e
    case CircleElem(cx, cy, r, _) =>
      && 2 * cx == box.left + box.right
      && 2 * cy == box.top + box.bottom
      && 2 * r == box.right - box.left
      && 2 * r == box.bottom - box.top
    case PolygonElem(a, b, c, _) =>
      && 2 * a.x == box.left + box.right && a.y == box.top
      && b == Point(box.right, box.bottom)
      && c == Point(box.left, box.bottom)
    case RectElem(x, y, w, h, _) =>
      && x == box.left && y == box.top
      && w == box.right - box.left
      && h == box.bottom - box.top
      && w == h
  }

  /** `drawShape(x, y, size, color)` for the currently selected shape. */
  function DrawShape(shape: Shape, p: Position, fill: string): (e: Element)
    ensures ShapeOf(e) == shape
    ensures e.fill == fill
    ensures FitsBox(e, PlacementBox(p))
  {
    match shape
    case Circle => CircleElem(2 * p.x + p.size, 2 * p.y + p.size, p.size, fill)
    case Triangle =>
      PolygonElem(Point(2 * p.x + p.size, 2 * p.y), Point(2 * (p.x + p.size), 2 * (p.y + p.size)),
                  Point(2 * p.x, 2 * (p.y + p.size)), fill)
    case Square => RectElem(2 * p.x, 2 * p.y, 2 * p.size, 2 * p.size, fill)
  }

  function Min3(a: int, b: int, c: int): (m: int)
    ensures m <= a && m <= b && m <= c
    ensures m == a || m == b || m == c
  {
    if a <= b && a <= c then a else if b <= c then b else c
  }

  function Max3(a: int, b: int, c: int): (m: int)
    ensures m >= a && m >= b && m >= c
    ensures m == a || m == b || m == c
  {
    if a >= b && a >= c then a else if b >= c then b else c
  }

  /** The smallest box containing the primitive's outline. */
  function BoundingBox(e: Element): Box {
    match e
    case CircleElem(cx, cy, r, _) => Box(cx - r, cy - r, cx + r, cy + r)
    case PolygonElem(a, b, c, _) =>
      Box(Min3(a.x, b.x, c.x), Min3(a.y, b.y, c.y), Max3(a.x, b.x, c.x), Max3(a.y, b.y, c.y))
    case RectElem(x, y, w, h, _) => Box(x, y, x + w, y + h)
  }

  /** A primitive fitted to a non-degenerate box exactly spans that box. */
  lemma FitsBoxBounds(e: Element, box: Box)
    requires FitsBox(e, box)
    requires box.left <= box.right && box.top <= box.bottom
    ensures BoundingBox(e) == box
  {
    match e
    case CircleElem(_, _, _, _) =>
    case PolygonElem(a, b, c, _) =>
      assert box.left <= a.x <= box.right;
    case RectElem(_, _, _, _, _) =>
  }

  /** Every drawn item spans exactly its placement's square. */
  lemma DrawShapeBounds(shape: Shape, p: Position, fill: string)
    requires p.size >= 0
    ensures BoundingBox(DrawShape(shape, p, fill)) == PlacementBox(p)
  {
    FitsBoxBounds(DrawShape(shape, p, fill), PlacementBox(p));
  }

  // ---------------------------------------------------------------------
  // Printing

  const Header := "<svg xmlns=\"http://www.w3.org/2000/svg\" viewBox=\"0 0 64 64\" width=\"64\" height=\"64\">"
  const BackgroundOpen := "<rect width=\"64\" height=\"64\" fill=\""
  const Close := "</svg>"
  const CircleOpen := "<circle cx=\""
  const PolygonOpen := "<polygon points=\""
  const SquareOpen := "<rect x=\""

  /** The ` fill="..." />` that ends every primitive, followed by `t`. */
  function FillTail(fill: string, t: string): string {
    "\" fill=\"" + (fill + ("\" />" + t))
  }

  /** The full-canvas background rectangle. */
  function BackgroundTag(fill: string): string {
    BackgroundOpen + (fill + "\" />")
  }

  /** The opening of a primitive's tag, up to its first number. */
  function OpenTag(e: Element): string {
    match e
    case CircleElem(_, _, _, _) => CircleOpen
    case PolygonElem(_, _, _, _) => PolygonOpen
    case RectElem(_, _, _, _, _) => SquareOpen
  }

  /**
    The markup of one primitive, followed by `t`: it opens with the
    primitive's tag and leaves `t` intact at its end.
  */
  function ElementThen(e: Element, t: string): (m: string)
    ensures OpenTag(e) <= m
    ensures EndsWith(m, t)
  {
    var u := FillTail(e.fill, t);
    FillTailEndsWith(e.fill, t);
    match e
    case CircleElem(cx, cy, r, _) =>
      var u1 := HalfToString(r) + u;
      EndsWithPrepend(HalfToString(r), u, t);
      EndsWithPrepend("\" r=\"", u1, t);
      EndsWithPrepend(HalfToString(cy), "\" r=\"" + u1, t);
      var u2 := HalfToString(cy) + ("\" r=\"" + u1);
      EndsWithPrepend("\" cy=\"", u2, t);
      EndsWithPrepend(HalfToString(cx), "\" cy=\"" + u2, t);
      EndsWithPrepend(CircleOpen, HalfToString(cx) + ("\" cy=\"" + u2), t);
      PrefixOfConcat(CircleOpen, HalfToString(cx) + ("\" cy=\"" + u2));
      CircleOpen + (HalfToString(cx) + ("\" cy=\"" + u2))
    case PolygonElem(a, b, c, _) =>
      var v1 := HalfToString(c.x) + ("," + (HalfToString(c.y) + u));
      PointThenEndsWith(c, u, t);
      EndsWithPrepend(" ", v1, t);
      var v2 := HalfToString(b.x) + ("," + (HalfToString(b.y) + (" " + v1)));
      PointThenEndsWith(b, " " + v1, t);
      EndsWithPrepend(" ", v2, t);
      var v3 := HalfToString(a.x) + ("," + (HalfToString(a.y) + (" " + v2)));
      PointThenEndsWith(a, " " + v2, t);
      EndsWithPrepend(PolygonOpen, v3, t);
      PrefixOfConcat(PolygonOpen, v3);
      PolygonOpen + v3
    case RectElem(x, y, w, h, _) =>
      var u1 := HalfToString(h) + u;
      EndsWithPrepend(HalfToString(h), u, t);
      EndsWithPrepend("\" height=\"", u1, t);
      EndsWithPrepend(HalfToString(w), "\" height=\"" + u1, t);
      var u2 := HalfToString(w) + ("\" height=\"" + u1);
      EndsWithPrepend("\" width=\"", u2, t);
      EndsWithPrepend(HalfToString(y), "\" width=\"" + u2, t);
      var u3 := HalfToString(y) + ("\" width=\"" + u2);
      EndsWithPrepend("\" y=\"", u3, t);
      EndsWithPrepend(HalfToString(x), "\" y=\"" + u3, t);
      EndsWithPrepend(SquareOpen, HalfToString(x) + ("\" y=\"" + u3), t);
      PrefixOfConcat(SquareOpen, HalfToString(x) + ("\" y=\"" + u3));
      SquareOpen + (HalfToString(x) + ("\" y=\"" + u3))
  }

  /** The markup of the items, in order, followed by `t`. */
  function ItemsThen(items: seq<Element>, t: string): string
    decreases |items|
  {
    if |items| == 0 then t else ElementThen(items[0], ItemsThen(items[1..], t))
  }

  /** The document as `drawFavicon` accumulates it. */
  function Render(doc: Document): (svg: string)
    ensures Header + BackgroundTag(doc.background) <= svg
    ensures EndsWith(svg, Close)
  {
    var body := ItemsThen(doc.items, Close);
    var svg := Header + (BackgroundOpen + (doc.background + ("\" />" + body)));
    Regroup(Header, BackgroundOpen, doc.background, "\" />", body);
    PrefixOfConcat(Header + BackgroundTag(doc.background), body);
    ItemsThenEndsWith(doc.items, Close);
    EndsWithPrepend(Header + BackgroundTag(doc.background), body, Close);
    svg
  }

  lemma FillTailEndsWith(fill: string, t: string)
    ensures EndsWith(FillTail(fill, t), t)
  {
    EndsWithItself(t);
    EndsWithPrepend("\" />", t, t);
    EndsWithPrepend(fill, "\" />" + t, t);
    EndsWithPrepend("\" fill=\"", fill + ("\" />" + t), t);
  }

  lemma PointThenEndsWith(p: Point, u: string, t: string)
    requires EndsWith(u, t)
    ensures EndsWith(HalfToString(p.x) + ("," + (HalfToString(p.y) + u)), t)
  {
    EndsWithPrepend(HalfToString(p.y), u, t);
    EndsWithPrepend(",", HalfToString(p.y) + u, t);
    EndsWithPrepend(HalfToString(p.x), "," + (HalfToString(p.y) + u), t);
  }

  lemma {:induction false} ItemsThenEndsWith(items: seq<Element>, t: string)
    ensures EndsWith(ItemsThen(items, t), t)
    decreases |items|
  {
    if |items| > 0 {
      ItemsThenEndsWith(items[1..], t);
      var rest := ItemsThen(items[1..], t);
      EndsWithTransitive(ElementThen(items[0], rest), rest, t);
    } else {
      EndsWithItself(t);
    }
  }

  // ---------------------------------------------------------------------
  // Reading the markup back

  /** A document whose attribute values can be read back: no `"` inside a fill. */
  predicate WellFormed(doc: Document) {
    && QuoteFree(doc.background)
    && forall i :: 0 <= i < |doc.items| ==> QuoteFree(doc.items[i].fill)
  }

  function ReadFillTail(s: string): (r: Option<(string, string)>)
    ensures r.Some? ==> |r.value.1| < |s|
  {
    var r0 :- Expect("\" fill=\"", s);
    var q :- ReadQuoted(r0);
    var r1 :- Expect(" />", q.1);
    Some((q.0, r1))
  }

  function ReadCircle(s: string): (r: Option<(Element, string)>)
    ensures r.Some? ==> |r.value.1| < |s|
  {
    var cx :- ReadHalf(s);
    var r0 :- Expect("\" cy=\"", cx.1);
    var cy :- ReadHalf(r0);
    var r1 :- Expect("\" r=\"", cy.1);
    var rad :- ReadHalf(r1);
    var f :- ReadFillTail(rad.1);
    Some((CircleElem(cx.0, cy.0, rad.0, f.0), f.1))
  }

  function ReadPoint(s: string): (r: Option<(Point, string)>)
    ensures r.Some? ==> |r.value.1| < |s|
  {
    var x :- ReadHalf(s);
    var r0 :- Expect(",", x.1);
    var y :- ReadHalf(r0);
    Some((Point(x.0, y.0), y.1))
  }

  function ReadPolygon(s: string): (r: Option<(Element, string)>)
    ensures r.Some? ==> |r.value.1| < |s|
  {
    var a :- ReadPoint(s);
    var r0 :- Expect(" ", a.1);
    var b :- ReadPoint(r0);
    var r1 :- Expect(" ", b.1);
    var c :- ReadPoint(r1);
    var f :- ReadFillTail(c.1);
    Some((PolygonElem(a.0, b.0, c.0, f.0), f.1))
  }

  function ReadSquare(s: string): (r: Option<(Element, string)>)
    ensures r.Some? ==> |r.value.1| < |s|
  {
    var x :- ReadHalf(s);
    var r0 :- Expect("\" y=\"", x.1);
    var y :- ReadHalf(r0);
    var r1 :- Expect("\" width=\"", y.1);
    var w :- ReadHalf(r1);
    var r2 :- Expect("\" height=\"", w.1);
    var h :- ReadHalf(r2);
    var f :- ReadFillTail(h.1);
    Some((RectElem(x.0, y.0, w.0, h.0, f.0), f.1))
  }

  /** Reads one primitive at the front of `s`. */
  function ReadElement(s: string): (r: Option<(Element, string)>)
    ensures r.Some? ==> |r.value.1| < |s|
  {
    if CircleOpen <= s then ReadCircle(s[|CircleOpen|..])
    else if PolygonOpen <= s then ReadPolygon(s[|PolygonOpen|..])
    else if SquareOpen <= s then ReadSquare(s[|SquareOpen|..])
    else None
  }

  /** Reads primitives up to the closing tag, which must end the text. */
  function ReadItems(s: string): Option<seq<Element>>
    decreases |s|
  {
    if s == Close then Some([])
    else
      var p :- ReadElement(s);
      var rest :- ReadItems(p.1);
      Some([p.0] + rest)
  }

  /** Reads a whole document printed by `Render`. */
  function ParseDocument(s: string): Option<Document>
  {
    var r0 :- Expect(Header, s);
    var r1 :- Expect(BackgroundOpen, r0);
    var bg :- ReadQuoted(r1);
    var r2 :- Expect(" />", bg.1);
    var items :- ReadItems(r2);
    Some(Document(bg.0, items))
  }

  lemma SplitClosingQuote(t: string)
    ensures "\" />" + t == "\"" + (" />" + t)
  {
  }

  lemma ReadFillTailRoundTrip(fill: string, t: string)
    requires QuoteFree(fill)
    ensures ReadFillTail(FillTail(fill, t)) == Some((fill, t))
  {
    ExpectRoundTrip("\" fill=\"", fill + ("\" />" + t));
    assert "\" />" + t == "\"" + (" />" + t);
    ReadQuotedRoundTrip(fill, " />" + t);
    ExpectRoundTrip(" />", t);
  }

  lemma ReadPointRoundTrip(p: Point, t: string)
    requires Delimited(t)
    ensures ReadPoint(HalfToString(p.x) + ("," + (HalfToString(p.y) + t))) == Some((p, t))
  {
    ReadHalfRoundTrip(p.x, "," + (HalfToString(p.y) + t));
    ExpectRoundTrip(",", HalfToString(p.y) + t);
    ReadHalfRoundTrip(p.y, t);
  }

  lemma ReadCircleRoundTrip(cx: int, cy: int, r: int, fill: string, t: string)
    requires QuoteFree(fill)
    ensures ReadCircle(HalfToString(cx) + ("\" cy=\"" + (HalfToString(cy)
              + ("\" r=\"" + (HalfToString(r) + FillTail(fill, t))))))
         == Some((CircleElem(cx, cy, r, fill), t))
  {
    var u2 := HalfToString(r) + FillTail(fill, t);
    var u1 := HalfToString(cy) + ("\" r=\"" + u2);
    ReadHalfRoundTrip(cx, "\" cy=\"" + u1);
    ExpectRoundTrip("\" cy=\"", u1);
    ReadHalfRoundTrip(cy, "\" r=\"" + u2);
    ExpectRoundTrip("\" r=\"", u2);
    ReadHalfRoundTrip(r, FillTail(fill, t));
    ReadFillTailRoundTrip(fill, t);
  }

  lemma ReadPolygonRoundTrip(a: Point, b: Point, c: Point, fill: string, t: string)
    requires QuoteFree(fill)
    ensures
      var tc := FillTail(fill, t);
      var pc := HalfToString(c.x) + ("," + (HalfToString(c.y) + tc));
      var pb := HalfToString(b.x) + ("," + (HalfToString(b.y) + (" " + pc)));
      ReadPolygon(HalfToString(a.x) + ("," + (HalfToString(a.y) + (" " + pb))))
        == Some((PolygonElem(a, b, c, fill), t))
  {
    var tc := FillTail(fill, t);
    var pc := HalfToString(c.x) + ("," + (HalfToString(c.y) + tc));
    var pb := HalfToString(b.x) + ("," + (HalfToString(b.y) + (" " + pc)));
    ReadPointRoundTrip(a, " " + pb);
    ExpectRoundTrip(" ", pb);
    ReadPointRoundTrip(b, " " + pc);
    ExpectRoundTrip(" ", pc);
    ReadPointRoundTrip(c, tc);
    ReadFillTailRoundTrip(fill, t);
  }

  lemma ReadSquareRoundTrip(x: int, y: int, w: int, h: int, fill: string, t: string)
    requires QuoteFree(fill)
    ensures ReadSquare(HalfToString(x) + ("\" y=\"" + (HalfToString(y)
              + ("\" width=\"" + (HalfToString(w) + ("\" height=\"" + (HalfToString(h)
              + FillTail(fill, t))))))))
         == Some((RectElem(x, y, w, h, fill), t))
  {
    var u3 := HalfToString(h) + FillTail(fill, t);
    var u2 := HalfToString(w) + ("\" height=\"" + u3);
    var u1 := HalfToString(y) + ("\" width=\"" + u2);
    ReadHalfRoundTrip(x, "\" y=\"" + u1);
    ExpectRoundTrip("\" y=\"", u1);
    ReadHalfRoundTrip(y, "\" width=\"" + u2);
    ExpectRoundTrip("\" width=\"", u2);
    ReadHalfRoundTrip(w, "\" height=\"" + u3);
    ExpectRoundTrip("\" height=\"", u3);
    ReadHalfRoundTrip(h, FillTail(fill, t));
    ReadFillTailRoundTrip(fill, t);
  }

  lemma ElementRoundTrip(e: Element, t: string)
    requires QuoteFree(e.fill)
    ensures ReadElement(ElementThen(e, t)) == Some((e, t))
  {
    match e
    case CircleElem(cx, cy, r, fill) => CircleElementRoundTrip(cx, cy, r, fill, t);
    case PolygonElem(a, b, c, fill) => PolygonElementRoundTrip(a, b, c, fill, t);
    case RectElem(x, y, w, h, fill) => SquareElementRoundTrip(x, y, w, h, fill, t);
  }

  lemma CircleElementRoundTrip(cx: int, cy: int, r: int, fill: string, t: string)
    requires QuoteFree(fill)
    ensures ReadElement(ElementThen(CircleElem(cx, cy, r, fill), t)) == Some((CircleElem(cx, cy, r, fill), t))
  {
    var u0 := HalfToString(cx) + ("\" cy=\"" + (HalfToString(cy)
                + ("\" r=\"" + (HalfToString(r) + FillTail(fill, t)))));
    assert ElementThen(CircleElem(cx, cy, r, fill), t) == CircleOpen + u0;
    ExpectRoundTrip(CircleOpen, u0);
    ReadCircleRoundTrip(cx, cy, r, fill, t);
  }

  lemma PolygonElementRoundTrip(a: Point, b: Point, c: Point, fill: string, t: string)
    requires QuoteFree(fill)
    ensures ReadElement(ElementThen(PolygonElem(a, b, c, fill), t)) == Some((PolygonElem(a, b, c, fill), t))
  {
    var tc := FillTail(fill, t);
    var pc := HalfToString(c.x) + ("," + (HalfToString(c.y) + tc));
    var pb := HalfToString(b.x) + ("," + (HalfToString(b.y) + (" " + pc)));
    var pa := HalfToString(a.x) + ("," + (HalfToString(a.y) + (" " + pb)));
    var s := PolygonOpen + pa;
    assert ElementThen(PolygonElem(a, b, c, fill), t) == s;
    ExpectRoundTrip(PolygonOpen, pa);
    assert !(CircleOpen <= s) by { assert s[1] != CircleOpen[1]; }
    ReadPolygonRoundTrip(a, b, c, fill, t);
  }

  lemma SquareElementRoundTrip(x: int, y: int, w: int, h: int, fill: string, t: string)
    requires QuoteFree(fill)
    ensures ReadElement(ElementThen(RectElem(x, y, w, h, fill), t)) == Some((RectElem(x, y, w, h, fill), t))
  {
    var u0 := HalfToString(x) + ("\" y=\"" + (HalfToString(y)
                + ("\" width=\"" + (HalfToString(w) + ("\" height=\"" + (HalfToString(h)
                + FillTail(fill, t)))))));
    var s := SquareOpen + u0;
    assert ElementThen(RectElem(x, y, w, h, fill), t) == s;
    ExpectRoundTrip(SquareOpen, u0);
    assert !(CircleOpen <= s) by { assert s[1] != CircleOpen[1]; }
    assert !(PolygonOpen <= s) by { assert s[1] != PolygonOpen[1]; }
    ReadSquareRoundTrip(x, y, w, h, fill, t);
  }

  lemma ElementThenIsNotClose(e: Element, t: string)
    ensures ElementThen(e, t) != Close
  {
    var s := ElementThen(e, t);
    match e
    case CircleElem(_, _, _, _) =>
      assert s[1] == CircleOpen[1];
    case PolygonElem(_, _, _, _) =>
      assert s[1] == PolygonOpen[1];
    case RectElem(_, _, _, _, _) =>
      assert s[1] == SquareOpen[1];
  }

  lemma {:induction false} ItemsRoundTrip(items: seq<Element>)
    requires forall i :: 0 <= i < |items| ==> QuoteFree(items[i].fill)
    ensures ReadItems(ItemsThen(items, Close)) == Some(items)
    decreases |items|
  {
    if |items| > 0 {
      var t := ItemsThen(items[1..], Close);
      var s := ItemsThen(items, Close);
      assert s == ElementThen(items[0], t);
      assert s != Close by {
        ElementThenIsNotClose(items[0], t);
      }
      assert ReadElement(s) == Some((items[0], t)) by {
        ElementRoundTrip(items[0], t);
      }
      assert ReadItems(t) == Some(items[1..]) by {
        ItemsRoundTrip(items[1..]);
      }
      assert [items[0]] + items[1..] == items;
    }
  }

  /**
    The printed document reads back as the document: the markup is a
    faithful, unambiguous encoding of the background fill and of every item,
    in order.
  */
  lemma RenderRoundTrip(doc: Document)
    requires WellFormed(doc)
    ensures ParseDocument(Render(doc)) == Some(doc)
  {
    var body := ItemsThen(doc.items, Close);
    var u2 := " />" + body;
    var u1 := doc.background + ("\"" + u2);
    var u0 := BackgroundOpen + u1;
    var s := Render(doc);
    assert s == Header + u0 by {
      SplitClosingQuote(body);
    }
    assert Expect(Header, s) == Some(u0) by {
      ExpectRoundTrip(Header, u0);
    }
    assert Expect(BackgroundOpen, u0) == Some(u1) by {
      ExpectRoundTrip(BackgroundOpen, u1);
    }
    assert ReadQuoted(u1) == Some((doc.background, u2)) by {
      ReadQuotedRoundTrip(doc.background, u2);
    }
    assert Expect(" />", u2) == Some(body) by {
      ExpectRoundTrip(" />", body);
    }
    assert ReadItems(body) == Some(doc.items) by {
      ItemsRoundTrip(doc.items);
    }
  }
}
