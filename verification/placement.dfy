/**
  Item placements and `generatePositions`.

  A placement is the top-left corner and edge length of one item on the
  64 x 64 canvas. Each coordinate is drawn independently; nothing keeps an
  item inside the canvas (`x + size` may exceed 64) and overlaps are allowed.
*/
module Placement {

  datatype Position = Position(x: int, y: int, size: int)

  /** The raw draws `floor(random * 56)`, `floor(random * 56)`, `floor(random * 24)` of one item. */
  datatype PositionDraw = PositionDraw(x: int, y: int, size: int)

  predicate ValidPositionDraw(d: PositionDraw) {
    0 <= d.x < 56 && 0 <= d.y < 56 && 0 <= d.size < 24
  }

  predicate ValidPositionDraws(ds: seq<PositionDraw>) {
    forall i :: 0 <= i < |ds| ==> ValidPositionDraw(ds[i])
  }

  /** The placements the generator can produce. */
  predicate InPlacementRange(p: Position) {
    0 <= p.x <= 55 && 0 <= p.y <= 55 && 8 <= p.size <= 31
  }

  predicate AllInPlacementRange(ps: seq<Position>) {
    forall i :: 0 <= i < |ps| ==> InPlacementRange(ps[i])
  }

  /** The length `Array.from({ length: count })` gives an integer count. */
  function ArrayLength(count: int): (n: nat)
    ensures count >= 0 ==> n == count
  {
    if count < 0 then 0 else count
  }

  /** One placement from its three draws. */
  function PositionOf(d: PositionDraw): (p: Position)
    requires ValidPositionDraw(d)
    ensures InPlacementRange(p)
  {
    Position(d.x, d.y, d.size + 8)
  }

  /** `generatePositions(count)`: one placement per draw, in draw order. */
  function GeneratePositions(count: int, draws: seq<PositionDraw>): (ps: seq<Position>)
    requires |draws| == ArrayLength(count)
    requires ValidPositionDraws(draws)
    ensures |ps| == ArrayLength(count)
    ensures AllInPlacementRange(ps)
  {
    seq(|draws|, i requires 0 <= i < |draws| => PositionOf(draws[i]))
  }

  /** The draws that produce the given placements, one per placement. */
  function DrawsOf(ps: seq<Position>): (ds: seq<PositionDraw>)
    requires AllInPlacementRange(ps)
    ensures |ds| == |ps|
    ensures ValidPositionDraws(ds)
  {
    seq(|ps|, i requires 0 <= i < |ps| => PositionDraw(ps[i].x, ps[i].y, ps[i].size - 8))
  }

  /**
    Every sequence of in-range placements of the right length is a possible
    result of the generator: its bounds are exact.
  */
  lemma GeneratePositionsOnto(count: int, ps: seq<Position>)
    requires |ps| == ArrayLength(count)
    requires AllInPlacementRange(ps)
    ensures GeneratePositions(count, DrawsOf(ps)) == ps
  {
  }

  /**
    How far a generated item reaches: never past 86 on either axis, and 86
    is reached. So the generator does not keep items inside the 64 x 64
    canvas.
  */
  lemma PlacementReach()
    ensures forall d :: ValidPositionDraw(d) ==>
      && 0 <= PositionOf(d).x && PositionOf(d).x + PositionOf(d).size <= 86
      && 0 <= PositionOf(d).y && PositionOf(d).y + PositionOf(d).size <= 86
    ensures exists d :: ValidPositionDraw(d) && PositionOf(d).x + PositionOf(d).size == 86
    ensures exists d :: ValidPositionDraw(d) && PositionOf(d).y + PositionOf(d).size == 86
  {
    var d := PositionDraw(55, 55, 23);
    assert ValidPositionDraw(d);
    assert PositionOf(d).x + PositionOf(d).size == 86;
    assert PositionOf(d).y + PositionOf(d).size == 86;
  }
}
