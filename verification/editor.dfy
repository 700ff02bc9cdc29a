/**
  The favicon editor's state and the user actions that change it.

  The editor keeps its settings in separate pieces of component state; here
  they form one immutable record, and each action is a pure step from one
  record to the next. Random draws are inputs of the step.
*/
module Editor {
  import opened Colors
  import opened Theme
  import opened Placement
  import opened Svg

  /** The settings one composition is made from. */
  datatype State = State(
    itemCount: int,
    shape: Shape,
    colorTheme: ColorTheme,
    backgroundColor: string,
    useBackground: bool,
    positions: seq<Position>)

  /** The values the component starts with, before any effect has run. */
  const Initial := State(3, Circle, map[], "", false, [])

  /** Number of theme slots the editor offers and fills. */
  const ThemeSlots := 3

  /**
    What every state the editor shows satisfies: a count from the slider's
    range, one in-range placement per item, theme slots `0 .. 2` holding
    generated theme colours, and a generated background colour.
  */
  ghost predicate Consistent(s: State) {
    && 1 <= s.itemCount <= 10
    && |s.positions| == s.itemCount
    && AllInPlacementRange(s.positions)
    && DenseTheme(s.colorTheme, ThemeSlots)
    && ThemeTexts(s.colorTheme)
    && IsBackgroundText(s.backgroundColor)
  }

  /** `regenerateSingleColor(index)`: a fresh theme colour in slot `index` only. */
  function RegenerateSingleColor(s: State, index: nat, d: HslDraw): (r: State)
    requires ValidThemeDraw(d)
    ensures r == s.(colorTheme := r.colorTheme)
    ensures r.colorTheme.Keys == s.colorTheme.Keys + {index}
    ensures IsThemeText(r.colorTheme[index])
    ensures forall k :: k in s.colorTheme && k != index ==> r.colorTheme[k] == s.colorTheme[k]
  {
    s.(colorTheme := s.colorTheme[index := ThemeText(d)])
  }

  /** Regenerating one of the three offered slots keeps the state consistent. */
  lemma RegenerateSingleColorConsistent(s: State, index: nat, d: HslDraw)
    requires Consistent(s)
    requires index < ThemeSlots
    requires ValidThemeDraw(d)
    ensures Consistent(RegenerateSingleColor(s, index, d))
  {
    var r := RegenerateSingleColor(s, index, d);
    ThemeTextsUpdate(s.colorTheme, index, ThemeText(d));
    assert r.colorTheme.Keys == s.colorTheme.Keys;
    assert DenseTheme(r.colorTheme, ThemeSlots);
    assert r.backgroundColor == s.backgroundColor && r.positions == s.positions;
  }

  /** `regenerateBackgroundColor`: a fresh background colour, nothing else. */
  function RegenerateBackground(s: State, d: HslDraw): (r: State)
    requires ValidBackgroundDraw(d)
    ensures r == s.(backgroundColor := r.backgroundColor)
    ensures IsBackgroundText(r.backgroundColor)
    ensures Consistent(s) ==> Consistent(r)
  {
    s.(backgroundColor := BackgroundText(d))
  }

  /** The "Reposition" button: new placements for the current count, nothing else. */
  function Reposition(s: State, draws: seq<PositionDraw>): (r: State)
    requires |draws| == ArrayLength(s.itemCount)
    requires ValidPositionDraws(draws)
    ensures r == s.(positions := r.positions)
    ensures |r.positions| == ArrayLength(s.itemCount)
    ensures AllInPlacementRange(r.positions)
    ensures Consistent(s) ==> Consistent(r)
  {
    s.(positions := GeneratePositions(s.itemCount, draws))
  }

  /** The background switch: sets whether the background colour is used, nothing else. */
  function ToggleBackground(s: State, checked: bool): (r: State)
    ensures r.useBackground == checked
    ensures r == s.(useBackground := r.useBackground)
    ensures Consistent(s) ==> Consistent(r)
  {
    s.(useBackground := checked)
  }

  /** The shape selector: sets the shape, nothing else. */
  function SelectShape(s: State, shape: Shape): (r: State)
    ensures r.shape == shape
    ensures r == s.(shape := r.shape)
    ensures Consistent(s) ==> Consistent(r)
  {
    s.(shape := shape)
  }

  /**
    The effect that runs after a render in which the item count changed: it
    replaces the placements with a fresh set for the new count. When the
    count did not change it does not run.
  */
  function CountEffect(prev: State, next: State, draws: seq<PositionDraw>): (r: State)
    requires next.itemCount != prev.itemCount ==> |draws| == ArrayLength(next.itemCount)
    requires next.itemCount != prev.itemCount ==> ValidPositionDraws(draws)
    ensures r == next.(positions := r.positions)
    ensures next.itemCount == prev.itemCount ==> r == next
    ensures next.itemCount != prev.itemCount ==>
      |r.positions| == ArrayLength(next.itemCount) && AllInPlacementRange(r.positions)
  {
    if next.itemCount == prev.itemCount then next
    else next.(positions := GeneratePositions(next.itemCount, draws))
  }

  /** The item-count slider, followed by the count effect. */
  function SetItemCount(s: State, n: int, draws: seq<PositionDraw>): (r: State)
    requires n != s.itemCount ==> |draws| == ArrayLength(n) && ValidPositionDraws(draws)
    ensures r == s.(itemCount := n, positions := r.positions)
    ensures n == s.itemCount ==> r == s
    ensures n != s.itemCount ==> |r.positions| == ArrayLength(n) && AllInPlacementRange(r.positions)
    ensures Consistent(s) && 1 <= n <= 10 ==> Consistent(r)
  {
    CountEffect(s, s.(itemCount := n), draws)
  }

  /** `['circle', 'triangle', 'square'][d]`. */
  function ShapeChoice(d: nat): (shape: Shape)
    requires d < 3
    ensures d == 0 <==> shape == Circle
    ensures d == 1 <==> shape == Triangle
    ensures d == 2 <==> shape == Square
  {
    if d == 0 then Circle else if d == 1 then Triangle else Square
  }

  /** Every random input "Randomize All" consumes. */
  datatype RandomizeDraws = RandomizeDraws(
    count: int,
    shape: int,
    theme: seq<HslDraw>,
    background: HslDraw,
    useBackground: bool,
    positions: seq<PositionDraw>)

  /**
    The draws fit their ranges. The placements are drawn for the count the
    state had BEFORE the update, as the handler reads the old value.
  */
  predicate ValidRandomizeDraws(s: State, d: RandomizeDraws) {
    && 0 <= d.count < 10
    && 0 <= d.shape < 3
    && |d.theme| == ThemeSlots
    && (forall i :: 0 <= i < |d.theme| ==> ValidThemeDraw(d.theme[i]))
    && ValidBackgroundDraw(d.background)
    && |d.positions| == ArrayLength(s.itemCount)
    && ValidPositionDraws(d.positions)
  }

  /**
    The batched update of `randomizeAll`: every field is replaced, but the
    new placements are generated for the old count.
  */
  function RandomizeBatch(s: State, d: RandomizeDraws): (r: State)
    requires ValidRandomizeDraws(s, d)
    ensures 1 <= r.itemCount <= 10
    ensures DenseTheme(r.colorTheme, ThemeSlots)
    ensures ThemeTexts(r.colorTheme)
    ensures IsBackgroundText(r.backgroundColor)
    ensures r.useBackground == d.useBackground
    ensures |r.positions| == ArrayLength(s.itemCount)
    ensures AllInPlacementRange(r.positions)
  {
    State(
      d.count + 1,
      ShapeChoice(d.shape),
      NewTheme(d.theme),
      BackgroundText(d.background),
      d.useBackground,
      GeneratePositions(s.itemCount, d.positions))
  }

  /**
    "Randomize All" as the user sees it: the batched update, then the count
    effect, which regenerates the placements if the count changed. From any
    state whatsoever the result is consistent.
  */
  function RandomizeAll(s: State, d: RandomizeDraws, effectDraws: seq<PositionDraw>): (r: State)
    requires ValidRandomizeDraws(s, d)
    requires d.count + 1 != s.itemCount ==> |effectDraws| == d.count + 1
    requires d.count + 1 != s.itemCount ==> ValidPositionDraws(effectDraws)
    ensures Consistent(r)
    ensures r == RandomizeBatch(s, d).(positions := r.positions)
  {
    CountEffect(s, RandomizeBatch(s, d), effectDraws)
  }

  /**
    The state after mounting: the first effect fills theme slots `0 .. 2` and
    the background colour, and the count effect places the initial three
    items.
  */
  function Mounted(themeDraws: seq<HslDraw>, background: HslDraw, positionDraws: seq<PositionDraw>): (r: State)
    requires |themeDraws| == ThemeSlots
    requires forall i :: 0 <= i < |themeDraws| ==> ValidThemeDraw(themeDraws[i])
    requires ValidBackgroundDraw(background)
    requires |positionDraws| == Initial.itemCount
    requires ValidPositionDraws(positionDraws)
    ensures Consistent(r)
    ensures r.itemCount == 3 && r.shape == Circle && !r.useBackground
  {
    Initial.(colorTheme := NewTheme(themeDraws), backgroundColor := BackgroundText(background),
             positions := GeneratePositions(Initial.itemCount, positionDraws))
  }

  // ---------------------------------------------------------------------
  // The editor as a reducer over user actions

  datatype Action =
    | RegenerateColorAction(index: nat, draw: HslDraw)
    | RegenerateBackgroundAction(draw: HslDraw)
    | RepositionAction(draws: seq<PositionDraw>)
    | ToggleBackgroundAction(checked: bool)
    | SelectShapeAction(shape: Shape)
    | SetItemCountAction(count: int, draws: seq<PositionDraw>)
    | RandomizeAllAction(randomize: RandomizeDraws, effectDraws: seq<PositionDraw>)

  /**
    An action the user interface can issue in state `s`: a theme button
    index `0 .. 2`, a slider value `1 .. 10`, and draws in their ranges.
  */
  predicate Enabled(s: State, a: Action) {
    match a
    case RegenerateColorAction(index, d) => index < ThemeSlots && ValidThemeDraw(d)
    case RegenerateBackgroundAction(d) => ValidBackgroundDraw(d)
    case RepositionAction(draws) => |draws| == ArrayLength(s.itemCount) && ValidPositionDraws(draws)
    case ToggleBackgroundAction(_) => true
    case SelectShapeAction(_) => true
    case SetItemCountAction(n, draws) =>
      && 1 <= n <= 10
      && (n != s.itemCount ==> |draws| == ArrayLength(n) && ValidPositionDraws(draws))
    case RandomizeAllAction(d, effectDraws) =>
      && ValidRandomizeDraws(s, d)
      && (d.count + 1 != s.itemCount ==> |effectDraws| == d.count + 1 && ValidPositionDraws(effectDraws))
  }

  /**
    One user action, dispatched to its handler. Each field can change only
    through the controls that set it; "Randomize All" may change them all.
  */
  function Step(s: State, a: Action): (r: State)
    requires Enabled(s, a)
    ensures r.itemCount != s.itemCount ==> a.SetItemCountAction? || a.RandomizeAllAction?
    ensures r.shape != s.shape ==> a.SelectShapeAction? || a.RandomizeAllAction?
    ensures r.colorTheme != s.colorTheme ==> a.RegenerateColorAction? || a.RandomizeAllAction?
    ensures r.backgroundColor != s.backgroundColor ==> a.RegenerateBackgroundAction? || a.RandomizeAllAction?
    ensures r.useBackground != s.useBackground ==> a.ToggleBackgroundAction? || a.RandomizeAllAction?
    ensures r.positions != s.positions ==>
      a.RepositionAction? || a.SetItemCountAction? || a.RandomizeAllAction?
  {
    match a
    case RegenerateColorAction(index, d) => RegenerateSingleColor(s, index, d)
    case RegenerateBackgroundAction(d) => RegenerateBackground(s, d)
    case RepositionAction(draws) => Reposition(s, draws)
    case ToggleBackgroundAction(checked) => ToggleBackground(s, checked)
    case SelectShapeAction(shape) => SelectShape(s, shape)
    case SetItemCountAction(n, draws) => SetItemCount(s, n, draws)
    case RandomizeAllAction(d, effectDraws) => RandomizeAll(s, d, effectDraws)
  }

  /** Every enabled action keeps the state consistent. */
  lemma StepPreservesConsistent(s: State, a: Action)
    requires Consistent(s)
    requires Enabled(s, a)
    ensures Consistent(Step(s, a))
  {
    if a.RegenerateColorAction? {
      RegenerateSingleColorConsistent(s, a.index, a.draw);
    }
  }

  /** The swatch buttons, which touch the colours and nothing else. */
  predicate SetsOnlyColors(a: Action) {
    a.RegenerateColorAction? || a.RegenerateBackgroundAction?
  }

  /** The actions of `trace` can be issued one after another from `s`. */
  predicate EnabledTrace(s: State, trace: seq<Action>)
    decreases |trace|
  {
    |trace| == 0 || (Enabled(s, trace[0]) && EnabledTrace(Step(s, trace[0]), trace[1..]))
  }

  /** The actions of `trace`, one after another. */
  function Run(s: State, trace: seq<Action>): (r: State)
    requires EnabledTrace(s, trace)
    ensures |trace| == 0 ==> r == s
    ensures (forall i :: 0 <= i < |trace| ==> SetsOnlyColors(trace[i])) ==>
      r == s.(colorTheme := r.colorTheme, backgroundColor := r.backgroundColor)
    decreases |trace|
  {
    if |trace| == 0 then s else Run(Step(s, trace[0]), trace[1..])
  }

  /** Whatever the user does after mounting, the editor's state stays consistent. */
  lemma {:induction false} RunPreservesConsistent(s: State, trace: seq<Action>)
    requires Consistent(s)
    requires EnabledTrace(s, trace)
    ensures Consistent(Run(s, trace))
    decreases |trace|
  {
    if |trace| > 0 {
      StepPreservesConsistent(s, trace[0]);
      RunPreservesConsistent(Step(s, trace[0]), trace[1..]);
    }
  }
}
