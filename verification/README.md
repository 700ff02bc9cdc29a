# faviconir favicon composer in Dafny

This project models the editor and SVG composer of faviconir
(`components/faviconir.tsx`).

The editor state holds:
- an item count;
- a shape (circle, triangle or square);
- a colour theme: a map from slot number to a CSS `hsl(...)` text;
- a background colour and a switch that says whether it is used;
- one placement `{x, y, size}` per item.

`drawFavicon` turns a state into 64 x 64 SVG markup. The markup is, in order:
- a fixed header;
- one full-canvas background rectangle, filled white when the switch is off;
- one primitive per placement, in placement order. Item `i` is filled with
  `Object.values(colorTheme)[i % length]`;
- the closing tag.

The model is organised like this:
- Random draws (`Math.floor(Math.random() * k)`) become inputs `d` with `0 <= d < k`.
- Each button, slider and switch becomes a pure state-transition function.
- The whole editor becomes a reducer over user actions.
- `Consistent` is the state invariant. Every state after mounting
  (`Editor.Mounted`) satisfies it, and every enabled action preserves it. The
  state of the first render, `Editor.Initial`, does not satisfy it: it has no
  placements, an empty theme and an empty background text.

Modules:
- `Wrappers`: the `Option` type.
- `Numerals`: the decimal numerals JavaScript prints for integers and
  half-integers, with readers proved to invert them.
- `Scan`: literal and quoted-string readers, and sequence helpers.
- `Colors`: HSL draws, the background and theme colour ranges, and the
  printed `hsl(h, s%, l%)` text and its reader.
- `Placement`: placements and `generatePositions`.
- `Theme`: `Object.values` order over integer keys, and fill cycling.
- `Svg`: the primitives `drawShape` emits, their geometry, the printed
  document, and a reader for it.
- `Editor`: the state, the handlers and effects, and the reducer.
- `Composer`: `drawFavicon`.

Coordinates are held in half-units, so the integer `h` stands for `h / 2`:
- A placement has integer `x`, `y` and `size`, so `x + size / 2` is always
  a multiple of one half.
- `HalfToString` prints such a number the way JavaScript's
  `Number.prototype.toString` does: `8`, `28.5`, `-3`.

## Model

| member | source | states |
|---|---|---|
| Composer.Compose | components/faviconir.tsx:62-79 | The background is the background colour when the switch is on and `white` otherwise. There is exactly one item per placement. Item `i` has the selected shape, is fitted to placement `i`'s square, and is filled with `Object.values(theme)[i % length]`, or the text `undefined` when the theme is empty. |
| Composer.DrawFavicon | components/faviconir.tsx:62-79 | The markup starts with the fixed 64 x 64 header followed by the single background rectangle (white when the background is off), and ends with `</svg>`. |
| Composer.DrawFaviconReadsBack | components/faviconir.tsx:62-79 | When no colour text contains `"`, the markup reads back exactly as the composed document. So it has exactly one background rectangle followed by exactly one primitive per placement, in placement order. |
| Composer.ConsistentFavicon | components/faviconir.tsx:71-75 | In every consistent state the favicon has `itemCount` items, and item `i` is filled with theme slot `i % 3`. Each item's outline spans exactly its placement's square, and the markup reads back as the document. |
| Composer.ThreeCirclesExample | components/faviconir.tsx:71-75 | Three circles of size 16 at (0,0), (20,20) and (40,40), with a two-slot theme and the background on, compose to circles of radius 8 centred at (8,8), (28,28) and (48,48). Their fills cycle slot 0, slot 1, slot 0. |
| Composer.ThreeCirclesNumerals | components/faviconir.tsx:54 | The half-unit numbers 16, 56 and 96 are printed as `8`, `28` and `48`. |
| Composer.OneCircleMarkup | components/faviconir.tsx:62-79 | Gives the complete markup for one circle of size 16 at the origin with the background off: header, white rectangle, `<circle cx="8" cy="8" r="8" fill="…" />`, `</svg>`. |
| Svg.DrawShape | components/faviconir.tsx:51-60 | The primitive has the selected shape and the given fill. A circle is inscribed in the placement square. A triangle has its apex at the middle of the top edge and its base on the bottom corners. A square is the placement square. |
| Svg.DrawShapeBounds | components/faviconir.tsx:51-59 | The outline of every drawn primitive spans exactly the square from `(x, y)` to `(x + size, y + size)`. |
| Svg.FitsBoxBounds | components/faviconir.tsx:54-58 | A primitive fitted to a box has that box as its bounding box. |
| Svg.ElementThen | components/faviconir.tsx:54-58 | The markup of a primitive opens with its tag (`<circle cx="`, `<polygon points="` or `<rect x="`) and leaves what follows it intact. `Svg.ElementRoundTrip` shows it reads back as the primitive. |
| Svg.Render | components/faviconir.tsx:63-77 | The printed document starts with the header and the background tag of its background fill, and ends with the closing tag. |
| Svg.RenderRoundTrip | components/faviconir.tsx:63-77 | Reading the printed document gives back the document: the background fill and every primitive, with its numbers and fill, in order. |
| Svg.ElementRoundTrip | components/faviconir.tsx:54-58 | Each primitive's markup reads back as that primitive, followed by whatever came after it. |
| Numerals.HalfToString | components/faviconir.tsx:54-58 | Every number `drawShape` prints (`x + size / 2`, `size / 2`, `x`, `y + size` and so on) starts with `-` exactly when it is negative and ends in `.5` exactly when it is a half. `Numerals.ReadHalfRoundTrip` shows it reads back as the same number. |
| Numerals.ReadHalfRoundTrip | components/faviconir.tsx:54-58 | A printed coordinate (negative, integral or `.5`) reads back as the same number. |
| Numerals.NatToStringInjective | components/faviconir.tsx:29 | Distinct naturals print as distinct numerals. |
| Placement.GeneratePositions | components/faviconir.tsx:43-48 | One placement per draw, with `x` and `y` in `0 .. 55` and `size` in `8 .. 31`. The length is the array length `Array.from` gives the count. |
| Placement.GeneratePositionsOnto | components/faviconir.tsx:43-48 | Every sequence of placements in those ranges, of the right length, is produced by some draws. The bounds are exact. |
| Placement.PlacementReach | components/faviconir.tsx:45-47 | Every valid draw gives an item with `x + size <= 86` and `y + size <= 86`, and some valid draw reaches 86 on each axis. So the generator does not keep items inside the 64 x 64 canvas. |
| Colors.BackgroundColor | components/faviconir.tsx:25-30 | A background colour has hue `0 .. 359`, saturation `70 .. 99` and lightness `70 .. 89`. |
| Colors.BackgroundColorRange | components/faviconir.tsx:25-29 | A colour is in the background range if and only if some valid draw generates it. |
| Colors.ThemeColor | components/faviconir.tsx:32-36 | A theme colour has hue `0 .. 359`, saturation `60 .. 99` and lightness `40 .. 69`. |
| Colors.ThemeColorRange | components/faviconir.tsx:33-35 | A colour is in the theme range if and only if some valid draw generates it. |
| Colors.HslText | components/faviconir.tsx:29 | The text `hsl(h, s%, l%)` opens with `hsl(` and contains no `"`. `Colors.ParseHslRoundTrip` shows it reads back as the colour. |
| Colors.ThemeText | components/faviconir.tsx:32-36 | The text stored for one theme draw is the printed text of a theme-range colour and contains no `"`. |
| Colors.BackgroundText | components/faviconir.tsx:25-30 | The text `generateBackgroundColor` returns is the printed text of a background-range colour and contains no `"`. |
| Colors.ParseHslRoundTrip | components/faviconir.tsx:29 | The text `hsl(h, s%, l%)` reads back as the colour it was printed from. |
| Colors.ThemeTextReadsBack | components/faviconir.tsx:36 | A stored theme text reads back as a theme-range colour that prints to the same text. |
| Colors.BackgroundTextReadsBack | components/faviconir.tsx:29 | A stored background text reads back as a background-range colour that prints to the same text. |
| Colors.ColorTextQuoteFree | components/faviconir.tsx:29 | Generated colour texts never contain `"`, so they cannot break out of a `fill` attribute. |
| Theme.KeysAscending | components/faviconir.tsx:71 | The integer keys come out strictly ascending, each key exactly once: the order `Object.values` uses. |
| Theme.ThemeValues | components/faviconir.tsx:71 | `Object.values` has one entry per slot, and every entry is a stored colour. |
| Theme.FillAt | components/faviconir.tsx:73 | With no colours the fill is the text `undefined`, as `colors[i % 0]` prints. Otherwise the fill is one of the colours. |
| Theme.FillAtCycles | components/faviconir.tsx:73 | The first `length` items take the colours in order, and every later item repeats the fill of the item `length` before it. |
| Theme.DenseThemeValues | components/faviconir.tsx:71-73 | For a theme keyed by `0 .. n-1`, the values come out slot by slot. |
| Theme.DenseThemeFill | components/faviconir.tsx:73 | For a theme keyed by `0 .. n-1` with `n > 0`, item `i` is filled with slot `i % n`. |
| Theme.NewTheme | components/faviconir.tsx:118-125 | The theme loops fill exactly slots `0 .. n-1`. Slot `i` holds the text printed for draw `i`, which is a theme-range colour text. |
| Theme.ThemeTextsUpdate | components/faviconir.tsx:36 | Overwriting one slot with a theme colour text keeps every slot a theme colour text. |
| Editor.RegenerateSingleColor | components/faviconir.tsx:32-37 | Slot `index` gets a fresh theme colour text. Every other slot and every other field is unchanged. |
| Editor.RegenerateSingleColorConsistent | components/faviconir.tsx:205-211 | Regenerating one of the three swatches keeps the state consistent. |
| Editor.RegenerateBackground | components/faviconir.tsx:39-41 | The background colour becomes a fresh background-range text, and nothing else changes. |
| Editor.Reposition | components/faviconir.tsx:235 | Only the placements change: one in-range placement per item. |
| Editor.ToggleBackground | components/faviconir.tsx:226-230 | Only the switch changes, to the given value. |
| Editor.SelectShape | components/faviconir.tsx:190 | Only the shape changes, to the selected one. |
| Editor.CountEffect | components/faviconir.tsx:143-145 | When the count changed, the placements are regenerated for the new count. Otherwise the state is untouched. Nothing but the placements changes. |
| Editor.SetItemCount | components/faviconir.tsx:177-184 | The slider sets the count. The placements are regenerated exactly when the count changed. A count in `1 .. 10` keeps the state consistent. |
| Editor.ShapeChoice | components/faviconir.tsx:117 | Draw 0, 1 and 2 pick circle, triangle and square respectively. |
| Editor.RandomizeBatch | components/faviconir.tsx:115-129 | Every field is replaced with in-range values, but the placements are drawn for the count the state had before. |
| Editor.RandomizeAll | components/faviconir.tsx:115-145 | The batched update followed by the count effect yields a consistent state from any starting state. |
| Editor.Mounted | components/faviconir.tsx:131-145 | After mounting, the state is consistent: three circles, background off, three theme slots and a background colour. |
| Editor.Step | components/faviconir.tsx:177-238 | Each action is handled by its control's handler. The count changes only through the slider, the shape only through the selector, the theme only through a swatch, the background colour only through its swatch, the switch only through itself, and the placements only through Reposition or the count. "Randomize All" may change everything. |
| Editor.Run | components/faviconir.tsx:205-224 | Running no actions changes nothing. Pressing only swatch buttons changes the colours and nothing else. |
| Editor.StepPreservesConsistent | components/faviconir.tsx:177-238 | Every action the interface can issue keeps the state consistent. |
| Editor.RunPreservesConsistent | components/faviconir.tsx:177-238 | Every sequence of such actions keeps the state consistent. |

## Left out

- `downloadFavicon` (lines 81-113): browser I/O (Blob, object URLs, canvas rasterisation). The "ico" option actually writes a 16 x 16 PNG.
- The JSX layout and the preview, which replaces `width="64" height="64"` with 256 (lines 151-278): presentation only.
- The `faviconContent` and `downloadFormat` state fields. `DrawFavicon` returns the markup that `setFaviconContent` would store.
- React scheduling beyond the item-count effect. The draw effect (lines 147-149) is the `DrawFavicon` function of the current state. Batching is modelled only where it is observable, in "Randomize All", where the placements are drawn for the old count.
- `Math.random`: every draw is an input in its range. `Math.random() > 0.5` is a boolean input.
- Number formatting of values of 1e21 and above (exponent notation): no placement reaches such values. `HalfToString` covers every integer and half-integer without it.
- Theme keys that are not non-negative integers. JavaScript lists string keys in insertion order. The editor only ever stores keys `0 .. 2`.
- Editor.RegenerateSingleColor: the index is a natural number. The handler only receives `0`, `1` or `2`.
- Svg.Render: its own contract states only the frame, which is the header plus background tag prefix and the closing-tag suffix. The full content is stated by `Svg.RenderRoundTrip`.
- Theme.ThemeValues: its own contract gives only length and membership. The order is that of `Theme.KeysAscending`, and `Theme.DenseThemeValues` states it for the themes the editor builds.
- `app/layout.tsx` and `app/page.tsx`: page shell only, not part of this model.

## Behaviour worth noting

- Placements are drawn with `x, y` in `0 .. 55` and `size` in `8 .. 31`. Items may extend past the canvas (`Placement.PlacementReach`).
- The background rectangle is always emitted. It is white when the background switch is off.
- The item-count slider range is `1 .. 10`.
