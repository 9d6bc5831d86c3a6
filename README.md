# Map viewer core, modelled in Dafny

The viewer shows a fixed 9000 x 9000 map on a pannable, zoomable stage. On top of the map sit a
background grid and markers read from two spreadsheet feeds: rectangles with a caption, and images.
This project models the three pieces of `script.js` that carry logic:

- **Viewport** (`viewport.dfy`). The stage transform shows a world point `w` on screen at
  `w * scale + offset`. `View` is one snapshot of that transform, as a value. `ViewState` is the
  stage object: its `offsetX`, `offsetY` and `scale` fields change in place. Its constructor `Init`
  centres the map on the screen at scale 1. `ZoomAt` is the wheel handler: a positive `deltaY` divides
  the scale by `ScaleBy = 11/10`, any other `deltaY` (zero included) multiplies it, and the offset is
  recomputed so that the world point under the pointer stays under it. All arithmetic is over `real`.
- **Grid** (`grid.dfy`). `BuildGrid` is the two counting loops. They add 91 vertical lines and then
  91 horizontal lines, 100 units apart, each spanning the whole map.
- **Markers** (`markers.dfy`). A feed row is a `map<string, string>`. `parseFloat` is a parameter
  `parse: string -> Option<real>`, where `None` stands for NaN. A row is kept when its required
  fields are truthy, which means present and non-empty: `"0"` passes, `""` does not. Width and height
  fall back to 100 when the parse gives NaN or 0. Fill falls back to `"skyblue"`, the caption text to
  `""`, and the caption's y is the rectangle's height. A kept row whose `x` does not parse still gives
  a marker, and its position is NaN (`None`). `PlaceAll` is the `forEach` loop that appends the kept
  rows' markers to the layer in row order.

`world.dfy` holds the map constants and `wrappers.dfy` the `Option` type.

## Model

| member | source | states |
|---|---|---|
| `Viewport.View.ScreenToWorld` | script.js:135-138 | the world point under a screen point maps back to that screen point (inverse of `WorldToScreen`) |
| `Viewport.WorldToScreenRoundTrip` | script.js:135-138 | the other direction: screen-to-world undoes world-to-screen for every valid view |
| `Viewport.View.Zoom` | script.js:132-151 | scale stays positive; `deltaY > 0` divides the scale by 1.1 and makes it strictly smaller; `deltaY <= 0`, 0 included, multiplies it by 1.1 and makes it strictly larger; the pre-zoom world point under the pointer is drawn at the pointer afterwards |
| `Viewport.Initial` | script.js:19-27 | scale 1, and the screen centre shows the map centre (4500, 4500) |
| `Viewport.ViewState.Init` | script.js:19-27 | the stage starts valid, with offset (w/2 - 4500, h/2 - 4500) at scale 1 |
| `Viewport.ViewState.ZoomAt` | script.js:129-152 | the new stage state is the zoom of the old one; the world point under the pointer stays put; direction of the scale change |
| `Viewport.ZoomAll` | script.js:143 | after any sequence of wheel events from a valid state the scale is still positive, so the division in screen-to-world stays defined |
| `Viewport.ZoomKeepsWorldPointUnderPointer` | script.js:135-151 | after a zoom the pointer still shows the same world point |
| `Viewport.ZoomInOutRestores` | script.js:140-151 | zoom in then out (or out then in) at the same pointer restores scale and offset exactly |
| `Viewport.ZoomAllKeepsAnchor` | script.js:135-151 | any run of wheel events at one pointer keeps the world point under it |
| `Viewport.ZoomInsMultiply` | script.js:143 | n zoom-ins multiply the scale by 1.1^n |
| `Viewport.ZoomOutsDivide` | script.js:143 | n zoom-outs divide the scale by 1.1^n |
| `Viewport.RepeatedZoomInGrows` | script.js:140-145 | repeated zoom-in strictly increases the scale |
| `Viewport.RepeatedZoomOutShrinks` | script.js:140-145 | repeated zoom-out strictly decreases the scale and keeps it positive |
| `Viewport.InitialOn1000By800` | script.js:19-27 | on a 1000 x 800 screen the offset is (-4000, -4100) and (500, 400) shows (4500, 4500) |
| `Viewport.ZoomInAt100` | script.js:135-151 | zooming in at (100, 100) from the identity gives scale 1.1 and offset (-10, -10) |
| `Grid.BuildGrid` | script.js:30-46 | 182 lines; line i < 91 runs from (100i, 0) to (100i, 9000); line 91 + j runs from (0, 100j) to (9000, 100j), in that order; line k is `GridLine(k)`, the line the grid lemmas describe; because the loops include their end value, the first and last line in each direction lie on the map's borders |
| `Grid.GridLineSpansMap` | script.js:32-46 | every grid line lies on the map and is a full-width or full-height segment |
| `Grid.GridLinesDistinct` | script.js:32-46 | no grid line is added twice |
| `Markers.SizeField` | script.js:77-78 | the size after falling back to 100 is never 0; it is 100 exactly when the parse is NaN, 0 or 100, and otherwise the parsed value |
| `Markers.TextField` | script.js:79-85 | a string field with its fallback (colour, caption text) is never empty when the fallback is not; it equals the fallback exactly when the field is missing, empty or already that value; any other result is the raw field |
| `Markers.RectFromRow` | script.js:69-90 | a row is dropped exactly when `x` or `y` is missing or empty; otherwise position is the parsed `x`, `y`, size is defaulted, fill defaults to `"skyblue"`, caption text to `""`, and the caption's y equals the height |
| `Markers.ImageFromRow` | script.js:98-105 | a row is dropped exactly when `x`, `y` or `imageUrl` is missing or empty; otherwise it yields the URL, the parsed position and the defaulted size |
| `Markers.Placed` | script.js:68-93 | a feed never places more markers than it has rows |
| `Markers.PlaceAll` | script.js:68-93 | the `forEach` loop appends exactly the kept rows' markers, in row order |
| `Markers.LoadDataFromSpreadsheet` | script.js:63-109 | the rectangle layer and the image requests are the kept rows of their feeds, each in row order |
| `Markers.PlacedAppend` | script.js:68-93 | placing two batches of rows gives the concatenation of their markers (order is preserved) |
| `Markers.PlacedMembers` | script.js:68-93 | a marker is placed exactly when some row produces it |
| `Markers.PlacedAllKept` | script.js:68-93 | when every row is valid, marker k comes from row k |
| `Markers.PlacedNoneKept` | script.js:68-93 | when no row is valid, nothing is placed |
| `Markers.RectDefaults` | script.js:69-90 | the row `{x: "200", y: "300"}` gives a 100 x 100 sky-blue rectangle at (200, 300) with an empty caption at y = 100 |
| `Markers.ZeroCoordinateKept` | script.js:69 | a coordinate `"0"` is kept and an empty coordinate is dropped |
| `Markers.ZeroSizeDefaults` | script.js:77-78 | a width that parses to 0 and a missing height both become 100, and so does the caption's y |
| `Markers.BlankSizeDefaults` | script.js:77-105 | a blank width cell on its own (the empty string, which `parseFloat` reads as NaN) gives width 100 for rectangles and images; a blank height cell on its own gives height 100 for rectangles and images and caption y 100 |
| `Markers.ImageNeedsUrl` | script.js:98 | an image row without a non-empty `imageUrl` yields no marker |

## Left out

- Rendering: the Konva stage, layers, shapes and all styling (stroke colours, fonts, padding), and the decorative arc at script.js:49-59. They are library calls with no logic behind them.
- Fetching and parsing the CSV feeds (`fetchCSV`, script.js:115-125). This is network I/O through an external library. The model takes the rows as input.
- Image loading (`Konva.Image.fromURL`, script.js:100-108). It completes asynchronously, in network order, and may fail. `LoadDataFromSpreadsheet` returns the image markers in the order their loads start. It does not model which ones arrive or in what order they join the layer.
- Drag panning. It is the rendering library's native `draggable` behaviour (script.js:12), and no source code computes it.
- Window resize (script.js:155-158). It changes only the canvas size, not offset or scale.
- `console.log` and `preventDefault` on the wheel event.
- IEEE-754 doubles. All coordinates, scales and sizes are `real`, and `scaleBy` is exactly 11/10. So the anchor and zoom-in/zoom-out round-trip hold exactly here, while in the browser they hold only up to rounding. Infinity, negative zero and a NaN `deltaY` are not modelled.
- The grammar of `parseFloat`. It is the parameter `parse`, applied to fields that are present. A missing field reads as NaN, as `parseFloat(undefined)` does. A blank cell arrives as `""` and goes through `parse`; the default size for it relies on `parse("")` being `None` (NaN), which `BlankSizeDefaults` assumes of `parse`.
- The pointer position is taken as given. `getPointerPosition` returning no position is not modelled.
