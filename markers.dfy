/**
 * Turning the rows of the two spreadsheet feeds into markers. A row maps
 * field names to strings; rows without a position (or, for images, without
 * an image URL) are skipped; sizes and display fields fall back to defaults
 * the way JavaScript's `||` does.
 */
module Markers {
  import opened Wrappers

  /** One parsed CSV row: field name to raw string. */
  type Row = map<string, string>

  /** A JavaScript number as `parseFloat` returns it: `None` stands for NaN. */
  type Num = Option<real>

  /** `parseFloat` on a string that is present. */
  type Parser = string -> Num

  /** The width and height used when the feed gives none (or a falsy one). */
  const DefaultSize: real := 100.0

  /** The fill used when the rectangle feed gives no colour. */
  const DefaultFill: string := "skyblue"

  /** The text under a rectangle and its vertical position inside the group. */
  datatype Caption = Caption(text: string, y: real)

  /** A rectangle marker: its group position, its size, fill and label. */
  datatype RectMarker = RectMarker(x: Num, y: Num, width: real, height: real, fill: string, caption: Caption)

  /** An image marker: the image to load and where and how large to draw it. */
  datatype ImageMarker = ImageMarker(url: string, x: Num, y: Num, width: real, height: real)

  /** JavaScript truthiness of `data[key]`: the field is there and is not the empty string. */
  predicate Present(row: Row, key: string) {
    key in row && row[key] != ""
  }

  /** `parseFloat(data[key])`; a missing field is `undefined`, which parses to NaN. */
  function ParseField(parse: Parser, row: Row, key: string): Num {
    if key in row then parse(row[key]) else None
  }

  /** `parseFloat(data[key]) || 100`: NaN and zero are falsy, so both give the default. */
  function SizeField(parse: Parser, row: Row, key: string): (r: real)
    ensures r != 0.0
    ensures r == DefaultSize <==> ParseField(parse, row, key) in {None, Some(0.0), Some(DefaultSize)}
    ensures r != DefaultSize ==> ParseField(parse, row, key) == Some(r)
  {
    match ParseField(parse, row, key)
    case Some(v) => if v != 0.0 then v else DefaultSize
    case None => DefaultSize
  }

  /**
   * `data[key] || fallback` on a string field: a non-empty fallback guarantees
   * a non-empty result, the fallback shows exactly when the field is missing,
   * empty or already equal to it, and any other result is the raw field.
   */
  function TextField(row: Row, key: string, fallback: string): (r: string)
    ensures fallback != "" ==> r != ""
    ensures r == fallback <==> !Present(row, key) || row[key] == fallback
    ensures r != fallback ==> key in row && r == row[key]
  {
    if Present(row, key) then row[key] else fallback
  }

  /** The rectangle feed's per-row step: skip the row, or build its group. */
  function RectFromRow(parse: Parser, row: Row): (r: Option<RectMarker>)
    ensures r.None? <==> !Present(row, "x") || !Present(row, "y")
    ensures r.Some? ==>
      && r.value.x == ParseField(parse, row, "x")
      && r.value.y == ParseField(parse, row, "y")
      && r.value.width == SizeField(parse, row, "width") != 0.0
      && r.value.height == SizeField(parse, row, "height") != 0.0
      && r.value.caption.y == r.value.height
      && r.value.fill == TextField(row, "color", DefaultFill) != ""
      && r.value.caption.text == TextField(row, "name", "")
  {
    if !Present(row, "x") || !Present(row, "y") then None
    else
      var height := SizeField(parse, row, "height");
      Some(RectMarker(
        ParseField(parse, row, "x"),
        ParseField(parse, row, "y"),
        SizeField(parse, row, "width"),
        height,
        TextField(row, "color", DefaultFill),
        Caption(TextField(row, "name", ""), height)))
  }

  /** The image feed's per-row step: skip the row, or say which image to load and where. */
  function ImageFromRow(parse: Parser, row: Row): (r: Option<ImageMarker>)
    ensures r.None? <==> !Present(row, "x") || !Present(row, "y") || !Present(row, "imageUrl")
    ensures r.Some? ==>
      && r.value.url == row["imageUrl"] != ""
      && r.value.x == ParseField(parse, row, "x")
      && r.value.y == ParseField(parse, row, "y")
      && r.value.width == SizeField(parse, row, "width") != 0.0
      && r.value.height == SizeField(parse, row, "height") != 0.0
  {
    if !Present(row, "x") || !Present(row, "y") || !Present(row, "imageUrl") then None
    else
      Some(ImageMarker(
        row["imageUrl"],
        ParseField(parse, row, "x"),
        ParseField(parse, row, "y"),
        SizeField(parse, row, "width"),
        SizeField(parse, row, "height")))
  }

  /** What a `forEach` over `rows` adds to the layer, in row order. */
  function Placed<T>(rows: seq<Row>, make: Row -> Option<T>): (ms: seq<T>)
    ensures |ms| <= |rows|
    decreases |rows|
  {
    if rows == [] then []
    else
      var before := Placed(rows[..|rows| - 1], make);
      match make(rows[|rows| - 1])
      case Some(m) => before + [m]
      case None => before
  }

  /** The `forEach` loop itself: each kept row appends its marker to the layer. */
  method PlaceAll<T>(rows: seq<Row>, make: Row -> Option<T>) returns (layer: seq<T>)
    ensures layer == Placed(rows, make)
  {
    layer := [];
    for i := 0 to |rows|
      invariant layer == Placed(rows[..i], make)
    {
      assert rows[..i + 1][..i] == rows[..i];
      match make(rows[i]) {
        case Some(m) => layer := layer + [m];
        case None =>
      }
    }
    assert rows[..|rows|] == rows;
  }

  /**
   * `loadDataFromSpreadsheet` after both feeds have been fetched: the
   * rectangles in row order, and the image markers in the order their
   * loads are started.
   */
  method LoadDataFromSpreadsheet(parse: Parser, rectRows: seq<Row>, imageRows: seq<Row>)
    returns (rects: seq<RectMarker>, images: seq<ImageMarker>)
    ensures rects == Placed(rectRows, row => RectFromRow(parse, row))
    ensures images == Placed(imageRows, row => ImageFromRow(parse, row))
  {
    rects := PlaceAll(rectRows, row => RectFromRow(parse, row));
    images := PlaceAll(imageRows, row => ImageFromRow(parse, row));
  }

  /** Feeding rows in two batches places the same markers, in the same order. */
  lemma {:induction false} PlacedAppend<T>(a: seq<Row>, b: seq<Row>, make: Row -> Option<T>)
    ensures Placed(a + b, make) == Placed(a, make) + Placed(b, make)
    decreases |b|
  {
    if b == [] {
      assert a + b == a;
    } else {
      var b' := b[..|b| - 1];
      assert (a + b)[..|a + b| - 1] == a + b';
      PlacedAppend(a, b', make);
    }
  }

  /** A marker is on the layer exactly when some row produces it. */
  lemma {:induction false} PlacedMembers<T>(rows: seq<Row>, make: Row -> Option<T>, m: T)
    ensures m in Placed(rows, make) <==> exists i :: 0 <= i < |rows| && make(rows[i]) == Some(m)
    decreases |rows|
  {
    if rows != [] {
      var init := rows[..|rows| - 1];
      PlacedMembers(init, make, m);
      if exists i :: 0 <= i < |rows| && make(rows[i]) == Some(m) {
        var i :| 0 <= i < |rows| && make(rows[i]) == Some(m);
        if i < |init| {
          assert init[i] == rows[i];
        }
      }
      if exists i :: 0 <= i < |init| && make(init[i]) == Some(m) {
        var i :| 0 <= i < |init| && make(init[i]) == Some(m);
        assert rows[i] == init[i];
      }
    }
  }

  /** When every row is kept, the k-th marker comes from the k-th row. */
  lemma {:induction false} PlacedAllKept<T>(rows: seq<Row>, make: Row -> Option<T>)
    requires forall i :: 0 <= i < |rows| ==> make(rows[i]).Some?
    ensures |Placed(rows, make)| == |rows|
    ensures forall i :: 0 <= i < |rows| ==> Placed(rows, make)[i] == make(rows[i]).value
    decreases |rows|
  {
    if rows != [] {
      var init := rows[..|rows| - 1];
      PlacedAllKept(init, make);
    }
  }

  /** When no row is kept, nothing is placed. */
  lemma {:induction false} PlacedNoneKept<T>(rows: seq<Row>, make: Row -> Option<T>)
    requires forall i :: 0 <= i < |rows| ==> make(rows[i]).None?
    ensures Placed(rows, make) == []
    decreases |rows|
  {
    if rows != [] {
      PlacedNoneKept(rows[..|rows| - 1], make);
    }
  }

  /** A row with only `x` and `y` gets every default: 100 x 100, sky blue, empty label at y = 100. */
  lemma RectDefaults(parse: Parser, row: Row)
    requires row.Keys == {"x", "y"} && row["x"] == "200" && row["y"] == "300"
    requires parse("200") == Some(200.0) && parse("300") == Some(300.0)
    ensures RectFromRow(parse, row)
            == Some(RectMarker(Some(200.0), Some(300.0), 100.0, 100.0, "skyblue", Caption("", 100.0)))
  {
  }

  /** The coordinate "0" is a non-empty string, so it is kept; an empty coordinate is not. */
  lemma ZeroCoordinateKept(parse: Parser, row: Row)
    requires "x" in row && "y" in row && row["y"] == "0"
    ensures row["x"] == "" ==> RectFromRow(parse, row) == None
    ensures row["x"] != "" ==> RectFromRow(parse, row).Some?
    ensures row["x"] != "" ==> RectFromRow(parse, row).value.y == parse("0")
  {
  }

  /** A width or height that parses to zero is replaced by 100, like a NaN one. */
  lemma ZeroSizeDefaults(parse: Parser, row: Row)
    requires Present(row, "x") && Present(row, "y")
    requires "width" in row && parse(row["width"]) == Some(0.0)
    requires "height" !in row
    ensures RectFromRow(parse, row).value.width == DefaultSize
    ensures RectFromRow(parse, row).value.height == DefaultSize
    ensures RectFromRow(parse, row).value.caption.y == DefaultSize
  {
  }

  /**
   * A blank spreadsheet cell arrives as the empty string rather than a missing
   * field; since `parseFloat("")` is NaN, a blank width or height cell, on its
   * own, gets the default size in both feeds.
   */
  lemma BlankSizeDefaults(parse: Parser, row: Row, key: string)
    requires Present(row, "x") && Present(row, "y") && Present(row, "imageUrl")
    requires key == "width" || key == "height"
    requires key in row && row[key] == ""
    requires parse("") == None
    ensures key == "width" ==>
      && RectFromRow(parse, row).value.width == DefaultSize
      && ImageFromRow(parse, row).value.width == DefaultSize
    ensures key == "height" ==>
      && RectFromRow(parse, row).value.height == DefaultSize
      && RectFromRow(parse, row).value.caption.y == DefaultSize
      && ImageFromRow(parse, row).value.height == DefaultSize
  {
  }

  /** An image row without `imageUrl` yields no marker, whatever else it holds. */
  lemma ImageNeedsUrl(parse: Parser, row: Row)
    requires "imageUrl" !in row || row["imageUrl"] == ""
    ensures ImageFromRow(parse, row) == None
  {
  }
}
