/** ConvertADT's packing and writing steps over its grid arrays. */
module MapConverter {
  import opened MapStream
  import opened MapPacking
  import opened MapFile

  const GRID: nat := 128
  const NO_MINIMUM_CELL: nat := 255

  // ----- area flags -----

  /** The area of a cell as the reader gives it. */
  function AreaAt(a: AreaSection, i: nat): nat
    requires a.FullArea? ==> i < |a.areas|
  {
    if a.UniformArea? then a.area else a.areas[i]
  }

  method PackArea(areas: array<nat>) returns (a: AreaSection)
    requires areas.Length == AREAS
    ensures a.FullArea? <==> exists i :: 0 <= i < AREAS && areas[i] != areas[0]
    ensures a.FullArea? ==> |a.areas| == AREAS
    ensures forall i: nat :: i < AREAS ==> AreaAt(a, i) == areas[i]
  {
    var fullAreaData := false;
    var areaflag := areas[0];
    for i := 0 to AREAS
      invariant fullAreaData <==> exists k :: 0 <= k < i && areas[k] != areaflag
    {
      if areas[i] != areaflag {
        fullAreaData := true;
      }
    }
    a := if fullAreaData then FullArea(areas[..]) else UniformArea(areaflag);
  }

  // ----- heights -----

  method PackArray(levels: nat, min: real, max: real, a: array<real>) returns (q: seq<nat>)
    requires levels > 0 && min < max && Within(a[..], min, max)
    ensures q == QuantisedAll(levels, min, max, a[..])
  {
    q := [];
    for i := 0 to a.Length
      invariant |q| == i
      invariant forall k :: 0 <= k < i ==> q[k] == Quantised(levels, min, max, a[..][k])
    {
      q := q + [Quantised(levels, min, max, a[..][i])];
    }
  }

  /** From the height arrays to the height section; the arrays are raised in place. */
  method ConvertHeights(conf: Conf, v9: array<real>, v8: array<real>) returns (s: HeightSection)
    requires v9 != v8 && v9.Length == V9_POINTS && v8.Length == V8_POINTS
    modifies v9, v8
    ensures s == PackHeights(conf, old(v9[..]), old(v8[..]))
  {
    hide PackMode, Highest, Lowest;
    var min, max := FindRange(v8, NO_MINIMUM, NO_MAXIMUM);
    min, max := FindRange(v9, min, max);
    RangeHolds(v9[..], v8[..]);
    if conf.allowHeightLimit && min < USE_MIN_HEIGHT {
      RaisedRangeHolds(v9[..], min, max);
      RaisedRangeHolds(v8[..], min, max);
      RaiseHeights(v8);
      RaiseHeights(v9);
      if min < USE_MIN_HEIGHT {
        min := USE_MIN_HEIGHT;
      }
      if max < USE_MIN_HEIGHT {
        max := USE_MIN_HEIGHT;
      }
    }
    s := PackArrays(conf, min, max, v9, v8);
  }

  method PackArrays(conf: Conf, min: real, max: real, v9: array<real>, v8: array<real>) returns (s: HeightSection)
    requires v9.Length > 0 && Within(v9[..], min, max) && Within(v8[..], min, max)
    ensures s == PackRange(conf, min, max, v9[..], v8[..])
  {
    assert min <= v9[..][0] <= max;
    var flat := max == min;
    if conf.allowFloatToInt && max - min < FLAT_HEIGHT_DELTA_LIMIT {
      flat := true;
    }
    var data := NoHeights;
    if !flat {
      var diff := max - min;
      if conf.allowFloatToInt && diff < FLOAT_TO_INT8_LIMIT {
        var q8 := PackArray(255, min, max, v8);
        var q9 := PackArray(255, min, max, v9);
        data := Int8Heights(q9, q8);
      } else if conf.allowFloatToInt && diff < FLOAT_TO_INT16_LIMIT {
        var q8 := PackArray(65535, min, max, v8);
        var q9 := PackArray(65535, min, max, v9);
        data := Int16Heights(q9, q8);
      } else {
        data := FloatHeights(v9[..], v8[..]);
      }
    }
    s := HeightSection(min, max, data);
  }

  // ----- liquid -----

  /** The bounding box of the shown cells and the range of their heights. */
  datatype Box = Box(minX: nat, maxX: nat, minY: nat, maxY: nat, min: real, max: real)

  predicate Grids(show: array2<bool>, heights: array2<real>) {
    show.Length0 == show.Length1 == GRID && heights.Length0 == heights.Length1 == GRID + 1
  }

  /** Cell (y, x) comes before cell (r, c) in the scan. */
  predicate Scanned(y: nat, x: nat, r: nat, c: nat) { y < r || (y == r && x < c) }

  ghost predicate ColumnShown(show: array2<bool>, x: nat, r: nat, c: nat)
    requires show.Length0 == show.Length1 == GRID
    reads show
  {
    x < GRID && exists y: nat :: y < GRID && Scanned(y, x, r, c) && show[y, x]
  }

  ghost predicate RowShown(show: array2<bool>, y: nat, r: nat, c: nat)
    requires show.Length0 == show.Length1 == GRID
    reads show
  {
    y < GRID && exists x: nat :: x < GRID && Scanned(y, x, r, c) && show[y, x]
  }

  /** Every side of the box that has moved touches a shown cell scanned so far. */
  ghost predicate Tight(show: array2<bool>, box: Box, r: nat, c: nat)
    requires show.Length0 == show.Length1 == GRID
    reads show
  {
    && (box.minX == NO_MINIMUM_CELL || ColumnShown(show, box.minX, r, c))
    && (box.maxX == 0 || ColumnShown(show, box.maxX, r, c))
    && (box.minY == NO_MINIMUM_CELL || RowShown(show, box.minY, r, c))
    && (box.maxY == 0 || RowShown(show, box.maxY, r, c))
  }

  /** `box` bounds the shown cells scanned so far. */
  ghost predicate Bounds(show: array2<bool>, heights: array2<real>, box: Box, r: nat, c: nat)
    requires Grids(show, heights)
    reads show, heights
  {
    && (forall y: nat, x: nat :: y < GRID && x < GRID && Scanned(y, x, r, c) && show[y, x] ==>
      box.minX <= x <= box.maxX && box.minY <= y <= box.maxY && box.min <= heights[y, x] <= box.max)
    && box.maxX < GRID && box.maxY < GRID
  }

  /** The scan over the grid; heights of hidden cells are reset. */
  method ScanLiquid(show: array2<bool>, heights: array2<real>) returns (box: Box)
    requires Grids(show, heights)
    modifies heights
    ensures Bounds(show, heights, box, GRID, 0) && Tight(show, box, GRID, 0)
    ensures forall y: nat, x: nat :: y < GRID && x < GRID && show[y, x] ==> heights[y, x] == old(heights[y, x])
  {
    hide Tight, ColumnShown, RowShown, Bounds;
    box := Box(NO_MINIMUM_CELL, 0, NO_MINIMUM_CELL, 0, NO_MINIMUM, NO_MAXIMUM);
    NothingScanned(show, heights);
    var y := 0;
    while y < GRID
      invariant 0 <= y <= GRID
      invariant Bounds(show, heights, box, y, 0)
      invariant Tight(show, box, y, 0)
      invariant forall r: nat, c: nat :: r < GRID && c < GRID && show[r, c] ==> heights[r, c] == old(heights[r, c])
    {
      var x := 0;
      while x < GRID
        invariant 0 <= x <= GRID
        invariant Bounds(show, heights, box, y, x)
        invariant Tight(show, box, y, x)
        invariant forall r: nat, c: nat :: r < GRID && c < GRID && show[r, c] ==> heights[r, c] == old(heights[r, c])
      {
        if show[y, x] {
          TightStep(show, box, y, x, heights[y, x]);
          BoundsStep(show, heights, box, y, x);
          box := Extended(box, y, x, heights[y, x]);
        } else {
          TightSkip(show, box, y, x);
          HideCell(show, heights, box, y, x);
        }
        x := x + 1;
      }
      TightRow(show, box, y);
      BoundsRow(show, heights, box, y);
      y := y + 1;
    }
  }

  function Extended(box: Box, y: nat, x: nat, h: real): Box {
    Box(if box.minX > x then x else box.minX, if box.maxX < x then x else box.maxX,
        if box.minY > y then y else box.minY, if box.maxY < y then y else box.maxY,
        if box.min > h then h else box.min, if box.max < h then h else box.max)
  }

  lemma NothingScanned(show: array2<bool>, heights: array2<real>)
    requires Grids(show, heights)
    ensures var box := Box(NO_MINIMUM_CELL, 0, NO_MINIMUM_CELL, 0, NO_MINIMUM, NO_MAXIMUM);
            Tight(show, box, 0, 0) && Bounds(show, heights, box, 0, 0)
  {
  }

  lemma BoundsStep(show: array2<bool>, heights: array2<real>, box: Box, y: nat, x: nat)
    requires Grids(show, heights) && y < GRID && x < GRID && show[y, x]
    requires Bounds(show, heights, box, y, x)
    ensures Bounds(show, heights, Extended(box, y, x, heights[y, x]), y, x + 1)
  {
  }

  lemma BoundsRow(show: array2<bool>, heights: array2<real>, box: Box, y: nat)
    requires Grids(show, heights) && y < GRID && Bounds(show, heights, box, y, GRID)
    ensures Bounds(show, heights, box, y + 1, 0)
  {
  }

  /** Resetting a hidden cell. */
  method HideCell(show: array2<bool>, heights: array2<real>, ghost box: Box, y: nat, x: nat)
    requires Grids(show, heights) && y < GRID && x < GRID && !show[y, x]
    requires Bounds(show, heights, box, y, x)
    modifies heights
    ensures Bounds(show, heights, box, y, x + 1)
    ensures forall r: nat, c: nat :: r < GRID && c < GRID && show[r, c] ==> heights[r, c] == old(heights[r, c])
  {
    heights[y, x] := USE_MIN_HEIGHT;
  }

  lemma TightSkip(show: array2<bool>, box: Box, y: nat, x: nat)
    requires show.Length0 == show.Length1 == GRID && y < GRID && x < GRID
    requires Tight(show, box, y, x)
    ensures Tight(show, box, y, x + 1)
  {
    assert forall b: nat, a: nat :: Scanned(b, a, y, x) ==> Scanned(b, a, y, x + 1);
  }

  lemma TightStep(show: array2<bool>, box: Box, y: nat, x: nat, h: real)
    requires show.Length0 == show.Length1 == GRID && y < GRID && x < GRID && show[y, x]
    requires Tight(show, box, y, x)
    ensures Tight(show, Extended(box, y, x, h), y, x + 1)
  {
    TightSkip(show, box, y, x);
    assert Scanned(y, x, y, x + 1);
    assert ColumnShown(show, x, y, x + 1) && RowShown(show, y, y, x + 1);
  }

  lemma TightRow(show: array2<bool>, box: Box, y: nat)
    requires show.Length0 == show.Length1 == GRID && y < GRID
    requires Tight(show, box, y, GRID)
    ensures Tight(show, box, y + 1, 0)
  {
    assert forall b: nat, a: nat :: a < GRID && Scanned(b, a, y, GRID) ==> Scanned(b, a, y + 1, 0);
  }

  /** Where row `y`, column `x` lies among rows of `width` points. */
  function At(y: nat, x: nat, width: nat): nat { y * width + x }

  lemma Distribute(y: nat, d: nat, width: nat)
    ensures (y + d + 1) * width == y * width + d * width + width
  {
  }

  predicate PointIs(points: seq<real>, y: nat, x: nat, width: nat, h: real) {
    At(y, x, width) < |points| && points[At(y, x, width)] == h
  }

  lemma PointsGrow(points: seq<real>, row: seq<real>, r: nat, width: nat, y: nat, x: nat, h: real)
    requires |points| == r * width && |row| == width && y <= r && x < width
    requires if y < r then PointIs(points, y, x, width, h) else row[x] == h
    ensures PointIs(points + row, y, x, width, h)
  {
  }

  /** Point (y, x) of the box is the height it covers. */
  predicate Copied(points: seq<real>, heights: array2<real>, offsetY: nat, offsetX: nat, y: nat, x: nat, width: nat)
    requires offsetY + y < heights.Length0 && offsetX + x < heights.Length1
    reads heights
  {
    PointIs(points, y, x, width, heights[offsetY + y, offsetX + x])
  }

  /** The write loop: `height` rows of `width` floats from the corner of the box. */
  method CopyRows(heights: array2<real>, offsetY: nat, offsetX: nat, height: nat, width: nat)
    returns (points: seq<real>)
    requires offsetY + height <= heights.Length0 && offsetX + width <= heights.Length1
    ensures |points| == height * width
    ensures forall y: nat, x: nat :: y < height && x < width ==> Copied(points, heights, offsetY, offsetX, y, x, width)
  {
    hide PointIs;
    points := [];
    for r := 0 to height
      invariant |points| == r * width
      invariant forall y: nat, x: nat :: y < r && x < width ==> Copied(points, heights, offsetY, offsetX, y, x, width)
    {
      var row := seq(width, c requires 0 <= c < width reads heights => heights[offsetY + r, offsetX + c]);
      forall y: nat, x: nat | y < r + 1 && x < width
        ensures Copied(points + row, heights, offsetY, offsetX, y, x, width)
      {
        assert y < r ==> Copied(points, heights, offsetY, offsetX, y, x, width);
        PointsGrow(points, row, r, width, y, x, heights[offsetY + y, offsetX + x]);
      }
      Distribute(r, 0, width);
      points := points + row;
    }
  }

  /** The liquid height of a cell as the reader gives it. */
  ghost predicate LevelAt(l: LiquidSection, y: nat, x: nat, h: real) {
    && l.Liquid? && l.offsetX <= x < l.offsetX + l.width && l.offsetY <= y < l.offsetY + l.height
    && if l.heights.Level? then Close(l.level, h, FLAT_LIQUID_DELTA_LIMIT)
       else PointIs(l.heights.points, y - l.offsetY, x - l.offsetX, l.width, h)
  }

  /** The liquid type of a chunk as the reader gives it. */
  ghost predicate TypeAt(l: LiquidSection, i: nat, kind: nat) {
    match l
    case NoLiquid => kind == 0
    case Liquid(OneType(k), _, _, _, _, _, _) => kind == k
    case Liquid(Types(_, flags), _, _, _, _, _, _) => i < |flags| && kind == flags[i]
  }

  /** The entry numbers are written with the types, one for each chunk, and so only if the chunks
      differ in type. */
  ghost predicate EntriesKept(l: LiquidSection, entries: seq<nat>, flags: seq<nat>) {
    (l.Liquid? && l.types.Types? <==> exists i, j :: 0 <= i < |flags| && 0 <= j < |flags| && flags[i] != flags[j])
    && (l.Liquid? && l.types.Types? ==> l.types.entries == entries)
  }

  /** Liquid as a whole: absent, or a box of heights that fits the bytes of its header. */
  method PackLiquid(conf: Conf, entries: array<nat>, flags: array<nat>, show: array2<bool>, heights: array2<real>)
    returns (l: LiquidSection)
    requires entries.Length == flags.Length == AREAS && Grids(show, heights)
    requires (exists i :: 0 <= i < AREAS && flags[i] != 0) ==>
        exists y: nat, x: nat :: y < GRID && x < GRID && show[y, x]
    modifies heights
    ensures WellFormed(Sections(UniformArea(0), HeightSection(0.0, 0.0, NoHeights), l))
    ensures forall i: nat :: i < AREAS ==> TypeAt(l, i, flags[i])
    ensures EntriesKept(l, entries[..], flags[..])
    ensures l.Liquid? ==> l.offsetX < 256 && l.offsetY < 256 && 2 <= l.width < 256 && 2 <= l.height < 256
    ensures l.Liquid? ==> forall y: nat, x: nat :: y < GRID && x < GRID && show[y, x] ==>
        LevelAt(l, y, x, old(heights[y, x]))
  {
    var kind := flags[0];
    var fullType := false;
    for i := 0 to AREAS
      invariant fullType <==> exists k :: 0 <= k < i && flags[k] != kind
    {
      if flags[i] != kind {
        fullType := true;
      }
    }
    if kind == 0 && !fullType {
      return NoLiquid;
    }
    assert exists i :: 0 <= i < AREAS && flags[i] != 0 by {
      if kind != 0 { assert flags[0] != 0; }
    }
    var types := if fullType then Types(entries[..], flags[..]) else OneType(kind);
    l := PackBox(conf, types, show, heights);
  }

  /** The liquid section of a grid with at least one shown cell. */
  method PackBox(conf: Conf, types: LiquidTypes, show: array2<bool>, heights: array2<real>) returns (l: LiquidSection)
    requires Grids(show, heights)
    requires exists y: nat, x: nat :: y < GRID && x < GRID && show[y, x]
    modifies heights
    ensures l.Liquid? && l.types == types
    ensures l.offsetX < 256 && l.offsetY < 256 && 2 <= l.width < 256 && 2 <= l.height < 256
    ensures ColumnShown(show, l.offsetX, GRID, 0) && ColumnShown(show, l.offsetX + l.width - 2, GRID, 0)
    ensures RowShown(show, l.offsetY, GRID, 0) && RowShown(show, l.offsetY + l.height - 2, GRID, 0)
    ensures l.heights.Heights? ==> |l.heights.points| == l.width * l.height
    ensures forall y: nat, x: nat :: y < GRID && x < GRID && show[y, x] ==> LevelAt(l, y, x, old(heights[y, x]))
  {
    hide PointIs, ColumnShown, RowShown, Bounds, Tight, Copied, LevelAt;
    var box := ScanLiquid(show, heights);
    BoxIsProper(show, heights, box);
    var width, height := box.maxX - box.minX + 2, box.maxY - box.minY + 2;
    var noHeight := box.max == box.min || (conf.allowFloatToInt && box.max - box.min < FLAT_LIQUID_DELTA_LIMIT);
    var levels := Level;
    if !noHeight {
      var points := CopyRows(heights, box.minY, box.minX, height, width);
      levels := Heights(points);
    }
    l := Liquid(types, box.minX, box.minY, width, height, box.min, levels);
    LevelsHold(show, heights, box, l);
  }

  /** Every shown cell is in the box, at its height or within the flatness limit of the level. */
  lemma LevelsHold(show: array2<bool>, heights: array2<real>, box: Box, l: LiquidSection)
    requires Grids(show, heights) && Bounds(show, heights, box, GRID, 0)
    requires box.minX <= box.maxX < GRID && box.minY <= box.maxY < GRID
    requires l.Liquid? && l.offsetX == box.minX && l.offsetY == box.minY && l.level == box.min
    requires l.width == box.maxX - box.minX + 2 && l.height == box.maxY - box.minY + 2
    requires l.heights.Level? ==> box.max - box.min < FLAT_LIQUID_DELTA_LIMIT
    requires l.heights.Heights? ==> forall y: nat, x: nat :: y < l.height && x < l.width ==>
      Copied(l.heights.points, heights, box.minY, box.minX, y, x, l.width)
    ensures forall y: nat, x: nat :: y < GRID && x < GRID && show[y, x] ==> LevelAt(l, y, x, heights[y, x])
  {
    hide PointIs;
    forall y: nat, x: nat | y < GRID && x < GRID && show[y, x] ensures LevelAt(l, y, x, heights[y, x]) {
      assert Scanned(y, x, GRID, 0);
      if l.heights.Heights? {
        assert Copied(l.heights.points, heights, box.minY, box.minX, y - box.minY, x - box.minX, l.width);
      }
    }
  }

  lemma BoxIsProper(show: array2<bool>, heights: array2<real>, box: Box)
    requires Grids(show, heights) && Bounds(show, heights, box, GRID, 0) && Tight(show, box, GRID, 0)
    requires exists y: nat, x: nat :: y < GRID && x < GRID && show[y, x]
    ensures box.minX <= box.maxX < GRID && box.minY <= box.maxY < GRID && box.min <= box.max
    ensures ColumnShown(show, box.minX, GRID, 0) && ColumnShown(show, box.maxX, GRID, 0)
    ensures RowShown(show, box.minY, GRID, 0) && RowShown(show, box.maxY, GRID, 0)
  {
    var y: nat, x: nat :| y < GRID && x < GRID && show[y, x];
    assert Scanned(y, x, GRID, 0);
  }

  // ----- the file -----

  /** The fwrite calls in order, under the flags of the headers. */
  method WriteFile(s: Sections, build: nat, holes: array<nat>) returns (output: seq<Scalar>)
    requires WellFormed(s) && holes.Length == AREAS
    ensures output == Write(s, build, holes[..])
  {
    hide HeightScalars, LiquidScalars, HeaderScalars, U16s;
    var header := MakeHeader(s);
    output := HeaderScalars(header, build);
    output := output + AreaHeader(s.area);
    if s.area.FullArea? {
      output := output + U16s(s.area.areas);
    }
    assert output == HeaderScalars(header, build) + AreaScalars(s.area);
    output := WriteHeights(output, s.heights);
    if header.liquidMapOffset != 0 {
      output := WriteLiquid(output, s.liquid);
    } else {
      NoLiquidScalars(s.liquid);
    }
    output := output + U16s(holes[..]);
  }

  lemma NoLiquidScalars(l: LiquidSection)
    requires l.NoLiquid?
    ensures LiquidScalars(l) == []
  {
  }

  method WriteHeights(before: seq<Scalar>, h: HeightSection) returns (output: seq<Scalar>)
    ensures output == before + HeightScalars(h)
  {
    hide U8s, U16s, F32s;
    output := before + HeightHeader(h);
    match h.data {
      case NoHeights =>
      case Int8Heights(v9, v8) =>
        output := output + U8s(v9);
        output := output + U8s(v8);
      case Int16Heights(w9, w8) =>
        output := output + U16s(w9);
        output := output + U16s(w8);
      case FloatHeights(f9, f8) =>
        output := output + F32s(f9);
        output := output + F32s(f8);
    }
    assert output == before + (HeightHeader(h) + HeightArrays(h.data));
  }

  method WriteLiquid(before: seq<Scalar>, l: LiquidSection) returns (output: seq<Scalar>)
    requires l.Liquid?
    ensures output == before + LiquidScalars(l)
  {
    hide U8s, U16s, F32s;
    output := before + LiquidHeader(l);
    if l.types.Types? {
      output := output + U16s(l.types.entries);
      output := output + U8s(l.types.flags);
    }
    if l.heights.Heights? {
      output := output + F32s(l.heights.points);
    }
    assert output == before + (LiquidHeader(l) + (TypeScalars(l.types) + LevelScalars(l.heights)));
  }

  /** The conversion as a whole: the file reads back to sections that give every area, height,
      liquid type and liquid height of the tile. */
  method ConvertADT(conf: Conf, build: nat, areas: array<nat>, v9: array<real>, v8: array<real>,
                    entries: array<nat>, flags: array<nat>, show: array2<bool>, heights: array2<real>,
                    holes: array<nat>)
    returns (output: seq<Scalar>, s: Sections)
    requires areas.Length == entries.Length == flags.Length == holes.Length == AREAS
    requires v9 != v8 && v9.Length == V9_POINTS && v8.Length == V8_POINTS
    requires Grids(show, heights)
    requires (exists i :: 0 <= i < AREAS && flags[i] != 0) ==>
        exists y: nat, x: nat :: y < GRID && x < GRID && show[y, x]
    modifies v9, v8, heights
    ensures Load(output) == Ok(s)
    ensures Bytes(output) == MakeHeader(s).holesOffset + MakeHeader(s).holesSize
    ensures |output| > 10 && output[2] == U32(build) && output[9].U32?
    ensures ReadU16s(Seek(output, output[9].v), AREAS) == Got(holes[..], [])
    ensures s.area.FullArea? ==> |s.area.areas| == AREAS
    ensures forall i: nat :: i < AREAS ==> AreaAt(s.area, i) == areas[i]
    ensures s.heights == PackHeights(conf, old(v9[..]), old(v8[..]))
    ensures forall i: nat :: i < AREAS ==> TypeAt(s.liquid, i, flags[i])
    ensures EntriesKept(s.liquid, entries[..], flags[..])
    ensures s.liquid.Liquid? ==> forall y: nat, x: nat :: y < GRID && x < GRID && show[y, x] ==>
        LevelAt(s.liquid, y, x, old(heights[y, x]))
  {
    hide Load, Write, PackHeights, MakeHeader, ReadU16s, Seek;
    var a := PackArea(areas);
    var h := ConvertHeights(conf, v9, v8);
    PackedArraysFull(conf, old(v9[..]), old(v8[..]));
    var l := PackLiquid(conf, entries, flags, show, heights);
    s := Sections(a, h, l);
    output := WriteFile(s, build, holes);
    LoadWritten(s, build, holes[..]);
    HeaderTilesFile(s, build, holes[..]);
    HeaderWritten(s, build, holes[..]);
  }

  lemma PackedArraysFull(conf: Conf, v9: seq<real>, v8: seq<real>)
    requires |v9| == V9_POINTS && |v8| == V8_POINTS
    ensures FullArrays(PackHeights(conf, v9, v8).data)
  {
    RangeHolds(v9, v8);
    if Limited(conf, v9, v8) {
      RaisedRangeHolds(v9, LowestOf(v9, v8), HighestOf(v9, v8));
      RaisedRangeHolds(v8, LowestOf(v9, v8), HighestOf(v9, v8));
    }
  }
}
