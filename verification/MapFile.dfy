/** The map file: sections, header, writer and reader. */
module MapFile {
  import opened MapStream
  import opened MapPacking

  const MAP_MAGIC: nat := 0x5350414D
  const MAP_VERSION_MAGIC: nat := 0x332E3176
  const MAP_AREA_MAGIC: nat := 0x41455241
  const MAP_HEIGHT_MAGIC: nat := 0x5447484D
  const MAP_LIQUID_MAGIC: nat := 0x51494C4D
  const AREAS: nat := 16 * 16
  const V8_POINTS: nat := 128 * 128
  const V9_POINTS: nat := 129 * 129
  const FLAT_LIQUID_DELTA_LIMIT: real := 0.001

  const MAP_AREA_NO_AREA: nat := 1
  const MAP_HEIGHT_NO_HEIGHT: nat := 1
  const MAP_HEIGHT_AS_INT16: nat := 2
  const MAP_HEIGHT_AS_INT8: nat := 4
  const MAP_LIQUID_NO_TYPE: nat := 1
  const MAP_LIQUID_NO_HEIGHT: nat := 2

  datatype AreaSection = UniformArea(area: nat) | FullArea(areas: seq<nat>)

  datatype LiquidTypes = OneType(kind: nat) | Types(entries: seq<nat>, flags: seq<nat>)

  datatype LiquidHeights = Level | Heights(points: seq<real>)

  datatype LiquidSection =
    | NoLiquid
    | Liquid(types: LiquidTypes, offsetX: nat, offsetY: nat, width: nat, height: nat, level: real,
             heights: LiquidHeights)

  datatype Sections = Sections(area: AreaSection, heights: HeightSection, liquid: LiquidSection)

  predicate FullArrays(d: HeightData) {
    match d
    case NoHeights => true
    case Int8Heights(v9, v8) => |v9| == V9_POINTS && |v8| == V8_POINTS
    case Int16Heights(w9, w8) => |w9| == V9_POINTS && |w8| == V8_POINTS
    case FloatHeights(f9, f8) => |f9| == V9_POINTS && |f8| == V8_POINTS
  }

  /** The array sizes of the code; a packed height section always has a proper range. */
  predicate WellFormed(s: Sections) {
    && (s.area.FullArea? ==> |s.area.areas| == AREAS)
    && FullArrays(s.heights.data)
    && (s.liquid.Liquid? && s.liquid.types.Types? ==>
        |s.liquid.types.entries| == AREAS && |s.liquid.types.flags| == AREAS)
    && (s.liquid.Liquid? && s.liquid.heights.Heights? ==> |s.liquid.heights.points| == s.liquid.width * s.liquid.height)
  }

  // ----- flags -----

  function HeightFlags(d: HeightData): nat {
    match d
    case NoHeights => MAP_HEIGHT_NO_HEIGHT
    case Int8Heights(_, _) => MAP_HEIGHT_AS_INT8
    case Int16Heights(_, _) => MAP_HEIGHT_AS_INT16
    case FloatHeights(_, _) => 0
  }

  function LiquidFlags(l: LiquidSection): nat
    requires l.Liquid?
  {
    (if l.types.OneType? then MAP_LIQUID_NO_TYPE else 0) + (if l.heights.Level? then MAP_LIQUID_NO_HEIGHT else 0)
  }

  // ----- header -----

  datatype Header = Header(
    areaMapOffset: nat, areaMapSize: nat, heightMapOffset: nat, heightMapSize: nat,
    liquidMapOffset: nat, liquidMapSize: nat, holesOffset: nat, holesSize: nat)

  /** The sizes and offsets as ConvertADT adds them up, from the sizes of its structures. */
  function MakeHeader(s: Sections): Header {
    var areaSize := 8 + if s.area.FullArea? then 2 * AREAS else 0;
    var heightSize := 16 + match s.heights.data {
      case NoHeights => 0
      case Int8Heights(_, _) => V9_POINTS + V8_POINTS
      case Int16Heights(_, _) => 2 * V9_POINTS + 2 * V8_POINTS
      case FloatHeights(_, _) => 4 * V9_POINTS + 4 * V8_POINTS
    };
    var heightOffset := 44 + areaSize;
    var liquidOffset := if s.liquid.NoLiquid? then 0 else heightOffset + heightSize;
    var liquidSize :=
      if s.liquid.NoLiquid? then 0
      else
        16 + (if s.liquid.types.OneType? then 0 else 2 * AREAS + AREAS)
        + (if s.liquid.heights.Level? then 0 else 4 * s.liquid.width * s.liquid.height);
    var holesOffset := if liquidOffset != 0 then liquidOffset + liquidSize else heightOffset + heightSize;
    Header(44, areaSize, heightOffset, heightSize, liquidOffset, liquidSize, holesOffset, 2 * AREAS)
  }

  // ----- writer -----

  function HeaderScalars(h: Header, build: nat): seq<Scalar> {
    [U32(MAP_MAGIC), U32(MAP_VERSION_MAGIC), U32(build), U32(h.areaMapOffset), U32(h.areaMapSize),
        U32(h.heightMapOffset),
     U32(h.heightMapSize), U32(h.liquidMapOffset), U32(h.liquidMapSize), U32(h.holesOffset), U32(h.holesSize)]
  }

  function AreaHeader(a: AreaSection): seq<Scalar> {
    [U32(MAP_AREA_MAGIC), U16(if a.FullArea? then 0 else MAP_AREA_NO_AREA), U16(if a.FullArea? then 0 else a.area)]
  }

  function AreaScalars(a: AreaSection): seq<Scalar> {
    AreaHeader(a) + if a.FullArea? then U16s(a.areas) else []
  }

  function HeightHeader(h: HeightSection): seq<Scalar> {
    [U32(MAP_HEIGHT_MAGIC), U32(HeightFlags(h.data)), F32(h.min), F32(h.max)]
  }

  function HeightArrays(d: HeightData): seq<Scalar> {
    match d
    case NoHeights => []
    case Int8Heights(v9, v8) => U8s(v9) + U8s(v8)
    case Int16Heights(w9, w8) => U16s(w9) + U16s(w8)
    case FloatHeights(f9, f8) => F32s(f9) + F32s(f8)
  }

  function HeightScalars(h: HeightSection): seq<Scalar> { HeightHeader(h) + HeightArrays(h.data) }

  function LiquidHeader(l: LiquidSection): seq<Scalar>
    requires l.Liquid?
  {
    [U32(MAP_LIQUID_MAGIC), U16(LiquidFlags(l)), U16(if l.types.OneType? then l.types.kind else 0),
     U8(l.offsetX), U8(l.offsetY), U8(l.width), U8(l.height), F32(l.level)]
  }

  function TypeScalars(t: LiquidTypes): seq<Scalar> {
    if t.OneType? then [] else U16s(t.entries) + U8s(t.flags)
  }

  function LevelScalars(h: LiquidHeights): seq<Scalar> {
    if h.Level? then [] else F32s(h.points)
  }

  function LiquidScalars(l: LiquidSection): seq<Scalar> {
    if l.NoLiquid? then [] else LiquidHeader(l) + (TypeScalars(l.types) + LevelScalars(l.heights))
  }

  function Write(s: Sections, build: nat, holes: seq<nat>): seq<Scalar> {
    HeaderScalars(MakeHeader(s), build)
    + AreaScalars(s.area) + HeightScalars(s.heights) + LiquidScalars(s.liquid) + U16s(holes)
  }

  // ----- layout -----

  lemma AreaBytes(a: AreaSection)
    ensures Bytes(AreaScalars(a)) == 8 + if a.FullArea? then 2 * |a.areas| else 0
  {
    if a.FullArea? {
      BytesConcat(AreaHeader(a), U16s(a.areas));
      ArrayBytes(a.areas, []);
    } else {
      BytesConcat(AreaHeader(a), []);
    }
    HeaderBytes3(AreaHeader(a));
  }

  lemma HeaderBytes3(h: seq<Scalar>)
    requires |h| == 3
    ensures Bytes(h) == h[0].Size() + h[1].Size() + h[2].Size()
  {
    assert h[1..][1..] == h[2..] && h[2..][1..] == [];
    assert Bytes(h[2..]) == h[2].Size();
  }

  lemma HeaderBytes4(h: seq<Scalar>)
    requires |h| == 4
    ensures Bytes(h) == h[0].Size() + h[1].Size() + h[2].Size() + h[3].Size()
  {
    HeaderBytes3(h[1..]);
  }

  lemma HeightBytes(h: HeightSection)
    ensures Bytes(HeightScalars(h)) == 16 + match h.data {
      case NoHeights => 0
      case Int8Heights(v9, v8) => |v9| + |v8|
      case Int16Heights(w9, w8) => 2 * |w9| + 2 * |w8|
      case FloatHeights(f9, f8) => 4 * |f9| + 4 * |f8|
    }
  {
    BytesConcat(HeightHeader(h), HeightArrays(h.data));
    HeaderBytes4(HeightHeader(h));
    match h.data
    case NoHeights =>
    case Int8Heights(v9, v8) => BytesConcat(U8s(v9), U8s(v8)); ArrayBytes(v9, []); ArrayBytes(v8, []);
    case Int16Heights(w9, w8) => BytesConcat(U16s(w9), U16s(w8)); ArrayBytes(w9, []); ArrayBytes(w8, []);
    case FloatHeights(f9, f8) => BytesConcat(F32s(f9), F32s(f8)); ArrayBytes([], f9); ArrayBytes([], f8);
  }

  lemma LiquidBytes(l: LiquidSection)
    requires l.Liquid?
    ensures Bytes(LiquidScalars(l)) == 16
            + (if l.types.OneType? then 0 else 2 * |l.types.entries| + |l.types.flags|)
            + (if l.heights.Level? then 0 else 4 * |l.heights.points|)
  {
    var h := LiquidHeader(l);
    BytesConcat(h, TypeScalars(l.types) + LevelScalars(l.heights));
    BytesConcat(TypeScalars(l.types), LevelScalars(l.heights));
    BytesConcat(h[..4], h[4..]);
    assert h == h[..4] + h[4..];
    HeaderBytes4(h[..4]);
    HeaderBytes4(h[4..]);
    if l.types.Types? {
      BytesConcat(U16s(l.types.entries), U8s(l.types.flags));
      ArrayBytes(l.types.entries, []);
      ArrayBytes(l.types.flags, []);
    }
    if l.heights.Heights? {
      ArrayBytes([], l.heights.points);
    }
  }

  lemma FileHeaderBytes(h: Header, build: nat)
    ensures Bytes(HeaderScalars(h, build)) == 44
  {
    UniformBytes(HeaderScalars(h, build), 4);
  }

  /** The header's sizes are the bytes of its sections, each offset is where the section before
      it ends, and the last section ends with the file: no gap and no overlap. */
  lemma HeaderTilesFile(s: Sections, build: nat, holes: seq<nat>)
    requires WellFormed(s) && |holes| == AREAS
    ensures var h := MakeHeader(s);
            && h.areaMapOffset == Bytes(HeaderScalars(h, build))
            && Bytes(AreaScalars(s.area)) == h.areaMapSize
            && h.heightMapOffset == h.areaMapOffset + h.areaMapSize
            && Bytes(HeightScalars(s.heights)) == h.heightMapSize
            && Bytes(LiquidScalars(s.liquid)) == h.liquidMapSize
            && (s.liquid.Liquid? ==> h.liquidMapOffset == h.heightMapOffset + h.heightMapSize)
            && h.holesOffset == h.heightMapOffset + h.heightMapSize + h.liquidMapSize
            && Bytes(U16s(holes)) == h.holesSize
            && Bytes(Write(s, build, holes)) == h.holesOffset + h.holesSize
  {
    var h := MakeHeader(s);
    SectionBytes(s, build, holes);
    var a, b, c := HeaderScalars(h, build), AreaScalars(s.area), HeightScalars(s.heights);
    BytesConcat(a, b);
    BytesConcat(a + b, c);
    BytesConcat(a + b + c, LiquidScalars(s.liquid));
    BytesConcat(a + b + c + LiquidScalars(s.liquid), U16s(holes));
  }

  lemma SectionBytes(s: Sections, build: nat, holes: seq<nat>)
    requires WellFormed(s) && |holes| == AREAS
    ensures var h := MakeHeader(s);
            && Bytes(HeaderScalars(h, build)) == 44
            && Bytes(AreaScalars(s.area)) == h.areaMapSize
            && Bytes(HeightScalars(s.heights)) == h.heightMapSize
            && Bytes(LiquidScalars(s.liquid)) == h.liquidMapSize
            && Bytes(U16s(holes)) == h.holesSize
  {
    FileHeaderBytes(MakeHeader(s), build);
    AreaBytes(s.area);
    HeightBytes(s.heights);
    if s.liquid.Liquid? {
      LiquidBytes(s.liquid);
    }
    ArrayBytes(holes, []);
  }

  // ----- reader -----

  datatype Loaded<T> = BadFile | Ok(value: T)

  /** GridMap::loadAreaData. */
  function LoadArea(file: seq<Scalar>, offset: nat): Loaded<AreaSection> {
    var s := Seek(file, offset);
    if |s| < 3 || s[0] != U32(MAP_AREA_MAGIC) || !s[1].U16? || !s[2].U16? then BadFile
    else if s[1].v % 2 == 1 then Ok(UniformArea(s[2].v))
    else
      var areas := ReadU16s(s[3..], AREAS);
      if areas.Failed? then BadFile else Ok(FullArea(areas.value))
  }

  /** The arrays after a height header; the sixteen-bit flag is asked first. */
  function LoadHeightArrays(s: seq<Scalar>, flags: nat): Loaded<HeightData> {
    if flags % 2 == 1 then Ok(NoHeights)
    else if flags / 2 % 2 == 1 then
      var v9 := ReadU16s(s, V9_POINTS);
      if v9.Failed? then BadFile
      else
        var v8 := ReadU16s(v9.rest, V8_POINTS);
        if v8.Failed? then BadFile else Ok(Int16Heights(v9.value, v8.value))
    else if flags / 4 % 2 == 1 then
      var v9 := ReadU8s(s, V9_POINTS);
      if v9.Failed? then BadFile
      else
        var v8 := ReadU8s(v9.rest, V8_POINTS);
        if v8.Failed? then BadFile else Ok(Int8Heights(v9.value, v8.value))
    else
      var v9 := ReadF32s(s, V9_POINTS);
      if v9.Failed? then BadFile
      else
        var v8 := ReadF32s(v9.rest, V8_POINTS);
        if v8.Failed? then BadFile else Ok(FloatHeights(v9.value, v8.value))
  }

  /** GridMap::loadHeightData. */
  function LoadHeights(file: seq<Scalar>, offset: nat): Loaded<HeightSection> {
    var s := Seek(file, offset);
    if |s| < 4 || s[0] != U32(MAP_HEIGHT_MAGIC) || !s[1].U32? || !s[2].F32? || !s[3].F32? then BadFile
    else
      var data := LoadHeightArrays(s[4..], s[1].v);
      if data.BadFile? then BadFile else Ok(HeightSection(s[2].r, s[3].r, data.value))
  }

  datatype TypesRead = TypesRead(types: LiquidTypes, rest: seq<Scalar>)

  function LoadTypes(s: seq<Scalar>, noType: bool, kind: nat): Loaded<TypesRead> {
    if noType then Ok(TypesRead(OneType(kind), s))
    else
      var entries := ReadU16s(s, AREAS);
      if entries.Failed? then BadFile
      else
        var flags := ReadU8s(entries.rest, AREAS);
        if flags.Failed? then BadFile else Ok(TypesRead(Types(entries.value, flags.value), flags.rest))
  }

  function LoadLevels(s: seq<Scalar>, noHeight: bool, points: nat): Loaded<LiquidHeights> {
    if noHeight then Ok(Level)
    else
      var heights := ReadF32s(s, points);
      if heights.Failed? then BadFile else Ok(Heights(heights.value))
  }

  /** GridMap::loadGridMapLiquidData. */
  function LoadLiquid(file: seq<Scalar>, offset: nat): Loaded<LiquidSection> {
    var s := Seek(file, offset);
    if |s| < 8 || s[0] != U32(MAP_LIQUID_MAGIC) || !s[1].U16? || !s[2].U16?
       || !s[3].U8? || !s[4].U8? || !s[5].U8? || !s[6].U8? || !s[7].F32? then
      BadFile
    else
      var types := LoadTypes(s[8..], s[1].v % 2 == 1, s[2].v);
      if types.BadFile? then BadFile
      else
        var heights := LoadLevels(types.value.rest, s[1].v / 2 % 2 == 1, s[5].v * s[6].v);
        if heights.BadFile? then BadFile
        else Ok(Liquid(types.value.types, s[3].v, s[4].v, s[5].v, s[6].v, s[7].r, heights.value))
  }

  /** GridMap::loadData on an existing file of an accepted client build. */
  function Load(file: seq<Scalar>): Loaded<Sections> {
    if |file| < 11 || (exists i :: 0 <= i < 11 && !file[i].U32?)
       || file[0].v != MAP_MAGIC || file[1].v != MAP_VERSION_MAGIC
    then BadFile
    else
      var area := LoadArea(file, file[3].v);
      var heights := LoadHeights(file, file[5].v);
      var liquid := if file[7].v == 0 then Ok(NoLiquid) else LoadLiquid(file, file[7].v);
      if area.BadFile? || heights.BadFile? || liquid.BadFile? then BadFile
      else Ok(Sections(area.value, heights.value, liquid.value))
  }

  // ----- round trip -----

  lemma LoadAreaWritten(before: seq<Scalar>, a: AreaSection, rest: seq<Scalar>)
    requires a.FullArea? ==> |a.areas| == AREAS
    ensures LoadArea(before + AreaScalars(a) + rest, Bytes(before)) == Ok(a)
  {
    assert before + AreaScalars(a) + rest == before + (AreaScalars(a) + rest);
    SeekAfter(before, AreaScalars(a) + rest);
    var s := AreaScalars(a) + rest;
    if a.FullArea? {
      assert s[3..] == U16s(a.areas) + rest;
      ReadsU16(a.areas, rest);
    }
  }

  lemma HeightArraysWritten(d: HeightData, rest: seq<Scalar>)
    requires FullArrays(d)
    ensures LoadHeightArrays(HeightArrays(d) + rest, HeightFlags(d)) == Ok(d)
  {
    hide ReadU8s, ReadU16s, ReadF32s, U8s, U16s, F32s;
    match d
    case NoHeights =>
    case Int8Heights(v9, v8) =>
      assert HeightArrays(d) + rest == U8s(v9) + (U8s(v8) + rest);
      ReadsU8(v9, U8s(v8) + rest);
      ReadsU8(v8, rest);
    case Int16Heights(w9, w8) =>
      assert HeightArrays(d) + rest == U16s(w9) + (U16s(w8) + rest);
      ReadsU16(w9, U16s(w8) + rest);
      ReadsU16(w8, rest);
    case FloatHeights(f9, f8) =>
      assert HeightArrays(d) + rest == F32s(f9) + (F32s(f8) + rest);
      ReadsF32(f9, F32s(f8) + rest);
      ReadsF32(f8, rest);
  }

  lemma LoadHeightsWritten(before: seq<Scalar>, h: HeightSection, rest: seq<Scalar>)
    requires FullArrays(h.data)
    ensures LoadHeights(before + HeightScalars(h) + rest, Bytes(before)) == Ok(h)
  {
    hide Seek, LoadHeightArrays, HeightArrays, HeightFlags, FullArrays;
    var s := HeightScalars(h) + rest;
    assert before + HeightScalars(h) + rest == before + s;
    SeekAfter(before, s);
    assert s[4..] == HeightArrays(h.data) + rest;
    HeightArraysWritten(h.data, rest);
  }

  lemma LoadTypesWritten(t: LiquidTypes, rest: seq<Scalar>)
    requires t.Types? ==> |t.entries| == AREAS && |t.flags| == AREAS
    ensures LoadTypes(TypeScalars(t) + rest, t.OneType?, if t.OneType? then t.kind else 0) == Ok(TypesRead(t, rest))
  {
    if t.Types? {
      assert TypeScalars(t) + rest == U16s(t.entries) + (U8s(t.flags) + rest);
      ReadsU16(t.entries, U8s(t.flags) + rest);
      ReadsU8(t.flags, rest);
    } else {
      assert TypeScalars(t) + rest == rest;
    }
  }

  lemma LoadLiquidWritten(before: seq<Scalar>, l: LiquidSection, rest: seq<Scalar>)
    requires l.Liquid?
    requires l.types.Types? ==> |l.types.entries| == AREAS && |l.types.flags| == AREAS
    requires l.heights.Heights? ==> |l.heights.points| == l.width * l.height
    ensures LoadLiquid(before + LiquidScalars(l) + rest, Bytes(before)) == Ok(l)
  {
    hide Seek, TypeScalars, LoadTypes, U8s, U16s, F32s, ReadF32s, Bytes;
    var s := LiquidScalars(l) + rest;
    assert before + LiquidScalars(l) + rest == before + s;
    SeekAfter(before, s);
    assert s[8..] == TypeScalars(l.types) + (LevelScalars(l.heights) + rest);
    LoadTypesWritten(l.types, LevelScalars(l.heights) + rest);
    if l.heights.Heights? {
      ReadsF32(l.heights.points, rest);
    }
  }

  /** Reading a written file gives back every section. */
  lemma LoadWritten(s: Sections, build: nat, holes: seq<nat>)
    requires WellFormed(s) && |holes| == AREAS
    ensures Load(Write(s, build, holes)) == Ok(s)
  {
    hide LoadArea, LoadHeights, LoadLiquid, AreaScalars, HeightScalars, LiquidScalars, U16s, Bytes;
    var h := MakeHeader(s);
    var file := Write(s, build, holes);
    var a, b, c, d, e := HeaderScalars(h, build), AreaScalars(s.area), HeightScalars(s.heights),
        LiquidScalars(s.liquid), U16s(holes);
    SectionBytes(s, build, holes);
    BytesConcat(a, b);
    BytesConcat(a + b, c);
    assert file == a + b + (c + d + e);
    LoadAreaWritten(a, s.area, c + d + e);
    assert file == (a + b) + c + (d + e);
    LoadHeightsWritten(a + b, s.heights, d + e);
    if s.liquid.Liquid? {
      assert file == (a + b + c) + d + e;
      LoadLiquidWritten(a + b + c, s.liquid, e);
    }
    assert file[..11] == a;
    assert forall i :: 0 <= i < 11 ==> file[i] == a[i];
  }

  /** What the reader does not look at: the build, the section sizes and the holes.  The header
      names the bytes of each section, and at the offset it gives for them the holes come back. */
  lemma HeaderWritten(s: Sections, build: nat, holes: seq<nat>)
    requires WellFormed(s) && |holes| == AREAS
    ensures var file := Write(s, build, holes);
      && |file| > 10 && file[2] == U32(build)
      && file[4] == U32(Bytes(AreaScalars(s.area))) && file[6] == U32(Bytes(HeightScalars(s.heights)))
      && file[8] == U32(Bytes(LiquidScalars(s.liquid))) && file[10] == U32(2 * AREAS)
      && file[9].U32? && ReadU16s(Seek(file, file[9].v), AREAS) == Got(holes, [])
  {
    hide AreaScalars, HeightScalars, LiquidScalars, U16s, Bytes, ReadU16s, Seek;
    var h := MakeHeader(s);
    var file := Write(s, build, holes);
    var a, b, c, d, e := HeaderScalars(h, build), AreaScalars(s.area), HeightScalars(s.heights),
        LiquidScalars(s.liquid), U16s(holes);
    SectionBytes(s, build, holes);
    HeaderTilesFile(s, build, holes);
    BytesConcat(a, b);
    BytesConcat(a + b, c);
    BytesConcat(a + b + c, d);
    assert file == (a + b + c + d) + e;
    SeekAfter(a + b + c + d, e);
    ReadsU16(holes, []);
    assert e + [] == e;
    assert file[..11] == a;
    assert forall i :: 0 <= i < 11 ==> file[i] == a[i];
  }
}
