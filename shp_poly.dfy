/** The PolyLine / Polygon record writer of the shp-write library: it lays out
    one main-file record and one index entry per geometry, following the ESRI
    Shapefile Technical Description (July 1998), sections "Main File Record
    Headers", "PolyLine", "Polygon", "PolyLineZ", "PolygonZ" and
    "Organization of the Index File".

    A DataView is modelled as a map from byte offset to the typed value
    stored there; the IEEE-754 bit patterns of doubles are not modelled. The
    proofs show that the writes of a file never overlap and tile the file
    from its first byte to its last, so the map loses nothing a byte array
    would keep. */
module ShpPoly {

  type Position = seq<real>

  /** An IEEE-754 double, abstractly. */
  datatype Double = Finite(value: real) | PositiveInfinity | NegativeInfinity | NaN

  /** A value stored by `setInt32` (either byte order) or by `setFloat64`
      with littleEndian = true, the only order the writer uses for doubles. */
  datatype Slot = Int32BE(int32: int) | Int32LE(int32: int) | Float64LE(float64: Double)

  type SlotWrite = (int, Slot)

  /** Bytes a slot occupies. */
  function Width(s: Slot): nat {
    if s.Float64LE? then 8 else 4
  }

  // Shape type codes of the records this writer produces.
  const POLYLINE: int := 3
  const POLYGON: int := 5
  const POLYLINEZ: int := 13
  const POLYGONZ: int := 15

  predicate Is3D(shapeType: int) {
    shapeType == POLYLINEZ || shapeType == POLYGONZ
  }

  predicate IsPolyLine(shapeType: int) {
    shapeType == POLYLINE || shapeType == POLYLINEZ
  }

  /** The ECMAScript ToInt32 wrap-around applied to an integral value. */
  function ToInt32(x: int): (r: int)
    ensures -0x8000_0000 <= r < 0x8000_0000
    ensures -0x8000_0000 <= x < 0x8000_0000 ==> r == x
  {
    (x + 0x8000_0000) % 0x1_0000_0000 - 0x8000_0000
  }

  /** `x / 2` as ToInt32 sees it: the fraction is truncated toward zero. */
  function TruncHalf(x: int): (r: int)
    ensures x % 2 == 0 ==> 2 * r == x
    ensures x >= 0 ==> r == x / 2
  {
    if x >= 0 then x / 2 else -((-x) / 2)
  }

  // ---------------------------------------------------------------------
  // Buffers
  // ---------------------------------------------------------------------

  /** A DataView over an ArrayBuffer, represented by the buffer's contents
      when the view was made and the writes made through it since, in order.
      What a read would see is `Contents()`. */
  class DataView {
    const initial: map<int, Slot>
    var writes: seq<SlotWrite>

    /** The buffer as it is now: every write applied in order, a later write
        to an offset replacing an earlier one. */
    function Contents(): map<int, Slot>
      reads this
    {
      ApplyWrites(initial, writes)
    }

    /** `new DataView(new ArrayBuffer(...))`: nothing written yet. */
    constructor ()
      ensures writes == [] && Contents() == map[]
    {
      initial := map[];
      writes := [];
    }

    /** DataView.prototype.setInt32; big-endian unless littleEndian. */
    method SetInt32(byteOffset: int, value: int, littleEndian: bool)
      modifies this
      ensures writes == old(writes) + [(byteOffset, if littleEndian then Int32LE(ToInt32(value)) else Int32BE(ToInt32(value)))]
    {
      writes := writes + [(byteOffset, if littleEndian then Int32LE(ToInt32(value)) else Int32BE(ToInt32(value)))];
    }

    /** DataView.prototype.setFloat64 with littleEndian = true. */
    method SetFloat64(byteOffset: int, value: Double)
      modifies this
      ensures writes == old(writes) + [(byteOffset, Float64LE(value))]
    {
      writes := writes + [(byteOffset, Float64LE(value))];
    }
  }

  /** The buffer after a sequence of writes, performed in order. */
  function ApplyWrites(m: map<int, Slot>, ws: seq<SlotWrite>): map<int, Slot>
    decreases |ws|
  {
    if |ws| == 0 then m
    else ApplyWrites(m, ws[..|ws| - 1])[ws[|ws| - 1].0 := ws[|ws| - 1].1]
  }

  /** The buffer holds v at byte offset o. */
  predicate HoldsAt(m: map<int, Slot>, o: int, v: Slot) {
    o in m && m[o] == v
  }

  /** The writes start at `s`, each one begins where the previous one ends,
      and the last one ends at `e`. */
  predicate Tiles(ws: seq<SlotWrite>, s: int, e: int)
    decreases |ws|
  {
    if |ws| == 0 then s == e
    else ws[0].0 == s && Tiles(ws[1..], s + Width(ws[0].1), e)
  }

  // ---------------------------------------------------------------------
  // Geometries as the writer receives them
  // ---------------------------------------------------------------------

  /** One record's `coordinates`: the positions of a LineString, or a list of
      position lists (the rings of a Polygon, or a MultiLineString element
      wrapped as `[line]`). */
  datatype Geometry = Line(points: seq<Position>) | Rings(rings: seq<seq<Position>>)

  /** What `justCoords` needs in order not to throw: a non-empty list, and
      non-empty inner lists. */
  predicate NonEmpty(g: Geometry) {
    match g
    case Line(ps) => |ps| > 0
    case Rings(rs) => |rs| > 0 && forall k :: 0 <= k < |rs| ==> |rs[k]| > 0
  }

  /** What `writePoly` needs in addition: its part scan reads `coords[0][0]`
      of every top-level entry, which throws on an empty position of a line. */
  predicate WellFormed(g: Geometry) {
    NonEmpty(g) && (g.Line? ==> forall k :: 0 <= k < |g.points| ==> |g.points[k]| > 0)
  }

  predicate AllNonEmpty(gs: seq<Geometry>) {
    forall k :: 0 <= k < |gs| ==> NonEmpty(gs[k])
  }

  function Flatten(rs: seq<seq<Position>>): seq<Position>
    decreases |rs|
  {
    if |rs| == 0 then [] else Flatten(rs[..|rs| - 1]) + rs[|rs| - 1]
  }

  /** `justCoords`: a list of positions is returned as it is, a list of rings
      is concatenated in order. (The source throws on an empty list; the
      writer methods below demand NonEmpty.) */
  function JustCoords(g: Geometry): seq<Position>
  {
    match g
    case Line(ps) => ps
    case Rings(rs) => Flatten(rs)
  }

  /** The lengths of the top-level entries: what the part scan (`onlyParts`)
      collects. For every well-formed geometry the scan keeps the top-level
      entries as they are, because their `[0][0]` is never an array. */
  function PartLengths(g: Geometry): (lens: seq<nat>)
    ensures |lens| == TopCount(g)
  {
    match g
    case Line(ps) => seq(|ps|, k requires 0 <= k < |ps| => |ps[k]|)
    case Rings(rs) => seq(|rs|, k requires 0 <= k < |rs| => |rs[k]|)
  }

  /** `coordinates.length`, which `parts` returns. */
  function TopCount(g: Geometry): nat {
    match g
    case Line(ps) => |ps|
    case Rings(rs) => |rs|
  }

  /** Number of parts of a record: `parts([coordinates])` for the polyline
      types, `parts(coordinates)` otherwise. */
  function NoParts(g: Geometry, shapeType: int): nat {
    if IsPolyLine(shapeType) then 1 else TopCount(g)
  }

  function Sum(s: seq<nat>): nat
    decreases |s|
  {
    if |s| == 0 then 0 else Sum(s[..|s| - 1]) + s[|s| - 1]
  }

  /** The part-index value of part p: the total length of parts 0 .. p-1
      (`reduce` over `onlyParts.slice(0, p)`, which stops at the end). */
  function PrefixLength(lens: seq<nat>, p: nat): nat
  {
    if p <= |lens| then Sum(lens[..p]) else Sum(lens)
  }

  /** Record content length in bytes (the record header excluded) of a record
      with n points and the given part count. */
  function ContentLengthOf(n: int, noParts: int, shapeType: int): int {
    n * 16 + 48 + (noParts - 1) * 4 + (if Is3D(shapeType) then 32 + n * 16 else 0)
  }

  function ContentLength(g: Geometry, shapeType: int): int {
    ContentLengthOf(|JustCoords(g)|, NoParts(g, shapeType), shapeType)
  }

  // ---------------------------------------------------------------------
  // Extents
  // ---------------------------------------------------------------------

  datatype Extent = Extent(xmin: Double, ymin: Double, xmax: Double, ymax: Double,
                           zmin: Double, zmax: Double, mmin: Double, mmax: Double)

  /** `reduce(enlarge, e)` over positions. The library's extent module is not
      part of this model, so `blank` and `enlarge` are parameters. */
  function FoldExtent(e: Extent, enlarge: (Extent, Position) -> Extent, ps: seq<Position>): Extent
    decreases |ps|
  {
    if |ps| == 0 then e else enlarge(FoldExtent(e, enlarge, ps[..|ps| - 1]), ps[|ps| - 1])
  }

  /** `extent(coordinates)`, also the `featureExtent` of `writePoly`. */
  function ExtentOf(g: Geometry, blank: Extent, enlarge: (Extent, Position) -> Extent): Extent
  {
    FoldExtent(blank, enlarge, JustCoords(g))
  }

  // ---------------------------------------------------------------------
  // The writes of one record, in program order
  // ---------------------------------------------------------------------

  /** `coords[0]`, `coords[1]`: a missing entry is `undefined`, stored as NaN. */
  function XCoord(p: Position): Double {
    if |p| > 0 then Finite(p[0]) else NaN
  }

  function YCoord(p: Position): Double {
    if |p| > 1 then Finite(p[1]) else NaN
  }

  /** `p[j] || 0` */
  function OrZero(p: Position, j: nat): Double {
    if j < |p| then Finite(p[j]) else Finite(0.0)
  }

  /** Record header (big-endian number and length), then shape type, box,
      part and point counts and part index 0, all little-endian. */
  function HeaderWrites(s: int, i: int, shapeType: int, contentLength: int,
                        noParts: int, n: int, e: Extent): seq<SlotWrite>
  {
    [ (s, Int32BE(ToInt32(i + 1))),
      (s + 4, Int32BE(ToInt32(TruncHalf(contentLength)))),
      (s + 8, Int32LE(ToInt32(shapeType))),
      (s + 12, Float64LE(e.xmin)),
      (s + 20, Float64LE(e.ymin)),
      (s + 28, Float64LE(e.xmax)),
      (s + 36, Float64LE(e.ymax)),
      (s + 44, Int32LE(ToInt32(noParts))),
      (s + 48, Int32LE(ToInt32(n))),
      (s + 52, Int32LE(0)) ]
  }

  /** Part index entries 1 .. count-1. */
  function PartIndexWrites(s: int, lens: seq<nat>, count: nat): seq<SlotWrite>
    decreases count
  {
    if count <= 1 then []
    else PartIndexWrites(s, lens, count - 1)
         + [(s + 52 + (count - 1) * 4, Int32LE(ToInt32(PrefixLength(lens, count - 1))))]
  }

  /** The X, Y array starting at byte b. */
  function PointWrites(b: int, pts: seq<Position>): seq<SlotWrite>
    decreases |pts|
  {
    if |pts| == 0 then []
    else
      var k := |pts| - 1;
      PointWrites(b, pts[..k])
      + [(b + k * 16, Float64LE(XCoord(pts[k]))), (b + k * 16 + 8, Float64LE(YCoord(pts[k])))]
  }

  /** The Z (j = 2) or M (j = 3) array starting at byte b. */
  function MeasureWrites(b: int, pts: seq<Position>, j: nat): seq<SlotWrite>
    decreases |pts|
  {
    if |pts| == 0 then []
    else
      var k := |pts| - 1;
      MeasureWrites(b, pts[..k], j) + [(b + k * 8, Float64LE(OrZero(pts[k], j)))]
  }

  /** Z range, Z array, M range, M array of a Z record, starting at byte z. */
  function ZMWrites(z: int, pts: seq<Position>, e: Extent): seq<SlotWrite> {
    var n := |pts|;
    [(z, Float64LE(e.zmin)), (z + 8, Float64LE(e.zmax))]
    + MeasureWrites(z + 16, pts, 2)
    + [(z + 16 + n * 8, Float64LE(e.mmin)), (z + 24 + n * 8, Float64LE(e.mmax))]
    + MeasureWrites(z + 32 + n * 8, pts, 3)
  }

  /** The writes of record i (0-based) starting at byte s, given its part
      count, part lengths, flattened points and extent. */
  function RecordLayout(s: int, i: int, shapeType: int, noParts: nat, lens: seq<nat>,
                        pts: seq<Position>, e: Extent): seq<SlotWrite>
  {
    var b := s + 56 + (noParts - 1) * 4;
    HeaderWrites(s, i, shapeType, ContentLengthOf(|pts|, noParts, shapeType), noParts, |pts|, e)
    + PartIndexWrites(s, lens, noParts)
    + PointWrites(b, pts)
    + (if Is3D(shapeType) then ZMWrites(b + |pts| * 16, pts, e) else [])
  }

  /** Every main-file write `writePoly` makes for geometry g as record i. */
  function RecordWrites(g: Geometry, i: int, shapeType: int, s: int,
                        blank: Extent, enlarge: (Extent, Position) -> Extent): seq<SlotWrite>
  {
    RecordLayout(s, i, shapeType, NoParts(g, shapeType), PartLengths(g), JustCoords(g), ExtentOf(g, blank, enlarge))
  }

  /** The index entry at byte x: record offset and content length, both in
      16-bit words and big-endian. */
  function IndexWrites(x: int, shxOffset: int, contentLength: int): seq<SlotWrite> {
    [(x, Int32BE(ToInt32(TruncHalf(shxOffset)))), (x + 4, Int32BE(ToInt32(TruncHalf(contentLength))))]
  }

  // ---------------------------------------------------------------------
  // The writes of a whole file
  // ---------------------------------------------------------------------

  /** The content length of every record. */
  function ContentLengths(gs: seq<Geometry>, shapeType: int): (cls: seq<int>)
    ensures |cls| == |gs|
  {
    seq(|gs|, k requires 0 <= k < |gs| => ContentLength(gs[k], shapeType))
  }

  /** Bytes taken by records of the given content lengths: the sum of
      contentLength + 8. */
  function RecordsLength(cls: seq<int>): int
    decreases |cls|
  {
    if |cls| == 0 then 0 else RecordsLength(cls[..|cls| - 1]) + 8 + cls[|cls| - 1]
  }

  /** The main-file writes of `write` for records 0 .. n-1, in program order. */
  function ShpWritesUpTo(gs: seq<Geometry>, shapeType: int,
                         blank: Extent, enlarge: (Extent, Position) -> Extent, n: nat): seq<SlotWrite>
    requires n <= |gs|
    decreases n
  {
    if n == 0 then []
    else
      ShpWritesUpTo(gs, shapeType, blank, enlarge, n - 1)
      + RecordWrites(gs[n - 1], n - 1, shapeType, RecordsLength(ContentLengths(gs, shapeType)[..n - 1]), blank, enlarge)
  }

  function ShpWrites(gs: seq<Geometry>, shapeType: int,
                     blank: Extent, enlarge: (Extent, Position) -> Extent): seq<SlotWrite>
  {
    ShpWritesUpTo(gs, shapeType, blank, enlarge, |gs|)
  }

  /** The index entries of records 0 .. n-1; the offset counts the 100-byte
      file header. */
  function IndexFile(cls: seq<int>, n: nat): seq<SlotWrite>
    requires n <= |cls|
    decreases n
  {
    if n == 0 then []
    else IndexFile(cls, n - 1) + IndexWrites(8 * (n - 1), 100 + RecordsLength(cls[..n - 1]), cls[n - 1])
  }

  /** All index-file writes of `write`. */
  function ShxWrites(gs: seq<Geometry>, shapeType: int): seq<SlotWrite> {
    IndexFile(ContentLengths(gs, shapeType), |gs|)
  }

  // ---------------------------------------------------------------------
  // The writer
  // ---------------------------------------------------------------------

  /** `write`: one record and one index entry per geometry. */
  method Write(geometries: seq<Geometry>, blank: Extent, enlarge: (Extent, Position) -> Extent,
               shpView: DataView, shxView: DataView, shapeType: int)
    requires forall k :: 0 <= k < |geometries| ==> WellFormed(geometries[k])
    requires shpView != shxView
    modifies shpView, shxView
    ensures shpView.writes == old(shpView.writes) + ShpWrites(geometries, shapeType, blank, enlarge)
    ensures shxView.writes == old(shxView.writes) + ShxWrites(geometries, shapeType)
    ensures shpView.Contents() == ApplyWrites(old(shpView.Contents()), ShpWrites(geometries, shapeType, blank, enlarge))
    ensures shxView.Contents() == ApplyWrites(old(shxView.Contents()), ShxWrites(geometries, shapeType))
  {
    var shpI, shxI, shxOffset := 0, 0, 100;
    ghost var cls := ContentLengths(geometries, shapeType);
    var i := 0;
    while i < |geometries|
      invariant 0 <= i <= |geometries|
      invariant shpI == RecordsLength(cls[..i])
      invariant shxI == 8 * i && shxOffset == 100 + shpI
      invariant shpView.writes == old(shpView.writes) + ShpWritesUpTo(geometries, shapeType, blank, enlarge, i)
      invariant shxView.writes == old(shxView.writes) + IndexFile(cls, i)
    {
      ghost var record := RecordWrites(geometries[i], i, shapeType, shpI, blank, enlarge);
      ghost var entry := IndexWrites(shxI, shxOffset, ContentLength(geometries[i], shapeType));
      NextRecord(geometries, shapeType, blank, enlarge, i, shpI, shxI, shxOffset);
      AppendAssoc(old(shpView.writes), ShpWritesUpTo(geometries, shapeType, blank, enlarge, i), record);
      AppendAssoc(old(shxView.writes), IndexFile(cls, i), entry);
      shpI, shxI, shxOffset := WritePoly(geometries[i], i, shapeType, blank, enlarge,
                                         shpView, shxView, shpI, shxI, shxOffset);
      i := i + 1;
    }
    ApplyConcat(shpView.initial, old(shpView.writes), ShpWrites(geometries, shapeType, blank, enlarge));
    ApplyConcat(shxView.initial, old(shxView.writes), ShxWrites(geometries, shapeType));
  }

  /** How the file-level write lists and the cursors grow by one record. */
  lemma NextRecord(gs: seq<Geometry>, shapeType: int, blank: Extent, enlarge: (Extent, Position) -> Extent,
                   i: nat, shpI: int, shxI: int, shxOffset: int)
    requires i < |gs|
    requires shpI == RecordsLength(ContentLengths(gs, shapeType)[..i])
    requires shxI == 8 * i && shxOffset == 100 + shpI
    ensures var cls := ContentLengths(gs, shapeType);
            RecordsLength(cls[..i + 1]) == shpI + 8 + ContentLength(gs[i], shapeType) &&
            IndexFile(cls, i + 1) == IndexFile(cls, i) + IndexWrites(shxI, shxOffset, ContentLength(gs[i], shapeType)) &&
            ShpWritesUpTo(gs, shapeType, blank, enlarge, i + 1)
            == ShpWritesUpTo(gs, shapeType, blank, enlarge, i) + RecordWrites(gs[i], i, shapeType, shpI, blank, enlarge)
  {
    hide RecordWrites, ContentLength;
    var cls := ContentLengths(gs, shapeType);
    assert cls[..i + 1][..i] == cls[..i];
  }

  /** `writePoly(coordinates, i)`; the cursors it shares with `write` are
      passed in and handed back. */
  method WritePoly(g: Geometry, i: int, shapeType: int, blank: Extent, enlarge: (Extent, Position) -> Extent,
                   shpView: DataView, shxView: DataView, shpI: int, shxI: int, shxOffset: int)
    returns (shpEnd: int, shxEnd: int, shxOffsetEnd: int)
    requires WellFormed(g)
    requires shpView != shxView
    modifies shpView, shxView
    ensures shpView.writes == old(shpView.writes) + RecordWrites(g, i, shapeType, shpI, blank, enlarge)
    ensures shxView.writes == old(shxView.writes) + IndexWrites(shxI, shxOffset, ContentLength(g, shapeType))
    ensures shpEnd == shpI + 8 + ContentLength(g, shapeType)
    ensures shxEnd == shxI + 8
    ensures shxOffsetEnd == shxOffset + ContentLength(g, shapeType) + 8
  {
    var flattened := JustCoords(g);
    var n := |flattened|;
    var noParts := if IsPolyLine(shapeType) then 1 else TopCount(g);
    var contentLength := n * 16 + 48 + (noParts - 1) * 4;
    if Is3D(shapeType) {
      contentLength := contentLength + 32 + n * 16;
    }
    assert contentLength == ContentLengthOf(n, noParts, shapeType);
    var featureExtent := FoldExtent(blank, enlarge, flattened);

    // index entry
    shxView.SetInt32(shxI, TruncHalf(shxOffset), false);
    shxView.SetInt32(shxI + 4, TruncHalf(contentLength), false);
    shxEnd := shxI + 8;
    shxOffsetEnd := shxOffset + contentLength + 8;

    // the record
    shpEnd := WriteRecord(shpView, shpI, i, shapeType, contentLength, noParts, PartLengths(g), flattened, featureExtent);
    assert RecordWrites(g, i, shapeType, shpI, blank, enlarge)
        == RecordLayout(shpI, i, shapeType, noParts, PartLengths(g), flattened, featureExtent);
  }

  /** The main-file part of `writePoly`: record header, box, counts, part
      index, points and, for the Z types, the Z and M blocks. */
  method WriteRecord(view: DataView, s: int, i: int, shapeType: int, contentLength: int, noParts: nat,
                     lens: seq<nat>, pts: seq<Position>, e: Extent) returns (cursor: int)
    requires contentLength == ContentLengthOf(|pts|, noParts, shapeType)
    modifies view
    ensures view.writes == old(view.writes) + RecordLayout(s, i, shapeType, noParts, lens, pts, e)
    ensures cursor == s + 56 + (noParts - 1) * 4 + |pts| * 16 + (if Is3D(shapeType) then 32 + |pts| * 16 else 0)
  {
    ghost var log0 := view.writes;
    ghost var header := HeaderWrites(s, i, shapeType, contentLength, noParts, |pts|, e);
    ghost var parts := PartIndexWrites(s, lens, noParts);
    WriteHeader(view, s, i, shapeType, contentLength, noParts, |pts|, e);
    WritePartIndices(view, s, lens, noParts);
    AppendAssoc(log0, header, parts);
    cursor := s + 56 + (noParts - 1) * 4;
    ghost var line := PointWrites(cursor, pts);
    cursor := WriteLine(view, cursor, pts);
    AppendAssoc(log0, header + parts, line);
    ghost var zm: seq<SlotWrite> := [];
    if Is3D(shapeType) {
      zm := ZMWrites(cursor, pts, e);
      cursor := WriteZM(view, cursor, pts, e);
    }
    AppendAssoc(log0, header + parts + line, zm);
  }

  /** The record header and the fixed part of the record content. */
  method WriteHeader(view: DataView, s: int, i: int, shapeType: int, contentLength: int,
                     noParts: int, n: int, e: Extent)
    modifies view
    ensures view.writes == old(view.writes) + HeaderWrites(s, i, shapeType, contentLength, noParts, n, e)
  {
    view.SetInt32(s, i + 1, false);
    view.SetInt32(s + 4, TruncHalf(contentLength), false);
    view.SetInt32(s + 8, shapeType, true);
    view.SetFloat64(s + 12, e.xmin);
    view.SetFloat64(s + 20, e.ymin);
    view.SetFloat64(s + 28, e.xmax);
    view.SetFloat64(s + 36, e.ymax);
    view.SetInt32(s + 44, noParts, true);
    view.SetInt32(s + 48, n, true);
    view.SetInt32(s + 52, 0, true);
  }

  /** Z range, Z values, M range, M values. */
  method WriteZM(view: DataView, z: int, pts: seq<Position>, e: Extent) returns (cursor: int)
    modifies view
    ensures view.writes == old(view.writes) + ZMWrites(z, pts, e)
    ensures cursor == z + 32 + |pts| * 16
  {
    ghost var log0 := view.writes;
    var n := |pts|;
    view.SetFloat64(z, e.zmin);
    view.SetFloat64(z + 8, e.zmax);
    cursor := WriteMeasures(view, z + 16, pts, 2);
    view.SetFloat64(cursor, e.mmin);
    view.SetFloat64(cursor + 8, e.mmax);
    cursor := WriteMeasures(view, cursor + 16, pts, 3);
    assert view.writes == log0 + ZMWrites(z, pts, e);
  }

  /** The part-index `for` loop of `writePoly`. */
  method WritePartIndices(view: DataView, s: int, lens: seq<nat>, noParts: nat)
    modifies view
    ensures view.writes == old(view.writes) + PartIndexWrites(s, lens, noParts)
  {
    var p := 1;
    while p < noParts
      invariant p == 1 || 1 < p <= noParts
      invariant view.writes == old(view.writes) + PartIndexWrites(s, lens, p)
    {
      var result := PrefixLength(lens, p);
      view.SetInt32(s + 52 + p * 4, result, true);
      p := p + 1;
    }
    if noParts == 0 {
      assert PartIndexWrites(s, lens, p) == PartIndexWrites(s, lens, noParts);
    }
  }

  /** The `writeLine` callback run over the flattened positions. */
  method WriteLine(view: DataView, start: int, pts: seq<Position>) returns (cursor: int)
    modifies view
    ensures view.writes == old(view.writes) + PointWrites(start, pts)
    ensures cursor == start + |pts| * 16
  {
    cursor := start;
    var k := 0;
    while k < |pts|
      invariant 0 <= k <= |pts|
      invariant cursor == start + k * 16
      invariant view.writes == old(view.writes) + PointWrites(start, pts[..k])
    {
      view.SetFloat64(cursor, XCoord(pts[k]));
      view.SetFloat64(cursor + 8, YCoord(pts[k]));
      assert pts[..k + 1][..k] == pts[..k];
      cursor := cursor + 16;
      k := k + 1;
    }
    assert pts[..k] == pts;
  }

  /** The Z (j = 2) or M (j = 3) callback run over the flattened positions. */
  method WriteMeasures(view: DataView, start: int, pts: seq<Position>, j: nat) returns (cursor: int)
    modifies view
    ensures view.writes == old(view.writes) + MeasureWrites(start, pts, j)
    ensures cursor == start + |pts| * 8
  {
    cursor := start;
    var k := 0;
    while k < |pts|
      invariant 0 <= k <= |pts|
      invariant cursor == start + k * 8
      invariant view.writes == old(view.writes) + MeasureWrites(start, pts[..k], j)
    {
      view.SetFloat64(cursor, OrZero(pts[k], j));
      assert pts[..k + 1][..k] == pts[..k];
      cursor := cursor + 8;
      k := k + 1;
    }
    assert pts[..k] == pts;
  }

  // ---------------------------------------------------------------------
  // File lengths
  // ---------------------------------------------------------------------

  /** The bytes `shpLength` counts for one geometry: it takes
      `feature.length` as the part count. */
  function AsWrittenLength(g: Geometry, shapeType: int): int {
    var n := |JustCoords(g)|;
    44 + 4 * TopCount(g) + 16 * n + 8 + (if Is3D(shapeType) then 16 + 8 * n + (16 + 8 * n) else 0)
  }

  /** `shpLength` as written. */
  function ShpLengthAsWritten(gs: seq<Geometry>, shapeType: int): int
    decreases |gs|
  {
    if |gs| == 0 then 0
    else ShpLengthAsWritten(gs[..|gs| - 1], shapeType) + AsWrittenLength(gs[|gs| - 1], shapeType)
  }

  /** The `shpLength` loop. */
  method ShpLength(geometries: seq<Geometry>, shapeType: int) returns (no: int)
    requires AllNonEmpty(geometries)
    ensures no == ShpLengthAsWritten(geometries, shapeType)
  {
    no := 0;
    var is3D := Is3D(shapeType);
    var i := 0;
    while i < |geometries|
      invariant 0 <= i <= |geometries|
      invariant no == ShpLengthAsWritten(geometries[..i], shapeType)
    {
      var feature := geometries[i];
      var noParts := TopCount(feature);
      var flattened := JustCoords(feature);
      var length := 44 + 4 * noParts + 16 * |flattened| + 8;
      if is3D {
        length := length + 16 + 8 * |flattened| + (16 + 8 * |flattened|);
      }
      no := no + length;
      assert geometries[..i + 1][..i] == geometries[..i];
      i := i + 1;
    }
    assert geometries[..i] == geometries;
  }

  /** `shpLength` with the part count `writePoly` uses. Its result is exactly
      the number of bytes `write` fills (ShpWritesTile). */
  method ShpLengthCorrected(geometries: seq<Geometry>, shapeType: int) returns (no: int)
    requires AllNonEmpty(geometries)
    ensures no == RecordsLength(ContentLengths(geometries, shapeType))
  {
    ghost var cls := ContentLengths(geometries, shapeType);
    no := 0;
    var is3D := Is3D(shapeType);
    var i := 0;
    while i < |geometries|
      invariant 0 <= i <= |geometries|
      invariant no == RecordsLength(cls[..i])
    {
      var feature := geometries[i];
      var noParts := NoParts(feature, shapeType);
      var flattened := JustCoords(feature);
      var length := 44 + 4 * noParts + 16 * |flattened| + 8;
      if is3D {
        length := length + 16 + 8 * |flattened| + (16 + 8 * |flattened|);
      }
      assert length == 8 + cls[i];
      no := no + length;
      assert cls[..i + 1][..i] == cls[..i];
      i := i + 1;
    }
    assert cls[..i] == cls;
  }

  /** `shxLength` */
  function ShxLength(gs: seq<Geometry>): int {
    |gs| * 8
  }

  // ---------------------------------------------------------------------
  // Lemmas about buffers and tilings
  // ---------------------------------------------------------------------

  lemma AppendAssoc(a: seq<SlotWrite>, b: seq<SlotWrite>, c: seq<SlotWrite>)
    ensures (a + b) + c == a + (b + c)
  {
  }

  lemma {:induction false} ApplyConcat(m: map<int, Slot>, a: seq<SlotWrite>, b: seq<SlotWrite>)
    ensures ApplyWrites(m, a + b) == ApplyWrites(ApplyWrites(m, a), b)
    decreases |b|
  {
    if |b| > 0 {
      assert (a + b)[..|a + b| - 1] == a + b[..|b| - 1];
      ApplyConcat(m, a, b[..|b| - 1]);
    } else {
      assert a + b == a;
    }
  }

  lemma {:induction false} TilesConcat(a: seq<SlotWrite>, b: seq<SlotWrite>, s: int, mid: int, e: int)
    requires Tiles(a, s, mid) && Tiles(b, mid, e)
    ensures Tiles(a + b, s, e)
    decreases |a|
  {
    if |a| == 0 {
      assert a + b == b;
    } else {
      assert (a + b)[1..] == a[1..] + b;
      TilesConcat(a[1..], b, s + Width(a[0].1), mid, e);
    }
  }

  /** A tiling lies within [s, e) and its writes are strictly ordered and
      pairwise disjoint. */
  lemma {:induction false} TilesBounds(ws: seq<SlotWrite>, s: int, e: int)
    requires Tiles(ws, s, e)
    ensures s <= e
    ensures forall j :: 0 <= j < |ws| ==> s <= ws[j].0 && ws[j].0 + Width(ws[j].1) <= e
    ensures forall j, k :: 0 <= j < k < |ws| ==> ws[j].0 + Width(ws[j].1) <= ws[k].0
    decreases |ws|
  {
    if |ws| > 0 {
      var t := ws[1..];
      TilesBounds(t, s + Width(ws[0].1), e);
      forall j | 0 < j < |ws|
        ensures s + Width(ws[0].1) <= ws[j].0 && ws[j].0 + Width(ws[j].1) <= e
      {
        assert ws[j] == t[j - 1];
      }
      forall j, k | 0 <= j < k < |ws|
        ensures ws[j].0 + Width(ws[j].1) <= ws[k].0
      {
        if j > 0 {
          assert ws[j] == t[j - 1] && ws[k] == t[k - 1];
        }
      }
    }
  }

  predicate DistinctOffsets(ws: seq<SlotWrite>) {
    forall j, k :: 0 <= j < k < |ws| ==> ws[j].0 != ws[k].0
  }

  /** With distinct offsets no write is overwritten by a later one. */
  lemma {:induction false} ApplyReadBack(m: map<int, Slot>, ws: seq<SlotWrite>, j: int)
    requires DistinctOffsets(ws) && 0 <= j < |ws|
    ensures ws[j].0 in ApplyWrites(m, ws) && ApplyWrites(m, ws)[ws[j].0] == ws[j].1
    decreases |ws|
  {
    if j < |ws| - 1 {
      ApplyReadBack(m, ws[..|ws| - 1], j);
    }
  }

  /** In a tiling, write j is what the buffer holds at its offset afterwards. */
  lemma TiledReadBack(m: map<int, Slot>, ws: seq<SlotWrite>, s: int, e: int, j: int, o: int, v: Slot)
    requires Tiles(ws, s, e) && 0 <= j < |ws| && ws[j] == (o, v)
    ensures HoldsAt(ApplyWrites(m, ws), o, v)
  {
    TilesBounds(ws, s, e);
    ApplyReadBack(m, ws, j);
  }

  /** Offsets that no write names keep their old contents. */
  lemma {:induction false} ApplyFrame(m: map<int, Slot>, ws: seq<SlotWrite>, o: int)
    requires forall j :: 0 <= j < |ws| ==> ws[j].0 != o
    ensures (o in ApplyWrites(m, ws) <==> o in m)
    ensures o in m ==> ApplyWrites(m, ws)[o] == m[o]
    decreases |ws|
  {
    if |ws| > 0 {
      ApplyFrame(m, ws[..|ws| - 1], o);
    }
  }

  /** One record header plus the fixed content prefix take 56 bytes. */
  lemma HeaderTiles(s: int, i: int, shapeType: int, contentLength: int, noParts: int, n: int, e: Extent)
    ensures Tiles(HeaderWrites(s, i, shapeType, contentLength, noParts, n, e), s, s + 56)
  {
    var h := HeaderWrites(s, i, shapeType, contentLength, noParts, n, e);
    assert Tiles(h[9..], s + 52, s + 56);
    assert Tiles(h[8..], s + 48, s + 56);
    assert Tiles(h[7..], s + 44, s + 56);
    assert Tiles(h[6..], s + 36, s + 56);
    assert Tiles(h[5..], s + 28, s + 56);
    assert Tiles(h[4..], s + 20, s + 56);
    assert Tiles(h[3..], s + 12, s + 56);
    assert Tiles(h[2..], s + 8, s + 56);
    assert Tiles(h[1..], s + 4, s + 56);
  }

  lemma {:induction false} PartIndexTiles(s: int, lens: seq<nat>, count: nat)
    requires 1 <= count
    ensures Tiles(PartIndexWrites(s, lens, count), s + 56, s + 56 + (count - 1) * 4)
    decreases count
  {
    if count > 1 {
      PartIndexTiles(s, lens, count - 1);
      var w := [(s + 52 + (count - 1) * 4, Int32LE(ToInt32(PrefixLength(lens, count - 1))))];
      assert Tiles(w, s + 56 + (count - 2) * 4, s + 56 + (count - 1) * 4);
      TilesConcat(PartIndexWrites(s, lens, count - 1), w, s + 56, s + 56 + (count - 2) * 4, s + 56 + (count - 1) * 4);
    }
  }

  lemma {:induction false} PointWritesTiles(b: int, pts: seq<Position>)
    ensures Tiles(PointWrites(b, pts), b, b + |pts| * 16)
    decreases |pts|
  {
    if |pts| > 0 {
      var k := |pts| - 1;
      PointWritesTiles(b, pts[..k]);
      var w := [(b + k * 16, Float64LE(XCoord(pts[k]))), (b + k * 16 + 8, Float64LE(YCoord(pts[k])))];
      assert Tiles(w[1..], b + k * 16 + 8, b + k * 16 + 16);
      TilesConcat(PointWrites(b, pts[..k]), w, b, b + k * 16, b + k * 16 + 16);
    }
  }

  lemma {:induction false} MeasureWritesTiles(b: int, pts: seq<Position>, j: nat)
    ensures Tiles(MeasureWrites(b, pts, j), b, b + |pts| * 8)
    decreases |pts|
  {
    if |pts| > 0 {
      var k := |pts| - 1;
      MeasureWritesTiles(b, pts[..k], j);
      var w := [(b + k * 8, Float64LE(OrZero(pts[k], j)))];
      assert Tiles(w, b + k * 8, b + k * 8 + 8);
      TilesConcat(MeasureWrites(b, pts[..k], j), w, b, b + k * 8, b + k * 8 + 8);
    }
  }

  lemma ZMTiles(z: int, pts: seq<Position>, e: Extent)
    ensures Tiles(ZMWrites(z, pts, e), z, z + 32 + |pts| * 16)
  {
    var n := |pts|;
    var r1 := [(z, Float64LE(e.zmin)), (z + 8, Float64LE(e.zmax))];
    var r2 := [(z + 16 + n * 8, Float64LE(e.mmin)), (z + 24 + n * 8, Float64LE(e.mmax))];
    assert Tiles(r1[1..], z + 8, z + 16);
    assert Tiles(r2[1..], z + 24 + n * 8, z + 32 + n * 8);
    MeasureWritesTiles(z + 16, pts, 2);
    MeasureWritesTiles(z + 32 + n * 8, pts, 3);
    TilesConcat(r1, MeasureWrites(z + 16, pts, 2), z, z + 16, z + 16 + n * 8);
    TilesConcat(r1 + MeasureWrites(z + 16, pts, 2), r2, z, z + 16 + n * 8, z + 32 + n * 8);
    TilesConcat(r1 + MeasureWrites(z + 16, pts, 2) + r2, MeasureWrites(z + 32 + n * 8, pts, 3),
                z, z + 32 + n * 8, z + 32 + n * 16);
  }

  /** A record of at least one part fills exactly contentLength + 8 bytes
      from its start. */
  lemma RecordLayoutTiles(s: int, i: int, shapeType: int, noParts: nat, lens: seq<nat>,
                          pts: seq<Position>, e: Extent)
    requires noParts >= 1
    ensures Tiles(RecordLayout(s, i, shapeType, noParts, lens, pts, e), s,
                  s + 8 + ContentLengthOf(|pts|, noParts, shapeType))
  {
    hide Tiles, HeaderWrites, PartIndexWrites, PointWrites, ZMWrites;
    var n := |pts|;
    var cl := ContentLengthOf(n, noParts, shapeType);
    var b := s + 56 + (noParts - 1) * 4;
    var h := HeaderWrites(s, i, shapeType, cl, noParts, n, e);
    var p := PartIndexWrites(s, lens, noParts);
    var l := PointWrites(b, pts);
    var zm := if Is3D(shapeType) then ZMWrites(b + n * 16, pts, e) else [];
    HeaderTiles(s, i, shapeType, cl, noParts, n, e);
    PartIndexTiles(s, lens, noParts);
    PointWritesTiles(b, pts);
    if Is3D(shapeType) {
      ZMTiles(b + n * 16, pts, e);
    }
    TilesConcat(h, p, s, s + 56, b);
    TilesConcat(h + p, l, s, b, b + n * 16);
    TilesConcat(h + p + l, zm, s, b + n * 16, s + 8 + cl);
  }

  /** The writes for a geometry fill exactly contentLength + 8 bytes. */
  lemma RecordTiles(g: Geometry, i: int, shapeType: int, s: int, e: int,
                    blank: Extent, enlarge: (Extent, Position) -> Extent)
    requires NonEmpty(g) && e == s + 8 + ContentLength(g, shapeType)
    ensures Tiles(RecordWrites(g, i, shapeType, s, blank, enlarge), s, e)
  {
    RecordLayoutTiles(s, i, shapeType, NoParts(g, shapeType), PartLengths(g), JustCoords(g), ExtentOf(g, blank, enlarge));
  }

  lemma IndexTiles(x: int, shxOffset: int, contentLength: int)
    ensures Tiles(IndexWrites(x, shxOffset, contentLength), x, x + 8)
  {
    var w := IndexWrites(x, shxOffset, contentLength);
    assert Tiles(w[1..], x + 4, x + 8);
  }

  // ---------------------------------------------------------------------
  // Properties of the files `write` produces
  // ---------------------------------------------------------------------

  /** Content lengths are even (so the halving is exact) and at least 48. */
  lemma ContentLengthEven(g: Geometry, shapeType: int)
    requires NonEmpty(g)
    ensures ContentLength(g, shapeType) % 2 == 0 && ContentLength(g, shapeType) >= 48
    ensures 2 * TruncHalf(ContentLength(g, shapeType)) == ContentLength(g, shapeType)
  {
    var n := |JustCoords(g)|;
    var np := NoParts(g, shapeType);
    assert np >= 1;
    var half := n * 8 + 24 + (np - 1) * 2 + (if Is3D(shapeType) then 16 + n * 8 else 0);
    assert ContentLength(g, shapeType) == 2 * half;
  }

  predicate EvenLengths(cls: seq<int>) {
    forall j :: 0 <= j < |cls| ==> cls[j] % 2 == 0 && cls[j] >= 48
  }

  lemma ContentLengthsEven(gs: seq<Geometry>, shapeType: int)
    requires AllNonEmpty(gs)
    ensures EvenLengths(ContentLengths(gs, shapeType))
  {
    forall j | 0 <= j < |gs|
      ensures ContentLengths(gs, shapeType)[j] % 2 == 0 && ContentLengths(gs, shapeType)[j] >= 48
    {
      ContentLengthEven(gs[j], shapeType);
    }
  }

  /** The cursor after k records is even. */
  lemma {:induction false} RecordsLengthEven(cls: seq<int>)
    requires EvenLengths(cls)
    ensures RecordsLength(cls) % 2 == 0
    decreases |cls|
  {
    if |cls| > 0 {
      RecordsLengthEven(cls[..|cls| - 1]);
    }
  }

  /** Each record adds its content length and 8 bytes, so the cursor
      strictly increases. */
  lemma {:induction false} RecordsLengthGrows(cls: seq<int>, k: nat, l: nat)
    requires EvenLengths(cls) && k <= l <= |cls|
    ensures RecordsLength(cls[..k]) + 56 * (l - k) <= RecordsLength(cls[..l])
    decreases l
  {
    if l > k {
      RecordsLengthGrows(cls, k, l - 1);
      assert cls[..l][..l - 1] == cls[..l - 1];
    }
  }

  lemma {:induction false} ShpWritesUpToTile(gs: seq<Geometry>, shapeType: int,
                                             blank: Extent, enlarge: (Extent, Position) -> Extent, n: nat)
    requires AllNonEmpty(gs) && n <= |gs|
    ensures Tiles(ShpWritesUpTo(gs, shapeType, blank, enlarge, n), 0, RecordsLength(ContentLengths(gs, shapeType)[..n]))
    decreases n
  {
    if n > 0 {
      var cls := ContentLengths(gs, shapeType);
      var start := RecordsLength(cls[..n - 1]);
      ShpWritesUpToTile(gs, shapeType, blank, enlarge, n - 1);
      assert cls[..n][..n - 1] == cls[..n - 1];
      RecordTiles(gs[n - 1], n - 1, shapeType, start, RecordsLength(cls[..n]), blank, enlarge);
      TilesConcat(ShpWritesUpTo(gs, shapeType, blank, enlarge, n - 1),
                  RecordWrites(gs[n - 1], n - 1, shapeType, start, blank, enlarge),
                  0, start, RecordsLength(cls[..n]));
    }
  }

  /** The main-file writes fill bytes 0 .. the total record length - 1 with
      no gap and no overlap. */
  lemma ShpWritesTile(gs: seq<Geometry>, shapeType: int,
                      blank: Extent, enlarge: (Extent, Position) -> Extent)
    requires AllNonEmpty(gs)
    ensures Tiles(ShpWrites(gs, shapeType, blank, enlarge), 0, RecordsLength(ContentLengths(gs, shapeType)))
  {
    ShpWritesUpToTile(gs, shapeType, blank, enlarge, |gs|);
    assert ContentLengths(gs, shapeType)[..|gs|] == ContentLengths(gs, shapeType);
  }

  /** The index writes fill bytes 0 .. 8n - 1, two 4-byte slots per record. */
  lemma {:induction false} IndexFileTiles(cls: seq<int>, n: nat)
    requires n <= |cls|
    ensures |IndexFile(cls, n)| == 2 * n
    ensures Tiles(IndexFile(cls, n), 0, 8 * n)
    decreases n
  {
    if n > 0 {
      IndexFileTiles(cls, n - 1);
      IndexTiles(8 * (n - 1), 100 + RecordsLength(cls[..n - 1]), cls[n - 1]);
      TilesConcat(IndexFile(cls, n - 1), IndexWrites(8 * (n - 1), 100 + RecordsLength(cls[..n - 1]), cls[n - 1]),
                  0, 8 * (n - 1), 8 * n);
    }
  }

  lemma ShxWritesTile(gs: seq<Geometry>, shapeType: int)
    ensures |ShxWrites(gs, shapeType)| == 2 * |gs|
    ensures Tiles(ShxWrites(gs, shapeType), 0, ShxLength(gs))
  {
    IndexFileTiles(ContentLengths(gs, shapeType), |gs|);
  }

  /** No write of a file is ever overwritten, and nothing outside the file's
      byte range is touched. */
  lemma FileHoldsEveryWrite(m: map<int, Slot>, ws: seq<SlotWrite>, e: int, o: int)
    requires Tiles(ws, 0, e)
    ensures forall j :: 0 <= j < |ws| ==> ws[j].0 in ApplyWrites(m, ws) && ApplyWrites(m, ws)[ws[j].0] == ws[j].1
    ensures (o < 0 || o >= e) ==> (o in ApplyWrites(m, ws) <==> o in m) && (o in m ==> ApplyWrites(m, ws)[o] == m[o])
  {
    TilesBounds(ws, 0, e);
    forall j | 0 <= j < |ws|
      ensures ws[j].0 in ApplyWrites(m, ws) && ApplyWrites(m, ws)[ws[j].0] == ws[j].1
    {
      ApplyReadBack(m, ws, j);
    }
    if o < 0 || o >= e {
      ApplyFrame(m, ws, o);
    }
  }

  lemma {:induction false} ShpWritesPrefix(gs: seq<Geometry>, shapeType: int,
                                           blank: Extent, enlarge: (Extent, Position) -> Extent, k: nat, n: nat)
    requires k <= n <= |gs|
    ensures ShpWritesUpTo(gs, shapeType, blank, enlarge, k) <= ShpWritesUpTo(gs, shapeType, blank, enlarge, n)
    decreases n
  {
    hide RecordWrites, RecordsLength, ContentLengths;
    if k < n {
      ShpWritesPrefix(gs, shapeType, blank, enlarge, k, n - 1);
    }
  }

  lemma {:induction false} IndexFilePrefix(cls: seq<int>, k: nat, n: nat)
    requires k <= n <= |cls|
    ensures IndexFile(cls, k) <= IndexFile(cls, n)
    decreases n
  {
    hide IndexWrites, RecordsLength;
    if k < n {
      IndexFilePrefix(cls, k, n - 1);
    }
  }

  /** The first three writes of a record: its number, its content length in
      16-bit words and the shape type. */
  lemma RecordHead(s: int, i: int, shapeType: int, noParts: nat, lens: seq<nat>, pts: seq<Position>, e: Extent)
    ensures var r := RecordLayout(s, i, shapeType, noParts, lens, pts, e);
            |r| >= 3 &&
            r[0] == (s, Int32BE(ToInt32(i + 1))) &&
            r[1] == (s + 4, Int32BE(ToInt32(TruncHalf(ContentLengthOf(|pts|, noParts, shapeType))))) &&
            r[2] == (s + 8, Int32LE(ToInt32(shapeType)))
  {
    var h := HeaderWrites(s, i, shapeType, ContentLengthOf(|pts|, noParts, shapeType), noParts, |pts|, e);
    var r := RecordLayout(s, i, shapeType, noParts, lens, pts, e);
    assert r[..3] == h[..3];
  }

  /** Record k of the main file starts at the sum of the lengths of the records
      before it and holds there its record number, content length and shape type. */
  lemma RecordInMainFile(shp0: map<int, Slot>, gs: seq<Geometry>, shapeType: int,
                         blank: Extent, enlarge: (Extent, Position) -> Extent, k: nat)
    requires AllNonEmpty(gs) && k < |gs|
    ensures var cls := ContentLengths(gs, shapeType);
            var start := RecordsLength(cls[..k]);
            var shp := ApplyWrites(shp0, ShpWrites(gs, shapeType, blank, enlarge));
            HoldsAt(shp, start, Int32BE(ToInt32(k + 1))) &&
            HoldsAt(shp, start + 4, Int32BE(ToInt32(TruncHalf(cls[k])))) &&
            HoldsAt(shp, start + 8, Int32LE(ToInt32(shapeType)))
  {
    hide RecordLayout, ShpWritesUpTo, RecordsLength, ApplyWrites, Tiles, JustCoords, ExtentOf, PartLengths;
    var cls := ContentLengths(gs, shapeType);
    var start := RecordsLength(cls[..k]);
    var ws := ShpWrites(gs, shapeType, blank, enlarge);
    var p := |ShpWritesUpTo(gs, shapeType, blank, enlarge, k)|;
    var rec := RecordWrites(gs[k], k, shapeType, start, blank, enlarge);
    assert p + 2 < |ws| && ws[p] == rec[0] && ws[p + 1] == rec[1] && ws[p + 2] == rec[2] by {
      NextRecord(gs, shapeType, blank, enlarge, k, start, 8 * k, 100 + start);
      ShpWritesPrefix(gs, shapeType, blank, enlarge, k + 1, |gs|);
      RecordHead(start, k, shapeType, NoParts(gs[k], shapeType), PartLengths(gs[k]), JustCoords(gs[k]),
                 ExtentOf(gs[k], blank, enlarge));
    }
    assert rec[0] == (start, Int32BE(ToInt32(k + 1))) &&
           rec[1] == (start + 4, Int32BE(ToInt32(TruncHalf(cls[k])))) &&
           rec[2] == (start + 8, Int32LE(ToInt32(shapeType))) by {
      RecordHead(start, k, shapeType, NoParts(gs[k], shapeType), PartLengths(gs[k]), JustCoords(gs[k]),
                 ExtentOf(gs[k], blank, enlarge));
    }
    ShpWritesTile(gs, shapeType, blank, enlarge);
    TiledReadBack(shp0, ws, 0, RecordsLength(cls), p, start, Int32BE(ToInt32(k + 1)));
    TiledReadBack(shp0, ws, 0, RecordsLength(cls), p + 1, start + 4, Int32BE(ToInt32(TruncHalf(cls[k]))));
    TiledReadBack(shp0, ws, 0, RecordsLength(cls), p + 2, start + 8, Int32LE(ToInt32(shapeType)));
  }

  /** Index entry k sits at byte 8k of the index file and holds half the
      offset of record k (counting the 100-byte header) and half its content
      length. */
  lemma EntryInIndexFile(shx0: map<int, Slot>, gs: seq<Geometry>, shapeType: int, k: nat)
    requires k < |gs|
    ensures var cls := ContentLengths(gs, shapeType);
            var shx := ApplyWrites(shx0, ShxWrites(gs, shapeType));
            HoldsAt(shx, 8 * k, Int32BE(ToInt32(TruncHalf(100 + RecordsLength(cls[..k]))))) &&
            HoldsAt(shx, 8 * k + 4, Int32BE(ToInt32(TruncHalf(cls[k]))))
  {
    hide RecordsLength, ApplyWrites, IndexFile, ContentLength;
    var cls := ContentLengths(gs, shapeType);
    IndexEntryAt(shx0, cls, |gs|, k);
  }

  lemma IndexEntryAt(shx0: map<int, Slot>, cls: seq<int>, n: nat, k: nat)
    requires n == |cls| && k < n
    ensures var shx := ApplyWrites(shx0, IndexFile(cls, n));
            HoldsAt(shx, 8 * k, Int32BE(ToInt32(TruncHalf(100 + RecordsLength(cls[..k]))))) &&
            HoldsAt(shx, 8 * k + 4, Int32BE(ToInt32(TruncHalf(cls[k]))))
  {
    var xs := IndexFile(cls, n);
    var off := 100 + RecordsLength(cls[..k]);
    var entry := IndexWrites(8 * k, off, cls[k]);
    assert 2 * k + 1 < |xs| && xs[2 * k] == entry[0] && xs[2 * k + 1] == entry[1] by {
      IndexFileTiles(cls, k);
      IndexFileTiles(cls, n);
      IndexFilePrefix(cls, k + 1, n);
      assert cls[..k + 1][..k] == cls[..k];
      assert IndexFile(cls, k + 1) == IndexFile(cls, k) + entry;
    }
    IndexFileTiles(cls, n);
    TiledReadBack(shx0, xs, 0, 8 * n, 2 * k, 8 * k, Int32BE(ToInt32(TruncHalf(off))));
    TiledReadBack(shx0, xs, 0, 8 * n, 2 * k + 1, 8 * k + 4, Int32BE(ToInt32(TruncHalf(cls[k]))));
  }

  /** Index entry k points at record k: twice its offset is 100 (the file
      header) plus the byte where record k starts in the main file, and there
      the record header holds record number k + 1, the same content length
      and the shape type. Both halvings are exact. */
  lemma IndexEntryLocatesRecord(shp0: map<int, Slot>, shx0: map<int, Slot>, gs: seq<Geometry>, shapeType: int,
                                blank: Extent, enlarge: (Extent, Position) -> Extent, k: nat)
    requires AllNonEmpty(gs) && k < |gs|
    ensures var cls := ContentLengths(gs, shapeType);
            var start := RecordsLength(cls[..k]);
            var shp := ApplyWrites(shp0, ShpWrites(gs, shapeType, blank, enlarge));
            var shx := ApplyWrites(shx0, ShxWrites(gs, shapeType));
            start % 2 == 0 && cls[k] % 2 == 0 &&
            HoldsAt(shx, 8 * k, Int32BE(ToInt32((100 + start) / 2))) &&
            HoldsAt(shx, 8 * k + 4, Int32BE(ToInt32(cls[k] / 2))) &&
            HoldsAt(shp, start, Int32BE(ToInt32(k + 1))) &&
            HoldsAt(shp, start + 4, Int32BE(ToInt32(cls[k] / 2))) &&
            HoldsAt(shp, start + 8, Int32LE(ToInt32(shapeType)))
  {
    hide ShpWrites, ShxWrites, ApplyWrites, RecordsLength, ContentLength;
    var cls := ContentLengths(gs, shapeType);
    ContentLengthsEven(gs, shapeType);
    assert EvenLengths(cls[..k]);
    RecordsLengthEven(cls[..k]);
    RecordInMainFile(shp0, gs, shapeType, blank, enlarge, k);
    EntryInIndexFile(shx0, gs, shapeType, k);
  }

  /** The byte offsets of the records, before the index halves them, grow
      strictly from one entry to the next. */
  lemma IndexOffsetsIncrease(gs: seq<Geometry>, shapeType: int, k: nat, l: nat)
    requires AllNonEmpty(gs) && k < l <= |gs|
    ensures var cls := ContentLengths(gs, shapeType);
            100 + RecordsLength(cls[..k]) < 100 + RecordsLength(cls[..l])
  {
    ContentLengthsEven(gs, shapeType);
    RecordsLengthGrows(ContentLengths(gs, shapeType), k, l);
  }

  /** While the main file stays below 2^32 bytes, the halved offsets
      `setInt32` stores in the index fit in 32 bits and grow strictly from
      one entry to the next. */
  lemma StoredOffsetsIncrease(gs: seq<Geometry>, shapeType: int, k: nat, l: nat)
    requires AllNonEmpty(gs) && k < l <= |gs|
    requires 100 + RecordsLength(ContentLengths(gs, shapeType)) < 0x1_0000_0000
    ensures var cls := ContentLengths(gs, shapeType);
            0 < ToInt32(TruncHalf(100 + RecordsLength(cls[..k])))
              < ToInt32(TruncHalf(100 + RecordsLength(cls[..l])))
  {
    var cls := ContentLengths(gs, shapeType);
    ContentLengthsEven(gs, shapeType);
    RecordsLengthGrows(cls, 0, k);
    RecordsLengthGrows(cls, k, l);
    RecordsLengthGrows(cls, l, |cls|);
    assert cls[..0] == [] && cls[..|cls|] == cls;
    var a := 100 + RecordsLength(cls[..k]);
    var b := 100 + RecordsLength(cls[..l]);
    assert 100 <= a && a + 56 <= b < 0x1_0000_0000;
    hide *;
    HalvedOffsetsIncrease(a, b);
  }

  /** Halving two offsets below 2^32 that are at least 2 apart keeps them
      apart and within the 32-bit range. */
  lemma HalvedOffsetsIncrease(a: int, b: int)
    requires 2 <= a && a + 2 <= b < 0x1_0000_0000
    ensures 0 < ToInt32(TruncHalf(a)) < ToInt32(TruncHalf(b))
  {
    var ha, hb := TruncHalf(a), TruncHalf(b);
    assert ha == a / 2 && hb == b / 2;
    assert 2 * ha <= a < 2 * ha + 2 && 2 * hb <= b < 2 * hb + 2;
    assert 0 < ha < hb < 0x8000_0000;
  }

  // ---------------------------------------------------------------------
  // Parts and flattening
  // ---------------------------------------------------------------------

  lemma {:induction false} SumPrefixMonotone(lens: seq<nat>, p: nat, q: nat)
    requires p <= q <= |lens|
    ensures PrefixLength(lens, p) <= PrefixLength(lens, q)
    decreases q
  {
    if p < q {
      SumPrefixMonotone(lens, p, q - 1);
      assert lens[..q][..q - 1] == lens[..q - 1];
    }
  }

  lemma {:induction false} FlattenPrefix(rs: seq<seq<Position>>, p: nat)
    requires p <= |rs|
    ensures Flatten(rs[..p]) <= Flatten(rs)
    decreases |rs| - p
  {
    if p < |rs| {
      FlattenPrefix(rs[..|rs| - 1], p);
      assert rs[..|rs| - 1][..p] == rs[..p];
    } else {
      assert rs[..p] == rs;
    }
  }

  lemma {:induction false} FlattenLength(rs: seq<seq<Position>>, p: nat)
    requires p <= |rs|
    ensures |Flatten(rs[..p])| == PrefixLength(PartLengths(Rings(rs)), p)
    decreases p
  {
    var lens := PartLengths(Rings(rs));
    if p > 0 {
      FlattenLength(rs, p - 1);
      assert rs[..p][..p - 1] == rs[..p - 1];
      assert lens[..p][..p - 1] == lens[..p - 1];
    }
  }

  /** Part p of a ring list occupies the flattened points from its part
      index up to the next one: flattening concatenates the rings in order,
      so `numPoints` is the sum of the part lengths. */
  lemma RingsFlattenInOrder(rs: seq<seq<Position>>, p: nat)
    requires p < |rs|
    ensures var lens := PartLengths(Rings(rs));
            var pts := Flatten(rs);
            PrefixLength(lens, p) <= PrefixLength(lens, p + 1) <= |pts| == PrefixLength(lens, |rs|) &&
            pts[PrefixLength(lens, p)..PrefixLength(lens, p + 1)] == rs[p]
  {
    var lens := PartLengths(Rings(rs));
    FlattenLength(rs, p);
    FlattenLength(rs, p + 1);
    FlattenLength(rs, |rs|);
    assert rs[..|rs|] == rs;
    FlattenPrefix(rs, p + 1);
    assert rs[..p + 1][..p] == rs[..p];
    assert Flatten(rs[..p + 1]) == Flatten(rs[..p]) + rs[p];
    SumPrefixMonotone(lens, p + 1, |rs|);
  }

  /** In a record with more than one part (a polygon with several rings),
      the part index never decreases from part p to part p + 1 and never
      exceeds the point count. The part count and the first index, which
      hold for every record, are PartCountWritten. */
  lemma PartIndexShape(g: Geometry, shapeType: int, p: nat)
    requires NonEmpty(g) && p + 1 < NoParts(g, shapeType)
    ensures !IsPolyLine(shapeType) ==> NoParts(g, shapeType) == TopCount(g)
    ensures PrefixLength(PartLengths(g), 0) == 0
    ensures PrefixLength(PartLengths(g), p) <= PrefixLength(PartLengths(g), p + 1)
    ensures g.Rings? ==> PrefixLength(PartLengths(g), p + 1) <= |JustCoords(g)|
  {
    SumPrefixMonotone(PartLengths(g), p, p + 1);
    if g.Rings? {
      RingsFlattenInOrder(g.rings, p + 1);
    }
  }

  /** The header of every record written by `writePoly` stores the part
      count at byte 44, one for the polyline types and one per ring ("part")
      otherwise, and the first part index at byte 52, which is always 0. */
  lemma PartCountWritten(g: Geometry, i: int, shapeType: int, s: int,
                         blank: Extent, enlarge: (Extent, Position) -> Extent)
    requires NonEmpty(g)
    ensures |RecordWrites(g, i, shapeType, s, blank, enlarge)| >= 10
    ensures IsPolyLine(shapeType) ==>
              RecordWrites(g, i, shapeType, s, blank, enlarge)[7] == (s + 44, Int32LE(ToInt32(1)))
    ensures !IsPolyLine(shapeType) ==>
              RecordWrites(g, i, shapeType, s, blank, enlarge)[7] == (s + 44, Int32LE(ToInt32(TopCount(g))))
    ensures RecordWrites(g, i, shapeType, s, blank, enlarge)[9] == (s + 52, Int32LE(ToInt32(PrefixLength(PartLengths(g), 0))))
    ensures PrefixLength(PartLengths(g), 0) == 0
  {
    RecordHeaderTail(s, i, shapeType, NoParts(g, shapeType), PartLengths(g), JustCoords(g), ExtentOf(g, blank, enlarge));
    assert PartLengths(g)[..0] == [];
  }

  /** The part count and the first part index of a record sit at bytes 44
      and 52 of its header. */
  lemma RecordHeaderTail(s: int, i: int, shapeType: int, noParts: nat, lens: seq<nat>, pts: seq<Position>, e: Extent)
    ensures var r := RecordLayout(s, i, shapeType, noParts, lens, pts, e);
            |r| >= 10 &&
            r[7] == (s + 44, Int32LE(ToInt32(noParts))) &&
            r[9] == (s + 52, Int32LE(0))
  {
    var h := HeaderWrites(s, i, shapeType, ContentLengthOf(|pts|, noParts, shapeType), noParts, |pts|, e);
    var r := RecordLayout(s, i, shapeType, noParts, lens, pts, e);
    assert r[..10] == h;
  }

  /** Folding over the flattened rings is folding ring after ring. */
  lemma {:induction false} FoldExtentConcat(e: Extent, enlarge: (Extent, Position) -> Extent,
                                            a: seq<Position>, b: seq<Position>)
    ensures FoldExtent(e, enlarge, a + b) == FoldExtent(FoldExtent(e, enlarge, a), enlarge, b)
    decreases |b|
  {
    if |b| > 0 {
      assert (a + b)[..|a + b| - 1] == a + b[..|b| - 1];
      FoldExtentConcat(e, enlarge, a, b[..|b| - 1]);
    } else {
      assert a + b == a;
    }
  }

  // ---------------------------------------------------------------------
  // shpLength against the bytes written
  // ---------------------------------------------------------------------

  /** The top-level entries of each geometry beyond its part count. */
  function Surplus(gs: seq<Geometry>, shapeType: int): (d: seq<int>)
    ensures |d| == |gs|
  {
    seq(|gs|, k requires 0 <= k < |gs| => TopCount(gs[k]) - NoParts(gs[k], shapeType))
  }

  function SumInts(s: seq<int>): int
    decreases |s|
  {
    if |s| == 0 then 0 else SumInts(s[..|s| - 1]) + s[|s| - 1]
  }

  /** One geometry: the 4-byte part index entries counted beyond the part
      count are the whole difference. */
  lemma AsWrittenExcess(g: Geometry, shapeType: int)
    ensures AsWrittenLength(g, shapeType)
            == 8 + ContentLength(g, shapeType) + 4 * (TopCount(g) - NoParts(g, shapeType))
    ensures NonEmpty(g) ==> TopCount(g) >= NoParts(g, shapeType)
  {
  }

  /** `shpLength` exceeds the bytes `write` fills by 4 bytes for every
      top-level entry beyond the record's part count. */
  lemma {:induction false} ShpLengthExcess(gs: seq<Geometry>, shapeType: int)
    ensures ShpLengthAsWritten(gs, shapeType)
            == RecordsLength(ContentLengths(gs, shapeType)) + 4 * SumInts(Surplus(gs, shapeType))
    decreases |gs|
  {
    if |gs| > 0 {
      var k := |gs| - 1;
      AsWrittenExcess(gs[k], shapeType);
      LastContentLength(gs, shapeType);
      LastSurplus(gs, shapeType);
      hide *;
      ShpLengthExcess(gs[..k], shapeType);
    }
  }

  /** Splitting the last record off the list of content lengths. */
  lemma LastContentLength(gs: seq<Geometry>, shapeType: int)
    requires |gs| > 0
    ensures var k := |gs| - 1;
            RecordsLength(ContentLengths(gs, shapeType))
            == RecordsLength(ContentLengths(gs[..k], shapeType)) + 8 + ContentLength(gs[k], shapeType)
    ensures var k := |gs| - 1;
            ShpLengthAsWritten(gs, shapeType) == ShpLengthAsWritten(gs[..k], shapeType) + AsWrittenLength(gs[k], shapeType)
  {
    var k := |gs| - 1;
    var cls := ContentLengths(gs, shapeType);
    assert cls[..k] == ContentLengths(gs[..k], shapeType);
  }

  /** Splitting the last record off the surplus list. */
  lemma LastSurplus(gs: seq<Geometry>, shapeType: int)
    requires |gs| > 0
    ensures var k := |gs| - 1;
            SumInts(Surplus(gs, shapeType)) == SumInts(Surplus(gs[..k], shapeType)) + TopCount(gs[k]) - NoParts(gs[k], shapeType)
  {
    var k := |gs| - 1;
    var d := Surplus(gs, shapeType);
    assert d[..k] == Surplus(gs[..k], shapeType);
  }

  /** Every geometry has as many top-level entries as its record has parts. */
  predicate PartsExact(gs: seq<Geometry>, shapeType: int) {
    forall j :: 0 <= j < |gs| ==> TopCount(gs[j]) == NoParts(gs[j], shapeType)
  }

  lemma PartsExactLast(gs: seq<Geometry>, shapeType: int)
    requires |gs| > 0
    ensures var k := |gs| - 1;
            PartsExact(gs, shapeType) <==> PartsExact(gs[..k], shapeType) && TopCount(gs[k]) == NoParts(gs[k], shapeType)
  {
    var k := |gs| - 1;
    assert forall j :: 0 <= j < k ==> gs[..k][j] == gs[j];
  }

  /** `shpLength` equals the bytes written exactly when every geometry has as
      many top-level entries as parts: always for the polygon types and for
      `[line]` rows, never for a bare line of two or more points under a
      polyline type. */
  lemma {:induction false} ShpLengthExactIff(gs: seq<Geometry>, shapeType: int)
    requires AllNonEmpty(gs)
    ensures ShpLengthAsWritten(gs, shapeType) >= RecordsLength(ContentLengths(gs, shapeType))
    ensures ShpLengthAsWritten(gs, shapeType) == RecordsLength(ContentLengths(gs, shapeType))
            <==> PartsExact(gs, shapeType)
    decreases |gs|
  {
    if |gs| > 0 {
      var k := |gs| - 1;
      AsWrittenExcess(gs[k], shapeType);
      PartsExactLast(gs, shapeType);
      LastContentLength(gs, shapeType);
      assert AllNonEmpty(gs[..k]) && NonEmpty(gs[k]) by {
        assert forall j :: 0 <= j < k ==> gs[..k][j] == gs[j];
      }
      hide *;
      ShpLengthExactIff(gs[..k], shapeType);
    }
  }

  /** The bare LineString [[0,0],[1,1]] as a POLYLINE record: `shpLength`
      reserves 92 bytes but `write` fills 88. */
  lemma ShpLengthMismatch()
    ensures var gs := [Line([[0.0, 0.0], [1.0, 1.0]])];
            ShpLengthAsWritten(gs, POLYLINE) == 92 && RecordsLength(ContentLengths(gs, POLYLINE)) == 88
  {
    var gs := [Line([[0.0, 0.0], [1.0, 1.0]])];
    assert gs[..0] == [];
    var cls := ContentLengths(gs, POLYLINE);
    assert cls == [88 - 8];
    assert cls[..0] == [];
  }
}
