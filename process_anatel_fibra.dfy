/**
 * The ANATEL fibre loader (scripts/process_anatel_fibra.py): the CSV file is
 * read with the first encoding that decodes it, points are built from its
 * coordinates, invalid geometries and duplicate rows are dropped, and the
 * rows are tagged with their source and appended to `geo.fibra_optica`.
 */
module ProcessAnatelFibra {
  import opened Wrappers
  import opened Values
  import opened Foreign
  import opened Frames
  import opened GisEtl
  import Chunks

  // ------------------------------------------------------------ reading the file

  /** `encodings`, in the order they are tried. */
  const Encodings := ["utf-8", "latin-1", "iso-8859-1", "cp1252"]

  /** What `pd.read_csv(..., encoding=e, sep=";")` does with one encoding. */
  datatype Attempt = DecodeError | OtherError | Parsed(frame: Frame)

  /** How the encoding loop ends. */
  datatype ReadResult = NoneDecodes | ReadRaised | Read(encoding: string, frame: Frame)

  /**
   * The loop as a value: a decode error moves on to the next encoding, any
   * other exception leaves the loop, and the first parse wins.
   */
  function FirstReadable(encodings: seq<string>, readCsv: string -> Attempt): ReadResult
    decreases |encodings|
  {
    if encodings == [] then NoneDecodes
    else match readCsv(encodings[0])
      case DecodeError => FirstReadable(encodings[1..], readCsv)
      case OtherError => ReadRaised
      case Parsed(f) => Read(encodings[0], f)
  }

  /**
   * The file is read with encoding i exactly when i parses and every encoding
   * before it failed to decode; nothing is read exactly when every encoding
   * fails to decode; otherwise the first error that is not a decode error
   * propagates.
   */
  lemma {:induction false} FirstReadableSpec(encodings: seq<string>, readCsv: string -> Attempt)
    ensures FirstReadable(encodings, readCsv).NoneDecodes? <==> forall i :: 0 <= i < |encodings| ==> readCsv(encodings[i]).DecodeError?
    ensures forall i :: 0 <= i < |encodings| && readCsv(encodings[i]).Parsed? && (forall j :: 0 <= j < i ==> readCsv(encodings[j]).DecodeError?) ==>
      FirstReadable(encodings, readCsv) == Read(encodings[i], readCsv(encodings[i]).frame)
    ensures FirstReadable(encodings, readCsv).Read? ==>
      exists i :: 0 <= i < |encodings| && encodings[i] == FirstReadable(encodings, readCsv).encoding
        && readCsv(encodings[i]) == Parsed(FirstReadable(encodings, readCsv).frame)
        && forall j :: 0 <= j < i ==> readCsv(encodings[j]).DecodeError?
    decreases |encodings|
  {
    if encodings != [] {
      var rest := encodings[1..];
      FirstReadableSpec(rest, readCsv);
      assert forall i :: 1 <= i < |encodings| ==> encodings[i] == rest[i - 1];
      if readCsv(encodings[0]).DecodeError? {
        if FirstReadable(encodings, readCsv).Read? {
          var k :| 0 <= k < |rest| && rest[k] == FirstReadable(rest, readCsv).encoding
            && readCsv(rest[k]) == Parsed(FirstReadable(rest, readCsv).frame)
            && forall j :: 0 <= j < k ==> readCsv(rest[j]).DecodeError?;
          assert forall j :: 0 <= j < k + 1 ==> readCsv(encodings[j]).DecodeError? by {
            forall j | 0 <= j < k + 1 ensures readCsv(encodings[j]).DecodeError? {
              if j > 0 {
                assert encodings[j] == rest[j - 1];
              }
            }
          }
          assert encodings[k + 1] == rest[k];
        }
        forall i | 0 <= i < |encodings| && readCsv(encodings[i]).Parsed? && (forall j :: 0 <= j < i ==> readCsv(encodings[j]).DecodeError?)
          ensures FirstReadable(encodings, readCsv) == Read(encodings[i], readCsv(encodings[i]).frame)
        {
          assert i > 0;
          assert forall j :: 0 <= j < i - 1 ==> readCsv(rest[j]).DecodeError? by {
            forall j | 0 <= j < i - 1 ensures readCsv(rest[j]).DecodeError? {
              assert rest[j] == encodings[j + 1];
            }
          }
          assert rest[i - 1] == encodings[i];
        }
      }
    }
  }

  /** The encoding loop of `process_fibra_optica`. */
  method ReadWithEncodings(readCsv: string -> Attempt) returns (r: ReadResult)
    ensures r == FirstReadable(Encodings, readCsv)
  {
    var i := 0;
    while i < |Encodings|
      invariant 0 <= i <= |Encodings|
      invariant FirstReadable(Encodings, readCsv) == FirstReadable(Encodings[i..], readCsv)
    {
      assert Encodings[i..][1..] == Encodings[i + 1..];
      var attempt := readCsv(Encodings[i]);
      match attempt {
        case DecodeError =>
          i := i + 1;
        case OtherError =>
          return ReadRaised;
        case Parsed(f) =>
          return Read(Encodings[i], f);
      }
    }
    return NoneDecodes;
  }

  // ------------------------------------------------------------ points

  /** A coordinate as shapely takes it: a number; any other value makes `Point` raise. */
  function Coordinate(v: Value): Option<real> {
    match v
    case Int(i) => Some(i as real)
    case Num(x) => Some(x)
    case _ => None
  }

  /** `dropna(subset=[lat_col, lon_col])` keeps the rows where both are present. */
  predicate HasCoordinates(r: Record, latCol: string, lonCol: string) {
    GetOrNull(r, latCol) != Null && GetOrNull(r, lonCol) != Null
  }

  /** `Point(xy)` for `xy` in `zip(df[lon_col], df[lat_col])`: longitude first. */
  function PointOf(r: Record, latCol: string, lonCol: string): Option<Geometry> {
    var lon := Coordinate(GetOrNull(r, lonCol));
    var lat := Coordinate(GetOrNull(r, latCol));
    if lon.Some? && lat.Some? then Some(Point(Position(lon.value, lat.value))) else None
  }

  /** The rows `dropna` keeps, in order. */
  function WithCoordinates(f: Frame, latCol: string, lonCol: string): (g: Frame)
    ensures g.columns == f.columns
    ensures forall r :: r in g.rows <==> r in f.rows && HasCoordinates(r, latCol, lonCol)
  {
    Select(f, r => HasCoordinates(r, latCol, lonCol))
  }

  /** `create_geometry_from_coords`: None is the exception of a missing column or a coordinate that is not a number. */
  function CreateGeometryFromCoords(f: Frame, latCol: string, lonCol: string): Option<GeoFrame> {
    if latCol !in f.columns || lonCol !in f.columns then None
    else
      var kept := WithCoordinates(f, latCol, lonCol);
      if exists i :: 0 <= i < |kept.rows| && PointOf(kept.rows[i], latCol, lonCol).None? then None
      else
        var points := seq(|kept.rows|, i requires 0 <= i < |kept.rows| => Geo(PointOf(kept.rows[i], latCol, lonCol).value));
        Some(GeoFrame(SetColumn(kept, "geometry", points), Some(Wgs84)))
  }

  /** Building the points fails exactly on a missing column or a row with both coordinates that are not both numbers. */
  lemma CreateGeometryFails(f: Frame, latCol: string, lonCol: string)
    ensures CreateGeometryFromCoords(f, latCol, lonCol).None? <==>
      latCol !in f.columns || lonCol !in f.columns
      || exists r :: r in f.rows && HasCoordinates(r, latCol, lonCol) && PointOf(r, latCol, lonCol).None?
  {
    var kept := WithCoordinates(f, latCol, lonCol);
    if latCol in f.columns && lonCol in f.columns {
      if exists r :: r in f.rows && HasCoordinates(r, latCol, lonCol) && PointOf(r, latCol, lonCol).None? {
        var r :| r in f.rows && HasCoordinates(r, latCol, lonCol) && PointOf(r, latCol, lonCol).None?;
        var i :| 0 <= i < |kept.rows| && kept.rows[i] == r;
        assert PointOf(kept.rows[i], latCol, lonCol).None?;
      } else {
        forall i | 0 <= i < |kept.rows| ensures PointOf(kept.rows[i], latCol, lonCol).Some? {
          assert kept.rows[i] in kept.rows;
        }
      }
    }
  }

  /**
   * The points frame is in WGS 84 and has one row per row with both
   * coordinates, in order; each row keeps its values and gains the point at
   * (longitude, latitude).
   */
  lemma CreateGeometryRows(f: Frame, latCol: string, lonCol: string)
    requires CreateGeometryFromCoords(f, latCol, lonCol).Some?
    ensures var kept := WithCoordinates(f, latCol, lonCol);
      var g := CreateGeometryFromCoords(f, latCol, lonCol).value;
      && g.crs == Some(Wgs84) && "geometry" in g.frame.columns
      && |g.frame.rows| == |kept.rows|
      && forall i :: 0 <= i < |kept.rows| ==>
           && HasCoordinates(kept.rows[i], latCol, lonCol)
           && Get(g.frame.rows[i], "geometry") == Some(Geo(Point(Position(
                Coordinate(GetOrNull(kept.rows[i], lonCol)).value, Coordinate(GetOrNull(kept.rows[i], latCol)).value))))
           && forall k :: k != "geometry" ==> Get(g.frame.rows[i], k) == Get(kept.rows[i], k)
  {
    var kept := WithCoordinates(f, latCol, lonCol);
    forall i | 0 <= i < |kept.rows| ensures HasCoordinates(kept.rows[i], latCol, lonCol) {
      assert kept.rows[i] in kept.rows;
    }
  }

  // ------------------------------------------------------------ the load

  const DataSource := "ANATEL"

  /** `gdf.geometry.is_valid` on one row; a missing geometry is not valid. */
  predicate ValidGeometry(eng: Engine, r: Record) {
    var v := GetOrNull(r, "geometry");
    v.Geo? && eng.isValid(v.g)
  }

  /** Invalid geometries and duplicate rows removed, then every row tagged with its source. */
  function Prepared(eng: Engine, g: GeoFrame): Frame {
    var valid := Select(g.frame, r => ValidGeometry(eng, r));
    SetConst(DropDuplicates(valid), "data_source", Text(DataSource))
  }

  /**
   * Every prepared row is tagged "ANATEL", no two are equal, and apart from
   * the tag each comes from a row of the points frame with a valid geometry;
   * every such row is represented.
   */
  lemma PreparedRows(eng: Engine, g: GeoFrame)
    ensures var p := Prepared(eng, g);
      var d := DropDuplicates(Select(g.frame, r => ValidGeometry(eng, r)));
      && |p.rows| == |d.rows|
      && (forall r :: r in d.rows <==> r in g.frame.rows && ValidGeometry(eng, r))
      && (forall i, j :: 0 <= i < j < |d.rows| ==> d.rows[i] != d.rows[j])
      && forall i :: 0 <= i < |p.rows| ==>
           && Get(p.rows[i], "data_source") == Some(Text(DataSource))
           && forall k :: k != "data_source" ==> Get(p.rows[i], k) == Get(d.rows[i], k)
  {
  }

  /**
   * `process_fibra_optica`: a missing file returns at once; the encoding loop
   * reads the file, and when no encoding decodes it the function returns
   * without loading.  Points are built, the frame prepared and appended
   * (`saveFails` when that raises); every other exception propagates.
   */
  method ProcessFibraOptica(eng: Engine, fileExists: bool, readCsv: string -> Attempt, saveFails: bool, table: Chunks.Table)
    returns (outcome: Outcome)
    modifies table
    ensures !fileExists ==> outcome == FileMissing
    ensures fileExists ==> (outcome == NoEncoding <==> forall i :: 0 <= i < |Encodings| ==> readCsv(Encodings[i]).DecodeError?)
    ensures var read := FirstReadable(Encodings, readCsv);
      var points := if read.Read? then CreateGeometryFromCoords(read.frame, "latitude", "longitude") else None;
      var appended := fileExists && points.Some? && !saveFails;
      && (outcome == Loaded <==> appended)
      && (appended ==> table.rows == old(table.rows) + Prepared(eng, points.value).rows
                       && table.writes == old(table.writes) + [Chunks.Append])
      && (!appended ==> table.rows == old(table.rows) && table.writes == old(table.writes))
  {
    FirstReadableSpec(Encodings, readCsv);
    if !fileExists {
      return FileMissing;
    }
    var read := ReadWithEncodings(readCsv);
    if read.NoneDecodes? {
      return NoEncoding;
    }
    if read.ReadRaised? {
      return Raised;
    }
    var gdf := CreateGeometryFromCoords(read.frame, "latitude", "longitude");
    if gdf.None? || saveFails {
      return Raised;
    }
    table.ToSql(Prepared(eng, gdf.value).rows, Chunks.Append);
    return Loaded;
  }
}
