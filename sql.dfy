/**
 * The part of SQL the endpoints use: a SELECT of named columns plus one
 * geometry column, a conjunction of WHERE conditions, OFFSET and LIMIT, run
 * against an in-memory table. Rows come back in table order.
 */
module Sql {
  import opened Wrappers
  import opened Values
  import opened Foreign
  import Like

  /** One `.where(...)` condition. A NULL column satisfies none of them. */
  datatype Cond =
    | Intersects(box: Box)                      // ST_Intersects(geometry, ST_MakeEnvelope(box, 4326))
    | EqualsText(column: string, text: string)  // column == text
    | EqualsInt(column: string, n: int)         // column == n
    | ILike(column: string, pattern: string)    // column ILIKE pattern
    | AtLeast(column: string, bound: real)      // column >= bound
    | AtMost(column: string, bound: real)       // column <= bound

  /** The geometry column: `ST_AsGeoJSON(geometry)` or `ST_AsGeoJSON(ST_Simplify(geometry, t))`. */
  datatype GeometryOutput = AsGeoJson | AsSimplifiedGeoJson(tolerance: real)

  /** A query under construction, rebound by each builder call. */
  datatype Select = Select(
    columns: seq<string>,
    output: GeometryOutput,
    conds: seq<Cond>,
    offset: nat,
    limit: Option<nat>)
  {
    /** `query.where(c)` */
    function Where(c: Cond): (q: Select)
      ensures q.conds == conds + [c]
      ensures q.columns == columns && q.output == output && q.offset == offset && q.limit == limit
    {
      this.(conds := conds + [c])
    }

    /** `query.offset(skip).limit(n)` */
    function OffsetLimit(skip: nat, n: nat): (q: Select)
      ensures q.offset == skip && q.limit == Some(n)
      ensures q.columns == columns && q.output == output && q.conds == conds
    {
      this.(offset := skip, limit := Some(n))
    }
  }

  /** `select(columns...).add_columns(geometry output)` with no condition yet. */
  function NewSelect(columns: seq<string>, output: GeometryOutput): (q: Select)
    ensures q.columns == columns && q.output == output && q.conds == []
    ensures q.offset == 0 && q.limit == None
  {
    Select(columns, output, [], 0, None)
  }

  /** A table the query runs on; Failing stands for any database error. */
  datatype Table<T> = Available(rows: seq<T>) | Failing

  /** Whether a row satisfies one condition; `column(row, name)` reads a column. */
  predicate Holds<T>(eng: Engine, column: (T, string) -> Value, c: Cond, row: T) {
    match c
    case Intersects(b) => column(row, "geometry").Geo? && eng.intersects(column(row, "geometry").g, b)
    case EqualsText(k, s) => column(row, k) == Text(s)
    case EqualsInt(k, n) => column(row, k) == Int(n)
    case ILike(k, p) => column(row, k).Text? && Like.ILike(column(row, k).s, p)
    case AtLeast(k, b) => column(row, k).Num? && column(row, k).x >= b
    case AtMost(k, b) => column(row, k).Num? && column(row, k).x <= b
  }

  /** Successive `.where` calls AND together. */
  predicate AllHold<T>(eng: Engine, column: (T, string) -> Value, conds: seq<Cond>, row: T) {
    forall i :: 0 <= i < |conds| ==> Holds(eng, column, conds[i], row)
  }

  lemma AllHoldConcat<T>(eng: Engine, column: (T, string) -> Value, a: seq<Cond>, b: seq<Cond>, row: T)
    ensures AllHold(eng, column, a + b, row) <==> AllHold(eng, column, a, row) && AllHold(eng, column, b, row)
  {
    if AllHold(eng, column, a, row) && AllHold(eng, column, b, row) {
      forall i | 0 <= i < |a + b| ensures Holds(eng, column, (a + b)[i], row) {
        if i >= |a| {
          assert (a + b)[i] == b[i - |a|];
        }
      }
    }
    if AllHold(eng, column, a + b, row) {
      forall i | 0 <= i < |a| ensures Holds(eng, column, a[i], row) {
        assert (a + b)[i] == a[i];
      }
      forall i | 0 <= i < |b| ensures Holds(eng, column, b[i], row) {
        assert (a + b)[|a| + i] == b[i];
      }
    }
  }

  lemma AllHoldNone<T>(eng: Engine, column: (T, string) -> Value, row: T)
    ensures AllHold(eng, column, [], row)
  {
  }

  lemma AllHoldOne<T>(eng: Engine, column: (T, string) -> Value, c: Cond, row: T)
    ensures AllHold(eng, column, [c], row) <==> Holds(eng, column, c, row)
  {
    assert [c][0] == c;
  }

  /** The conditions after an optional `.where(c)`: added only when the parameter is set. */
  function AddIf(conds: seq<Cond>, given: bool, c: Cond): seq<Cond> {
    if given then conds + [c] else conds
  }

  lemma AllHoldAddIf<T>(eng: Engine, column: (T, string) -> Value, conds: seq<Cond>, given: bool, c: Cond, row: T)
    ensures AllHold(eng, column, AddIf(conds, given, c), row) <==> AllHold(eng, column, conds, row) && (given ==> Holds(eng, column, c, row))
  {
    if given {
      AllHoldConcat(eng, column, conds, [c], row);
      AllHoldOne(eng, column, c, row);
    }
  }

  /** The elements of s that satisfy p, in order. */
  function Filter<T>(s: seq<T>, p: T -> bool): (r: seq<T>)
    ensures |r| <= |s|
    ensures forall x :: x in r ==> x in s && p(x)
  {
    if s == [] then []
    else if p(s[0]) then [s[0]] + Filter(s[1..], p)
    else Filter(s[1..], p)
  }

  /** Filter keeps every element that satisfies p. */
  lemma {:induction false} FilterKeeps<T>(s: seq<T>, p: T -> bool, x: T)
    requires x in s && p(x)
    ensures x in Filter(s, p)
  {
    if s[0] != x {
      FilterKeeps(s[1..], p, x);
    }
  }

  /** Filters by predicates that agree on s give the same rows. */
  lemma {:induction false} FilterAgree<T>(s: seq<T>, p: T -> bool, q: T -> bool)
    requires forall x :: x in s ==> p(x) == q(x)
    ensures Filter(s, p) == Filter(s, q)
  {
    if s != [] {
      FilterAgree(s[1..], p, q);
    }
  }

  /** Filtering a concatenation filters each part. */
  lemma {:induction false} FilterConcat<T>(a: seq<T>, b: seq<T>, p: T -> bool)
    ensures Filter(a + b, p) == Filter(a, p) + Filter(b, p)
  {
    if a != [] {
      assert (a + b)[1..] == a[1..] + b;
      FilterConcat(a[1..], b, p);
    } else {
      assert a + b == b;
    }
  }

  function Min(a: int, b: int): int {
    if a <= b then a else b
  }

  /** OFFSET then LIMIT: drop the first `offset` rows, then keep at most `limit`. */
  function Page<T>(s: seq<T>, offset: nat, limit: Option<nat>): (p: seq<T>)
    ensures offset >= |s| ==> p == []
    ensures offset < |s| && limit.None? ==> |p| == |s| - offset
    ensures offset < |s| && limit.Some? ==> |p| == Min(limit.value, |s| - offset)
    ensures forall i :: 0 <= i < |p| ==> p[i] == s[offset + i]
  {
    var lo := if offset <= |s| then offset else |s|;
    var hi := if limit.Some? && lo + limit.value <= |s| then lo + limit.value else |s|;
    s[lo..hi]
  }

  /** Two consecutive pages of n rows are the page of 2n rows. */
  lemma PagesAdjacent<T>(s: seq<T>, skip: nat, n: nat)
    ensures Page(s, skip, Some(n)) + Page(s, skip + n, Some(n)) == Page(s, skip, Some(2 * n))
  {
  }

  /** The geometry column's value: the GeoJSON text of the (simplified) geometry, NULL for NULL. */
  function GeometryText(eng: Engine, output: GeometryOutput, v: Value): Value {
    if v.Geo? then
      match output
      case AsGeoJson => Text(eng.asGeoJson(v.g))
      case AsSimplifiedGeoJson(t) => Text(eng.asGeoJson(eng.simplify(v.g, t)))
    else Null
  }

  /** A result row: the selected columns in order, then the geometry labelled "geometry". */
  function ProjectRow<T>(eng: Engine, column: (T, string) -> Value, columns: seq<string>, output: GeometryOutput, row: T): (r: Record)
    ensures |r| == |columns| + 1
    ensures forall i :: 0 <= i < |columns| ==> r[i] == Field(columns[i], column(row, columns[i]))
    ensures r[|columns|] == Field("geometry", GeometryText(eng, output, column(row, "geometry")))
  {
    seq(|columns|, i requires 0 <= i < |columns| => Field(columns[i], column(row, columns[i])))
      + [Field("geometry", GeometryText(eng, output, column(row, "geometry")))]
  }

  function ProjectAll<T>(eng: Engine, column: (T, string) -> Value, columns: seq<string>, output: GeometryOutput, rows: seq<T>): (rs: seq<Record>)
    ensures |rs| == |rows|
    ensures forall i :: 0 <= i < |rows| ==> rs[i] == ProjectRow(eng, column, columns, output, rows[i])
  {
    seq(|rows|, i requires 0 <= i < |rows| => ProjectRow(eng, column, columns, output, rows[i]))
  }

  /** `await db.execute(query)`, `.all()`: filter, paginate, project. */
  function Execute<T>(eng: Engine, column: (T, string) -> Value, q: Select, table: seq<T>): seq<Record> {
    ProjectAll(eng, column, q.columns, q.output,
      Page(Filter(table, row => AllHold(eng, column, q.conds, row)), q.offset, q.limit))
  }

  /**
   * A query's result is determined by which rows its conditions accept: when a
   * reference predicate accepts exactly those rows, the result is its pages.
   */
  lemma ExecuteAsFilter<T>(eng: Engine, column: (T, string) -> Value, q: Select, table: seq<T>, matches: T -> bool)
    requires forall row :: row in table ==> (AllHold(eng, column, q.conds, row) <==> matches(row))
    ensures Execute(eng, column, q, table)
         == ProjectAll(eng, column, q.columns, q.output, Page(Filter(table, matches), q.offset, q.limit))
  {
    FilterAgree(table, row => AllHold(eng, column, q.conds, row), matches);
  }
}
