/**
 * The pandas / geopandas data frames the ETL scripts transform: a list of
 * column names and, per row, a record holding one field per column.  Every
 * operation returns a new frame; the scripts' in-place column assignments
 * rebind the frame they work on.
 */
module Frames {
  import opened Wrappers
  import opened Values
  import opened Foreign
  import Sql
  import Aggregate

  datatype Frame = Frame(columns: seq<string>, rows: seq<Record>)

  /** Column names are distinct and every row has exactly the frame's columns, in order. */
  predicate WellFormed(f: Frame) {
    && (forall i, j :: 0 <= i < j < |f.columns| ==> f.columns[i] != f.columns[j])
    && (forall r :: 0 <= r < |f.rows| ==> Names(f.rows[r]) == f.columns)
  }

  /** `df[c]`, read row by row; a missing key reads as None. */
  function Column(f: Frame, c: string): (vs: seq<Value>)
    ensures |vs| == |f.rows|
    ensures forall i :: 0 <= i < |f.rows| ==> vs[i] == GetOrNull(f.rows[i], c)
  {
    seq(|f.rows|, i requires 0 <= i < |f.rows| => GetOrNull(f.rows[i], c))
  }

  // ------------------------------------------------------------ assignment

  /** Every field called c takes the value v. */
  function Overwrite(r: Record, c: string, v: Value): (w: Record)
    ensures |w| == |r|
    ensures forall i :: 0 <= i < |r| ==> w[i] == if r[i].name == c then Field(c, v) else r[i]
  {
    seq(|r|, i requires 0 <= i < |r| => if r[i].name == c then Field(c, v) else r[i])
  }

  /** Overwriting keeps the keys and changes only what c reads. */
  lemma {:induction false} OverwriteGet(r: Record, c: string, v: Value)
    ensures Names(Overwrite(r, c, v)) == Names(r)
    ensures c in Names(r) ==> Get(Overwrite(r, c, v), c) == Some(v)
    ensures forall k :: k != c ==> Get(Overwrite(r, c, v), k) == Get(r, k)
    decreases |r|
  {
    var w := Overwrite(r, c, v);
    if r != [] {
      assert w[1..] == Overwrite(r[1..], c, v);
      assert Names(r) == [r[0].name] + Names(r[1..]);
      OverwriteGet(r[1..], c, v);
    }
  }

  /** A frame whose rows all come from a well-formed frame is well formed. */
  lemma SubsetWellFormed(f: Frame, rows: seq<Record>)
    requires WellFormed(f)
    requires forall x :: x in rows ==> x in f.rows
    ensures WellFormed(Frame(f.columns, rows))
  {
    forall i | 0 <= i < |rows| ensures Names(rows[i]) == f.columns {
      assert rows[i] in f.rows;
    }
  }

  /** `row[c] = v`: the field c is overwritten where present, otherwise added at the end. */
  function Assign(r: Record, c: string, v: Value): (a: Record)
    ensures Names(a) == if c in Names(r) then Names(r) else Names(r) + [c]
    ensures Get(a, c) == Some(v)
    ensures forall k :: k != c ==> Get(a, k) == Get(r, k)
  {
    if c in Names(r) then
      OverwriteGet(r, c, v);
      Overwrite(r, c, v)
    else
      LastColumn(r, c, v);
      AppendedGet(r, Field(c, v));
      r + [Field(c, v)]
  }

  /** Appending a field does not change what an earlier key reads. */
  lemma {:induction false} AppendedGet(r: Record, x: Field)
    ensures forall k :: k != x.name ==> Get(r + [x], k) == Get(r, k)
    decreases |r|
  {
    if r != [] {
      assert (r + [x])[1..] == r[1..] + [x];
      AppendedGet(r[1..], x);
    }
  }

  /**
   * `df[c] = vs`: row i of the new frame has vs[i] under c and every other
   * column unchanged; c is appended to the columns when it is new.
   */
  function SetColumn(f: Frame, c: string, vs: seq<Value>): (g: Frame)
    requires |vs| == |f.rows|
    ensures g.columns == if c in f.columns then f.columns else f.columns + [c]
    ensures |g.rows| == |f.rows|
    ensures forall i :: 0 <= i < |g.rows| ==> Get(g.rows[i], c) == Some(vs[i])
    ensures forall i, k :: 0 <= i < |g.rows| && k != c ==> Get(g.rows[i], k) == Get(f.rows[i], k)
  {
    var rows := seq(|f.rows|, i requires 0 <= i < |f.rows| => Assign(f.rows[i], c, vs[i]));
    Frame(if c in f.columns then f.columns else f.columns + [c], rows)
  }

  /** Assigning a column keeps a frame well formed. */
  lemma SetColumnWellFormed(f: Frame, c: string, vs: seq<Value>)
    requires WellFormed(f) && |vs| == |f.rows|
    ensures WellFormed(SetColumn(f, c, vs))
  {
    var g := SetColumn(f, c, vs);
    forall i | 0 <= i < |g.rows| ensures Names(g.rows[i]) == g.columns {
      assert g.rows[i] == Assign(f.rows[i], c, vs[i]);
    }
  }

  /** `df[c] = v` for a scalar v. */
  function SetConst(f: Frame, c: string, v: Value): (g: Frame)
    ensures g.columns == if c in f.columns then f.columns else f.columns + [c]
    ensures c in g.columns && |g.rows| == |f.rows|
    ensures forall i :: 0 <= i < |g.rows| ==> Get(g.rows[i], c) == Some(v)
    ensures forall i, k :: 0 <= i < |g.rows| && k != c ==> Get(g.rows[i], k) == Get(f.rows[i], k)
  {
    SetColumn(f, c, seq(|f.rows|, i => v))
  }

  /** `fillna({c: v})`: nulls of a present column c become v; a frame without c is returned as it is. */
  function FillNa(f: Frame, c: string, v: Value): (g: Frame)
    ensures g.columns == f.columns && |g.rows| == |f.rows|
    ensures c !in f.columns ==> g == f
    ensures c in f.columns ==> forall i :: 0 <= i < |g.rows| ==>
      Get(g.rows[i], c) == Some(if GetOrNull(f.rows[i], c) == Null then v else GetOrNull(f.rows[i], c))
    ensures forall i, k :: 0 <= i < |g.rows| && k != c ==> Get(g.rows[i], k) == Get(f.rows[i], k)
  {
    if c !in f.columns then f
    else
      var old_ := Column(f, c);
      SetColumn(f, c, seq(|f.rows|, i requires 0 <= i < |f.rows| => if old_[i] == Null then v else old_[i]))
  }

  /** Setting a constant column or filling nulls keeps a frame well formed. */
  lemma FillWellFormed(f: Frame, c: string, v: Value)
    requires WellFormed(f)
    ensures WellFormed(SetConst(f, c, v))
    ensures WellFormed(FillNa(f, c, v))
  {
    SetColumnWellFormed(f, c, seq(|f.rows|, i => v));
    if c in f.columns {
      var old_ := Column(f, c);
      SetColumnWellFormed(f, c, seq(|f.rows|, i requires 0 <= i < |f.rows| => if old_[i] == Null then v else old_[i]));
    }
  }

  /**
   * `df.fillna({c1: v1, c2: v2, ...})`: the nulls of each listed column that
   * the frame has are replaced by that column's value.
   */
  function FillNaMany(f: Frame, fills: seq<(string, Value)>): (g: Frame)
    ensures g.columns == f.columns && |g.rows| == |f.rows|
    decreases |fills|
  {
    if fills == [] then f else FillNaMany(FillNa(f, fills[0].0, fills[0].1), fills[1..])
  }

  /** The keys of a `fillna` dictionary are distinct. */
  predicate DistinctKeys(fills: seq<(string, Value)>) {
    forall a, b :: 0 <= a < b < |fills| ==> fills[a].0 != fills[b].0
  }

  /**
   * Row i after `fillna` with a dictionary: a listed column the frame has
   * holds its old value, or the listed value where the old one was null;
   * every column not listed, and every column the frame lacks, is as it was.
   */
  lemma {:induction false} FillNaManyGet(f: Frame, fills: seq<(string, Value)>, i: nat, k: string)
    requires i < |f.rows| && DistinctKeys(fills)
    ensures (forall j :: 0 <= j < |fills| ==> fills[j].0 != k) || k !in f.columns ==>
      Get(FillNaMany(f, fills).rows[i], k) == Get(f.rows[i], k)
    ensures forall j :: 0 <= j < |fills| && fills[j].0 == k && k in f.columns ==>
      Get(FillNaMany(f, fills).rows[i], k) == Some(if GetOrNull(f.rows[i], k) == Null then fills[j].1 else GetOrNull(f.rows[i], k))
    decreases |fills|
  {
    if fills != [] {
      var h := FillNa(f, fills[0].0, fills[0].1);
      assert DistinctKeys(fills[1..]);
      FillNaManyGet(h, fills[1..], i, k);
      if k == fills[0].0 {
        assert forall j :: 0 <= j < |fills[1..]| ==> fills[1..][j].0 != k;
      } else {
        assert forall j :: 0 <= j < |fills| && fills[j].0 == k ==> j >= 1 && fills[1..][j - 1] == fills[j];
      }
    }
  }

  /** `df.drop(c, axis=1)` for a column the frame has: the column is gone and everything else stays. */
  function Drop(f: Frame, c: string): (g: Frame)
    requires c in f.columns
    ensures |g.rows| == |f.rows|
    ensures forall x :: x in g.columns <==> x in f.columns && x != c
    ensures forall i :: 0 <= i < |g.rows| ==> Get(g.rows[i], c) == None
    ensures forall i, k :: 0 <= i < |g.rows| && k != c ==> Get(g.rows[i], k) == Get(f.rows[i], k)
  {
    var columns := Sql.Filter(f.columns, x => x != c);
    forall x | x in f.columns && x != c ensures x in columns {
      Sql.FilterKeeps(f.columns, x => x != c, x);
    }
    var rows := seq(|f.rows|, i requires 0 <= i < |f.rows| => Without(f.rows[i], c));
    forall i | 0 <= i < |rows| ensures Get(rows[i], c) == None {
      WithoutNames(f.rows[i], c);
      GetAbsent(rows[i], c);
    }
    forall i, k | 0 <= i < |rows| && k != c ensures Get(rows[i], k) == Get(f.rows[i], k) {
      WithoutGet(f.rows[i], c, k);
    }
    Frame(columns, rows)
  }

  // ------------------------------------------------------------ row selection

  /** `df[mask]` for a mask computed row by row: the rows satisfying keep, in order. */
  function Select(f: Frame, keep: Record -> bool): (g: Frame)
    ensures g.columns == f.columns && |g.rows| <= |f.rows|
    ensures forall r :: r in g.rows <==> r in f.rows && keep(r)
  {
    var rows := Sql.Filter(f.rows, keep);
    assert forall r :: r in f.rows && keep(r) ==> r in rows by {
      forall r | r in f.rows && keep(r) ensures r in rows {
        Sql.FilterKeeps(f.rows, keep, r);
      }
    }
    Frame(f.columns, rows)
  }

  /** Selecting rows keeps a frame well formed. */
  lemma SelectWellFormed(f: Frame, keep: Record -> bool)
    requires WellFormed(f)
    ensures WellFormed(Select(f, keep))
  {
    SubsetWellFormed(f, Select(f, keep).rows);
  }

  /** The row has a non-null value under every column of cs. */
  predicate NoneMissing(cs: seq<string>, r: Record) {
    forall c :: c in cs ==> GetOrNull(r, c) != Null
  }

  /** `drop_duplicates()`: each distinct row once, keeping the first copy, in order. */
  function DropDuplicates(f: Frame): (g: Frame)
    ensures g.columns == f.columns
    ensures forall r :: r in g.rows <==> r in f.rows
    ensures forall i, j :: 0 <= i < j < |g.rows| ==> g.rows[i] != g.rows[j]
  {
    Frame(f.columns, Aggregate.Distinct(f.rows))
  }

  /** Dropping duplicate rows keeps a frame well formed. */
  lemma DropDuplicatesWellFormed(f: Frame)
    requires WellFormed(f)
    ensures WellFormed(DropDuplicates(f))
  {
    SubsetWellFormed(f, DropDuplicates(f).rows);
  }

  // ------------------------------------------------------------ renaming

  /** A `columns={old: new}` mapping, in its insertion order; keys are distinct. */
  type Mapping = seq<(string, string)>

  function Keys(m: Mapping): (ks: seq<string>)
    ensures |ks| == |m|
    ensures forall i :: 0 <= i < |m| ==> ks[i] == m[i].0
  {
    seq(|m|, i requires 0 <= i < |m| => m[i].0)
  }

  /** The name a column gets: its mapped name when c is a key, otherwise c. */
  function NewName(m: Mapping, c: string): string
    decreases |m|
  {
    if m == [] then c
    else if m[0].0 == c then m[0].1
    else NewName(m[1..], c)
  }

  lemma {:induction false} NewNameOfAbsent(m: Mapping, c: string)
    requires c !in Keys(m)
    ensures NewName(m, c) == c
    decreases |m|
  {
    if m != [] {
      assert Keys(m[1..]) == Keys(m)[1..];
      NewNameOfAbsent(m[1..], c);
    }
  }

  /** `{k: v for k, v in m.items() if k in columns}` */
  function ValidColumns(m: Mapping, columns: seq<string>): (v: Mapping)
    ensures forall k :: k in Keys(v) <==> k in Keys(m) && k in columns
    ensures forall e :: e in v <==> e in m && e.0 in columns
    decreases |m|
  {
    if m == [] then []
    else
      var rest := ValidColumns(m[1..], columns);
      assert Keys(m) == [m[0].0] + Keys(m[1..]);
      if m[0].0 in columns then
        assert Keys([m[0]] + rest) == [m[0].0] + Keys(rest);
        [m[0]] + rest
      else rest
  }

  /** Restricting a mapping to some columns maps those columns as before. */
  lemma {:induction false} ValidColumnsSameNames(m: Mapping, columns: seq<string>, c: string)
    requires c in columns
    ensures NewName(ValidColumns(m, columns), c) == NewName(m, c)
    decreases |m|
  {
    if m != [] {
      ValidColumnsSameNames(m[1..], columns, c);
    }
  }

  function RenameRecord(m: Mapping, r: Record): (w: Record)
    ensures |w| == |r|
    ensures forall i :: 0 <= i < |r| ==> w[i] == Field(NewName(m, r[i].name), r[i].value)
  {
    seq(|r|, i requires 0 <= i < |r| => Field(NewName(m, r[i].name), r[i].value))
  }

  /** `df.rename(columns=m)`: each column takes its new name, keeping its position and values. */
  function Rename(f: Frame, m: Mapping): (g: Frame)
    ensures |g.columns| == |f.columns| && |g.rows| == |f.rows|
    ensures forall i :: 0 <= i < |f.columns| ==> g.columns[i] == NewName(m, f.columns[i])
    ensures forall i :: 0 <= i < |f.rows| ==> g.rows[i] == RenameRecord(m, f.rows[i])
  {
    Frame(seq(|f.columns|, i requires 0 <= i < |f.columns| => NewName(m, f.columns[i])),
          seq(|f.rows|, i requires 0 <= i < |f.rows| => RenameRecord(m, f.rows[i])))
  }

  /**
   * Renaming a ↦ b in a row: b reads what a read (when the row had no b of its
   * own), a is gone, and every other key reads as before.
   */
  lemma {:induction false} RenameOneGet(r: Record, a: string, b: string, k: string)
    requires a != b
    ensures b !in Names(r) ==> Get(RenameRecord([(a, b)], r), b) == Get(r, a)
    ensures Get(RenameRecord([(a, b)], r), a) == None
    ensures k != a && k != b ==> Get(RenameRecord([(a, b)], r), k) == Get(r, k)
    decreases |r|
  {
    if r != [] {
      var m := [(a, b)];
      assert m[1..] == [];
      assert NewName(m, r[0].name) == if r[0].name == a then b else r[0].name;
      assert RenameRecord(m, r)[0] == Field(NewName(m, r[0].name), r[0].value);
      assert RenameRecord(m, r)[1..] == RenameRecord(m, r[1..]);
      assert Names(r) == [r[0].name] + Names(r[1..]);
      RenameOneGet(r[1..], a, b, k);
    }
  }

  /** A key that the mapping neither renames nor renames anything to reads as before. */
  lemma {:induction false} RenameGetUnmapped(m: Mapping, r: Record, k: string)
    requires forall e :: e in m ==> e.0 != k && e.1 != k
    ensures Get(RenameRecord(m, r), k) == Get(r, k)
    decreases |r|
  {
    if r != [] {
      NewNameUnmapped(m, r[0].name, k);
      assert RenameRecord(m, r)[0] == Field(NewName(m, r[0].name), r[0].value);
      assert RenameRecord(m, r)[1..] == RenameRecord(m, r[1..]);
      RenameGetUnmapped(m, r[1..], k);
    }
  }

  /** Under such a mapping, a name becomes k only if it was k. */
  lemma {:induction false} NewNameUnmapped(m: Mapping, c: string, k: string)
    requires forall e :: e in m ==> e.0 != k && e.1 != k
    ensures NewName(m, c) == k <==> c == k
    decreases |m|
  {
    if m != [] {
      assert m[0] in m;
      assert forall e :: e in m[1..] ==> e in m;
      NewNameUnmapped(m[1..], c, k);
    }
  }

  /** Renaming a ↦ b: b is a column exactly when a or b was, a no longer is, and the rest stay. */
  lemma RenameOneColumns(f: Frame, a: string, b: string)
    requires a != b
    ensures var g := Rename(f, [(a, b)]);
      && a !in g.columns
      && (b in g.columns <==> a in f.columns || b in f.columns)
      && forall x :: x != a && x != b ==> (x in g.columns <==> x in f.columns)
  {
    var m := [(a, b)];
    assert m[1..] == [];
    var g := Rename(f, m);
    forall j | 0 <= j < |f.columns| ensures g.columns[j] == if f.columns[j] == a then b else f.columns[j] {
      assert NewName(m, f.columns[j]) == if f.columns[j] == a then b else f.columns[j];
    }
    forall x | x in f.columns ensures (if x == a then b else x) in g.columns {
      var j :| 0 <= j < |f.columns| && f.columns[j] == x;
      assert g.columns[j] == if x == a then b else x;
    }
  }

  /**
   * Renaming through the mapping restricted to the frame's own columns
   * renames exactly as the whole mapping would: only keys found among the
   * columns take effect, and every other column keeps its name.
   */
  lemma RenamePresentKeys(f: Frame, m: Mapping)
    requires WellFormed(f)
    ensures Rename(f, ValidColumns(m, f.columns)) == Rename(f, m)
    ensures forall i :: 0 <= i < |f.columns| && f.columns[i] !in Keys(m) ==>
      Rename(f, ValidColumns(m, f.columns)).columns[i] == f.columns[i]
  {
    var v := ValidColumns(m, f.columns);
    forall c | c in f.columns ensures NewName(v, c) == NewName(m, c) {
      ValidColumnsSameNames(m, f.columns, c);
    }
    forall i | 0 <= i < |f.rows| ensures RenameRecord(v, f.rows[i]) == RenameRecord(m, f.rows[i]) {
      assert Names(f.rows[i]) == f.columns;
      forall j | 0 <= j < |f.rows[i]| ensures NewName(v, f.rows[i][j].name) == NewName(m, f.rows[i][j].name) {
        assert f.rows[i][j].name == Names(f.rows[i])[j];
      }
    }
    forall i | 0 <= i < |f.columns| && f.columns[i] !in Keys(m) ensures NewName(v, f.columns[i]) == f.columns[i] {
      NewNameOfAbsent(m, f.columns[i]);
    }
  }

  // ------------------------------------------------------------ casts

  /** The outcome of casting one value: to a number, to NaN, or an exception. */
  datatype Cast<T> = Raises | NaN | Cast(value: T)

  /** `series.astype(float)` on one value. */
  function AsFloat(eng: Engine, v: Value): (c: Cast<real>)
    ensures v == Null <==> c.NaN?
    ensures v.Int? ==> c == Cast(v.i as real)
    ensures v.Num? ==> c == Cast(v.x)
  {
    match v
    case Null => NaN
    case Int(i) => Cast(i as real)
    case Num(x) => Cast(x)
    case Text(s) => if eng.parseFloat(s).Some? then Cast(eng.parseFloat(s).value) else Raises
    case _ => Raises
  }

  /** `int(x)` of a float: truncation toward zero. */
  function Trunc(x: real): (n: int)
    ensures x >= 0.0 ==> n as real <= x < n as real + 1.0
    ensures x < 0.0 ==> n as real - 1.0 < x <= n as real
  {
    if x >= 0.0 then x.Floor else -((-x).Floor)
  }

  /** `series.astype(int)` on one value; NaN cannot be cast and raises. */
  function AsInt(eng: Engine, v: Value): (c: Option<int>)
    ensures v == Null ==> c == None
    ensures v.Int? ==> c == Some(v.i)
  {
    match v
    case Int(i) => Some(i)
    case Num(x) => Some(Trunc(x))
    case Text(s) => eng.parseInt(s)
    case _ => None
  }

  /** `pd.to_numeric(v, errors="coerce")`; None is NaN. */
  function ToNumeric(eng: Engine, v: Value): (x: Option<real>)
    ensures v == Null ==> x == None
    ensures v.Int? ==> x == Some(v.i as real)
    ensures v.Num? ==> x == Some(v.x)
  {
    match v
    case Null => None
    case Int(i) => Some(i as real)
    case Num(x) => Some(x)
    case _ => eng.toNumeric(v)
  }
}
