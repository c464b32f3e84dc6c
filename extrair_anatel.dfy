/**
 * The Anatel fibre-coverage extractor (scripts/extrair_anatel.py): a
 * BigQuery result is prepared and loaded into `geo.cobertura_fibra` in
 * chunks, after a table-name check that guards the SQL the loader builds.
 */
module ExtrairAnatel {
  import opened Wrappers
  import opened Values
  import opened Foreign
  import opened Frames
  import Chunks
  import opened BigQueryEtl

  // ------------------------------------------------------------ table names

  predicate IdentChar(ch: char) {
    'a' <= ch <= 'z' || 'A' <= ch <= 'Z' || '0' <= ch <= '9' || ch == '_'
  }

  /** One or more of `[a-zA-Z0-9_]` and nothing else. */
  predicate Identifier(s: string) {
    |s| >= 1 && forall i :: 0 <= i < |s| ==> IdentChar(s[i])
  }

  /**
   * `re.match(r"^[a-zA-Z0-9_]+$", s)`.  Python's `$` matches at the end of
   * the string and also just before a newline that ends it.
   */
  predicate PatternMatches(s: string) {
    Identifier(s) || (|s| >= 2 && s[|s| - 1] == '\n' && Identifier(s[..|s| - 1]))
  }

  /** PostgreSQL's identifier limit. */
  const MaxTableName := 63

  datatype NameCheck = Accepted(name: string) | Rejected(message: string)

  function InvalidNameMessage(s: string): string {
    "Nome de tabela inválido: '" + s + "'. Apenas letras, números e underscores são permitidos."
  }

  function LongNameMessage(s: string): string {
    "Nome de tabela muito longo: '" + s + "' (máximo 63 caracteres)"
  }

  /** `_validate_table_name` as written: the pattern check, then the length check. */
  function ValidateTableNameAsWritten(s: string): (r: NameCheck)
    ensures r.Accepted? ==> r.name == s && |s| <= MaxTableName
  {
    if !PatternMatches(s) then Rejected(InvalidNameMessage(s))
    else if |s| > MaxTableName then Rejected(LongNameMessage(s))
    else Accepted(s)
  }

  /** The validator with the pattern anchored at the very end of the string (`\Z`). */
  function ValidateTableName(s: string): (r: NameCheck)
    ensures r.Accepted? ==> r.name == s
  {
    if !Identifier(s) then Rejected(InvalidNameMessage(s))
    else if |s| > MaxTableName then Rejected(LongNameMessage(s))
    else Accepted(s)
  }

  /**
   * The corrected validator returns its input exactly when it is 1 to 63
   * letters, digits and underscores, so an accepted name holds no quote,
   * dot, blank, semicolon or newline; other names are rejected with the
   * message for the first check they fail.
   */
  lemma ValidateTableNameMeaning(s: string)
    ensures ValidateTableName(s) == Accepted(s) <==> Identifier(s) && |s| <= MaxTableName
    ensures ValidateTableName(s).Accepted? ==> forall ch :: ch in s ==> IdentChar(ch)
    ensures !Identifier(s) ==> ValidateTableName(s) == Rejected(InvalidNameMessage(s))
    ensures Identifier(s) && |s| > MaxTableName ==> ValidateTableName(s) == Rejected(LongNameMessage(s))
  {
    if ValidateTableName(s).Accepted? {
      forall ch | ch in s ensures IdentChar(ch) {
        var i :| 0 <= i < |s| && s[i] == ch;
      }
    }
  }

  /** On names that do not end in a newline the validator as written and the corrected one agree. */
  lemma AsWrittenAgreesWithoutNewline(s: string)
    requires s == [] || s[|s| - 1] != '\n'
    ensures ValidateTableNameAsWritten(s) == ValidateTableName(s)
  {
  }

  /** The validator as written accepts a name ending in a newline, which the SQL it guards then contains. */
  lemma AsWrittenAcceptsTrailingNewline()
    ensures ValidateTableNameAsWritten("cobertura_fibra\n") == Accepted("cobertura_fibra\n")
    ensures ValidateTableName("cobertura_fibra\n").Rejected?
  {
    var s := "cobertura_fibra\n";
    assert s[..|s| - 1] == "cobertura_fibra";
    assert !IdentChar(s[|s| - 1]);
  }

  // ------------------------------------------------------------ preparation

  const DataSource := "ANATEL_BIGQUERY"
  const EmpresaDefault := "Não informado"

  /** Every value of column c casts to an integer. */
  predicate CastsToInt(eng: Engine, f: Frame, c: string) {
    forall i :: 0 <= i < |f.rows| ==> AsInt(eng, GetOrNull(f.rows[i], c)).Some?
  }

  /** `df[c] = df[c].astype(int)`; None when c is missing (KeyError) or a value does not cast. */
  function CastIntColumn(eng: Engine, f: Frame, c: string): (g: Option<Frame>)
    ensures g.Some? <==> c in f.columns && CastsToInt(eng, f, c)
    ensures g.Some? ==> && g.value.columns == f.columns && |g.value.rows| == |f.rows|
                        && (forall i :: 0 <= i < |f.rows| ==>
                              Get(g.value.rows[i], c) == Some(Int(AsInt(eng, GetOrNull(f.rows[i], c)).value)))
                        && (forall i, k :: 0 <= i < |f.rows| && k != c ==> Get(g.value.rows[i], k) == Get(f.rows[i], k))
  {
    if c !in f.columns || !CastsToInt(eng, f, c) then None
    else Some(SetColumn(f, c, seq(|f.rows|, i requires 0 <= i < |f.rows| => Int(AsInt(eng, GetOrNull(f.rows[i], c)).value))))
  }

  /** `pd.to_numeric(v, errors="coerce")`, then `fillna(0)`, then `astype(int)`. */
  function CoercedAccesses(eng: Engine, v: Value): Value {
    Int(Trunc(ToNumeric(eng, v).GetOr(0.0)))
  }

  /**
   * The first half of `_prepare_dataframe`: the tagged rows, with the
   * missing accesses filled with 0 and the missing companies with
   * "Não informado".
   */
  function Filled(f: Frame, now: Timestamp): (g: Frame)
    ensures |g.rows| == |f.rows|
    ensures forall c :: c in g.columns <==> c in f.columns || c == "data_source" || c == "data_extracao"
  {
    FillChain(f, "data_source", Text(DataSource), "data_extracao", Time(now), "acessos", Int(0), "empresa", Text(EmpresaDefault))
  }

  /** The column names preparation touches are pairwise different (the equal-length pairs differ in their first letter). */
  lemma DistinctNames()
    ensures "acessos" != "empresa" && "ano" != "mes"
    ensures "acessos" != "data_source" && "acessos" != "data_extracao"
    ensures "empresa" != "data_source" && "empresa" != "data_extracao"
  {
    assert |"acessos"| == |"empresa"| == 7;
    assert "acessos"[0] != "empresa"[0];
    assert "ano"[0] != "mes"[0];
  }

  /** The frame after two constant columns and two null fills. */
  function FillChain(f: Frame, c1: string, v1: Value, c2: string, v2: Value, c3: string, v3: Value, c4: string, v4: Value): Frame {
    FillNa(FillNa(SetConst(SetConst(f, c1, v1), c2, v2), c3, v3), c4, v4)
  }

  /** After the chain, row i holds the two constants. */
  lemma FillChainConsts(f: Frame, c1: string, v1: Value, c2: string, v2: Value, c3: string, v3: Value, c4: string, v4: Value, i: nat)
    requires i < |f.rows|
    requires c1 != c2 && c1 != c3 && c1 != c4 && c2 != c3 && c2 != c4
    ensures var s := FillChain(f, c1, v1, c2, v2, c3, v3, c4, v4).rows[i];
      Get(s, c1) == Some(v1) && Get(s, c2) == Some(v2)
  {
    var t := SetConst(SetConst(f, c1, v1), c2, v2);
    var a := FillNa(t, c3, v3);
    assert Get(a.rows[i], c1) == Get(t.rows[i], c1);
    assert Get(a.rows[i], c2) == Get(t.rows[i], c2);
  }

  /** After the chain, a present c3 holds its filled value. */
  lemma FillChainThird(f: Frame, c1: string, v1: Value, c2: string, v2: Value, c3: string, v3: Value, c4: string, v4: Value, i: nat)
    requires i < |f.rows|
    requires c1 != c3 && c2 != c3 && c3 != c4
    requires c3 in f.columns
    ensures var r, s := f.rows[i], FillChain(f, c1, v1, c2, v2, c3, v3, c4, v4).rows[i];
      Get(s, c3) == Some(if GetOrNull(r, c3) == Null then v3 else GetOrNull(r, c3))
  {
    var t := SetConst(SetConst(f, c1, v1), c2, v2);
    var a := FillNa(t, c3, v3);
    assert Get(t.rows[i], c3) == Get(f.rows[i], c3);
    assert Get(FillNa(a, c4, v4).rows[i], c3) == Get(a.rows[i], c3);
  }

  /** After the chain, a present c4 holds its filled value. */
  lemma FillChainFourth(f: Frame, c1: string, v1: Value, c2: string, v2: Value, c3: string, v3: Value, c4: string, v4: Value, i: nat)
    requires i < |f.rows|
    requires c1 != c4 && c2 != c4 && c3 != c4
    requires c4 in f.columns
    ensures var r, s := f.rows[i], FillChain(f, c1, v1, c2, v2, c3, v3, c4, v4).rows[i];
      Get(s, c4) == Some(if GetOrNull(r, c4) == Null then v4 else GetOrNull(r, c4))
  {
    var t := SetConst(SetConst(f, c1, v1), c2, v2);
    var a := FillNa(t, c3, v3);
    assert Get(t.rows[i], c4) == Get(f.rows[i], c4);
    assert Get(a.rows[i], c4) == Get(t.rows[i], c4);
  }

  /** After the chain, every column but the four is as it was. */
  lemma FillChainOthers(f: Frame, c1: string, v1: Value, c2: string, v2: Value, c3: string, v3: Value, c4: string, v4: Value, i: nat)
    requires i < |f.rows|
    ensures var r, s := f.rows[i], FillChain(f, c1, v1, c2, v2, c3, v3, c4, v4).rows[i];
      forall k :: k != c1 && k != c2 && k != c3 && k != c4 ==> Get(s, k) == Get(r, k)
  {
  }

  /** Row i after filling: the tags, the filled accesses and companies, and every other column as it was. */
  lemma FilledRow(f: Frame, now: Timestamp, i: nat)
    requires i < |f.rows|
    ensures var r, s := f.rows[i], Filled(f, now).rows[i];
      && Get(s, "data_source") == Some(Text(DataSource)) && Get(s, "data_extracao") == Some(Time(now))
      && ("acessos" in f.columns ==>
            Get(s, "acessos") == Some(if GetOrNull(r, "acessos") == Null then Int(0) else GetOrNull(r, "acessos")))
      && ("empresa" in f.columns ==>
            Get(s, "empresa") == Some(if GetOrNull(r, "empresa") == Null then Text(EmpresaDefault) else GetOrNull(r, "empresa")))
      && (forall k :: k != "data_source" && k != "data_extracao" && k != "acessos" && k != "empresa" ==> Get(s, k) == Get(r, k))
  {
    DistinctNames();
    FillChainConsts(f, "data_source", Text(DataSource), "data_extracao", Time(now), "acessos", Int(0), "empresa", Text(EmpresaDefault), i);
    if "acessos" in f.columns {
      FillChainThird(f, "data_source", Text(DataSource), "data_extracao", Time(now), "acessos", Int(0), "empresa", Text(EmpresaDefault), i);
    }
    if "empresa" in f.columns {
      FillChainFourth(f, "data_source", Text(DataSource), "data_extracao", Time(now), "acessos", Int(0), "empresa", Text(EmpresaDefault), i);
    }
    FillChainOthers(f, "data_source", Text(DataSource), "data_extracao", Time(now), "acessos", Int(0), "empresa", Text(EmpresaDefault), i);
  }

  /**
   * The casting half of `_prepare_dataframe` on the filled frame, for
   * year, month and accesses columns named y, m and a: y and m cast to
   * integers (None when missing or not castable), then a coerced.
   */
  function CastColumns(eng: Engine, f: Frame, y: string, m: string, a: string): Option<Frame> {
    var withYear := CastIntColumn(eng, f, y);
    if withYear.None? then None
    else
      var withMonth := CastIntColumn(eng, withYear.value, m);
      if withMonth.None? || a !in withMonth.value.columns then None
      else
        var g := withMonth.value;
        Some(SetColumn(g, a, seq(|g.rows|, i requires 0 <= i < |g.rows| => CoercedAccesses(eng, GetOrNull(g.rows[i], a)))))
  }

  /** The casts succeed exactly when the three columns are present and every y and m value casts. */
  lemma CastColumnsSome(eng: Engine, f: Frame, y: string, m: string, a: string)
    requires y != m
    ensures CastColumns(eng, f, y, m, a).Some? <==>
      y in f.columns && m in f.columns && a in f.columns && CastsToInt(eng, f, y) && CastsToInt(eng, f, m)
    ensures CastColumns(eng, f, y, m, a).Some? ==> |CastColumns(eng, f, y, m, a).value.rows| == |f.rows|
  {
    var withYear := CastIntColumn(eng, f, y);
    if withYear.Some? {
      var w := withYear.value;
      assert CastsToInt(eng, w, m) <==> CastsToInt(eng, f, m) by {
        assert forall i :: 0 <= i < |f.rows| ==> GetOrNull(w.rows[i], m) == GetOrNull(f.rows[i], m);
      }
    }
  }

  /** Row i after the casts: y and m are the casts of their old values, a is coerced, the rest is as it was. */
  lemma CastColumnsRow(eng: Engine, f: Frame, y: string, m: string, a: string, i: nat)
    requires y != m && y != a && m != a
    requires CastColumns(eng, f, y, m, a).Some? && i < |f.rows|
    ensures var g, r := CastColumns(eng, f, y, m, a).value, f.rows[i];
      && |g.rows| == |f.rows|
      && Get(g.rows[i], a) == Some(CoercedAccesses(eng, GetOrNull(r, a)))
      && AsInt(eng, GetOrNull(r, y)).Some? && Get(g.rows[i], y) == Some(Int(AsInt(eng, GetOrNull(r, y)).value))
      && AsInt(eng, GetOrNull(r, m)).Some? && Get(g.rows[i], m) == Some(Int(AsInt(eng, GetOrNull(r, m)).value))
      && (forall k :: k != a && k != y && k != m ==> Get(g.rows[i], k) == Get(r, k))
  {
    var w := CastIntColumn(eng, f, y).value;
    var v := CastIntColumn(eng, w, m).value;
    assert GetOrNull(w.rows[i], m) == GetOrNull(f.rows[i], m);
    assert GetOrNull(v.rows[i], a) == GetOrNull(f.rows[i], a);
    assert Get(v.rows[i], y) == Get(w.rows[i], y);
  }

  /**
   * `_prepare_dataframe`: tag the rows, fill the missing accesses and
   * companies, and cast the year, month and accesses columns to integers.
   * None is the exception a missing column or an uncastable year or month raises.
   */
  function PrepareDataframe(eng: Engine, f: Frame, now: Timestamp): Option<Frame> {
    CastColumns(eng, Filled(f, now), "ano", "mes", "acessos")
  }

  /** Row i of the prepared frame against row i of the filled one: the three casts, and nothing else changed. */
  lemma PreparedRow(eng: Engine, f: Frame, now: Timestamp, i: nat)
    requires PrepareDataframe(eng, f, now).Some?
    requires i < |f.rows|
    ensures var g, r := PrepareDataframe(eng, f, now).value, Filled(f, now).rows[i];
      && |g.rows| == |f.rows|
      && Get(g.rows[i], "acessos") == Some(CoercedAccesses(eng, GetOrNull(r, "acessos")))
      && AsInt(eng, GetOrNull(r, "ano")).Some? && Get(g.rows[i], "ano") == Some(Int(AsInt(eng, GetOrNull(r, "ano")).value))
      && AsInt(eng, GetOrNull(r, "mes")).Some? && Get(g.rows[i], "mes") == Some(Int(AsInt(eng, GetOrNull(r, "mes")).value))
      && (forall k :: k != "acessos" && k != "ano" && k != "mes" ==> Get(g.rows[i], k) == Get(r, k))
  {
    DistinctNames();
    CastColumnsRow(eng, Filled(f, now), "ano", "mes", "acessos", i);
  }

  /** Preparation keeps every row and tags each with "ANATEL_BIGQUERY" and the extraction time. */
  lemma PrepareTags(eng: Engine, f: Frame, now: Timestamp, i: nat)
    requires PrepareDataframe(eng, f, now).Some?
    requires i < |f.rows|
    ensures var g := PrepareDataframe(eng, f, now).value;
      && |g.rows| == |f.rows|
      && Get(g.rows[i], "data_source") == Some(Text(DataSource))
      && Get(g.rows[i], "data_extracao") == Some(Time(now))
  {
    PreparedRow(eng, f, now, i);
    FilledRow(f, now, i);
  }

  /**
   * A missing number of accesses becomes 0, a non-numeric one becomes 0, and
   * any other is truncated toward zero to an integer.
   */
  lemma PrepareAccesses(eng: Engine, f: Frame, now: Timestamp, i: nat)
    requires PrepareDataframe(eng, f, now).Some?
    requires i < |f.rows|
    ensures var v, s := GetOrNull(f.rows[i], "acessos"), PrepareDataframe(eng, f, now).value.rows[i];
      && (v == Null ==> Get(s, "acessos") == Some(Int(0)))
      && (v != Null && ToNumeric(eng, v).None? ==> Get(s, "acessos") == Some(Int(0)))
      && (ToNumeric(eng, v).Some? ==> Get(s, "acessos") == Some(Int(Trunc(ToNumeric(eng, v).value))))
  {
    PreparedRow(eng, f, now, i);
    FilledRow(f, now, i);
    PrepareNeedsColumns(eng, f, now);
  }

  /** A missing company becomes "Não informado"; a present one is kept. */
  lemma PrepareCompany(eng: Engine, f: Frame, now: Timestamp, i: nat)
    requires PrepareDataframe(eng, f, now).Some?
    requires i < |f.rows|
    requires "empresa" in f.columns
    ensures var r, s := f.rows[i], PrepareDataframe(eng, f, now).value.rows[i];
      Get(s, "empresa") == Some(if GetOrNull(r, "empresa") == Null then Text(EmpresaDefault) else GetOrNull(r, "empresa"))
  {
    PreparedRow(eng, f, now, i);
    FilledRow(f, now, i);
  }

  /** Every column preparation does not name is untouched. */
  lemma PrepareUntouched(eng: Engine, f: Frame, now: Timestamp, i: nat)
    requires PrepareDataframe(eng, f, now).Some?
    requires i < |f.rows|
    ensures var r, s := f.rows[i], PrepareDataframe(eng, f, now).value.rows[i];
      forall k :: k != "data_source" && k != "data_extracao" && k != "acessos" && k != "empresa" && k != "ano" && k != "mes" ==>
        Get(s, k) == Get(r, k)
  {
    PreparedRow(eng, f, now, i);
    FilledRow(f, now, i);
  }

  /** Year and month are integers: the casts of the values the row had. */
  lemma PrepareCasts(eng: Engine, f: Frame, now: Timestamp, i: nat)
    requires PrepareDataframe(eng, f, now).Some?
    requires i < |f.rows|
    ensures var s := PrepareDataframe(eng, f, now).value.rows[i];
      && AsInt(eng, GetOrNull(f.rows[i], "ano")).Some? && AsInt(eng, GetOrNull(f.rows[i], "mes")).Some?
      && Get(s, "ano") == Some(Int(AsInt(eng, GetOrNull(f.rows[i], "ano")).value))
      && Get(s, "mes") == Some(Int(AsInt(eng, GetOrNull(f.rows[i], "mes")).value))
  {
    PreparedRow(eng, f, now, i);
    FilledRow(f, now, i);
  }

  /** A prepared frame had the year, month and accesses columns. */
  lemma PrepareNeedsColumns(eng: Engine, f: Frame, now: Timestamp)
    requires PrepareDataframe(eng, f, now).Some?
    ensures "ano" in f.columns && "mes" in f.columns && "acessos" in f.columns
  {
    CastColumnsSome(eng, Filled(f, now), "ano", "mes", "acessos");
  }

  /** Year and month keep their values through the filling step. */
  lemma FilledKeepsDate(f: Frame, now: Timestamp, c: string)
    requires c == "ano" || c == "mes"
    ensures (c in Filled(f, now).columns) == (c in f.columns)
    ensures forall i :: 0 <= i < |f.rows| ==> GetOrNull(Filled(f, now).rows[i], c) == GetOrNull(f.rows[i], c)
  {
    forall i | 0 <= i < |f.rows| ensures GetOrNull(Filled(f, now).rows[i], c) == GetOrNull(f.rows[i], c) {
      FilledRow(f, now, i);
    }
  }

  /** With the three columns present and every year and month castable, preparation succeeds. */
  lemma PrepareSucceedsWhen(eng: Engine, f: Frame, now: Timestamp)
    requires "ano" in f.columns && "mes" in f.columns && "acessos" in f.columns
    requires CastsToInt(eng, f, "ano") && CastsToInt(eng, f, "mes")
    ensures PrepareDataframe(eng, f, now).Some?
  {
    var filled := Filled(f, now);
    FilledKeepsDate(f, now, "ano");
    FilledKeepsDate(f, now, "mes");
    assert CastsToInt(eng, filled, "ano") && CastsToInt(eng, filled, "mes");
    CastColumnsSome(eng, filled, "ano", "mes", "acessos");
  }

  /**
   * Preparation raises exactly when the year, month or accesses column is
   * missing or a year or month does not cast to an integer.
   */
  lemma PrepareFails(eng: Engine, f: Frame, now: Timestamp)
    ensures PrepareDataframe(eng, f, now).None? <==>
      !("ano" in f.columns && "mes" in f.columns && "acessos" in f.columns
        && CastsToInt(eng, f, "ano") && CastsToInt(eng, f, "mes"))
  {
    if PrepareDataframe(eng, f, now).Some? {
      PrepareNeedsColumns(eng, f, now);
      forall i | 0 <= i < |f.rows|
        ensures AsInt(eng, GetOrNull(f.rows[i], "ano")).Some? && AsInt(eng, GetOrNull(f.rows[i], "mes")).Some?
      {
        PrepareCasts(eng, f, now, i);
      }
    } else if "ano" in f.columns && "mes" in f.columns && "acessos" in f.columns && CastsToInt(eng, f, "ano") && CastsToInt(eng, f, "mes") {
      PrepareSucceedsWhen(eng, f, now);
    }
  }

  // ------------------------------------------------------------ the pipeline

  /** What the outside world answers at each stage. */
  datatype Environment = Environment(
    /** `google.auth.default()` returns credentials */
    credentials: bool,
    bigQuery: Connection,
    postgres: Connection,
    /** the text of the query file; None when it is missing or unreadable */
    queryFile: Option<string>,
    /** the BigQuery result of a query; None when it raises */
    execute: string -> Option<Frame>,
    now: Timestamp,
    /** the chunk whose `to_sql` raises, if any */
    writeFailsAt: Option<nat>,
    /** whether CREATE INDEX succeeds */
    indexesSucceed: bool)

  /** The default destination table. */
  const DefaultTable := "cobertura_fibra"

  /**
   * The first stage of `run` that fails, in order; None when every stage up
   * to the insert succeeds.  Index creation never counts as a failure.
   */
  function FirstFailure(eng: Engine, env: Environment, chunkSize: int): Option<Stage> {
    if !env.credentials then Some(ValidateCredentials)
    else if env.bigQuery != Connected then Some(ConnectBigQuery)
    else if env.postgres != Connected then Some(ConnectPostgres)
    else if env.queryFile.None? || env.queryFile.value == "" then Some(LoadQuery)
    else if env.execute(env.queryFile.value).None? || EmptyFrame(env.execute(env.queryFile.value).value) then Some(ExecuteQuery)
    else
      var prepared := PrepareDataframe(eng, env.execute(env.queryFile.value).value, env.now);
      if prepared.None? then Some(PrepareData)
      else if ValidateTableNameAsWritten(DefaultTable).Rejected? || !InsertSucceeds(|prepared.value.rows|, chunkSize, env.writeFailsAt) then Some(InsertRows)
      else None
  }

  /** The default table name passes the check as written, and the corrected one. */
  lemma DefaultTableAccepted()
    ensures ValidateTableName(DefaultTable) == Accepted(DefaultTable)
    ensures ValidateTableNameAsWritten(DefaultTable) == Accepted(DefaultTable)
  {
    var s := DefaultTable;
    forall i | 0 <= i < |s| ensures IdentChar(s[i]) {
      assert s[i] in "cobertura_fibr";
    }
    AsWrittenAgreesWithoutNewline(s);
  }

  /** The rows `run` loads, when it gets as far as loading. */
  function PreparedRows(eng: Engine, env: Environment): seq<Record>
    requires env.queryFile.Some? && env.execute(env.queryFile.value).Some?
    requires PrepareDataframe(eng, env.execute(env.queryFile.value).value, env.now).Some?
  {
    PrepareDataframe(eng, env.execute(env.queryFile.value).value, env.now).value.rows
  }

  /** An empty query result stops the pipeline at the query stage, before anything is loaded. */
  lemma EmptyResultStops(eng: Engine, env: Environment, chunkSize: int)
    requires env.credentials && env.bigQuery == Connected && env.postgres == Connected
    requires env.queryFile.Some? && env.queryFile.value != ""
    requires env.execute(env.queryFile.value).Some? && |env.execute(env.queryFile.value).value.rows| == 0
    ensures FirstFailure(eng, env, chunkSize) == Some(ExecuteQuery)
  {
  }

  /** The outcome of `run` does not depend on whether index creation succeeds. */
  lemma IndexesDoNotMatter(eng: Engine, env: Environment, chunkSize: int, b: bool)
    ensures FirstFailure(eng, env.(indexesSucceed := b), chunkSize) == FirstFailure(eng, env, chunkSize)
  {
  }

  class AnatelBigQueryEtl {
    const chunkSize: int
    /** `self.bq_client is not None` */
    var bqClient: bool
    /** `self.pg_engine is not None` */
    var pgEngine: bool
    /** the destination table `geo.cobertura_fibra` */
    const table: Chunks.Table

    constructor (chunkSize: int, table: Chunks.Table)
      ensures this.chunkSize == chunkSize && this.table == table
      ensures !bqClient && !pgEngine
    {
      this.chunkSize := chunkSize;
      this.table := table;
      bqClient := false;
      pgEngine := false;
    }

    /**
     * `_insert_to_postgres`: a name `_validate_table_name` rejects, as
     * written, returns False before anything is written; otherwise the rows
     * go through the chunk loop.
     */
    method InsertToPostgres(rows: seq<Record>, tableName: string, failAt: Option<nat>) returns (ok: bool)
      modifies table
      ensures ValidateTableNameAsWritten(tableName).Rejected? ==> !ok && table.rows == old(table.rows) && table.writes == old(table.writes)
      ensures ValidateTableNameAsWritten(tableName).Accepted? && chunkSize <= 0 ==>
        (ok <==> chunkSize < 0) && table.rows == old(table.rows) && table.writes == old(table.writes)
      ensures ValidateTableNameAsWritten(tableName).Accepted? && chunkSize > 0 ==>
        var k := Chunks.Succeeded(Chunks.TotalChunks(|rows|, chunkSize), failAt);
        && (ok <==> k == Chunks.TotalChunks(|rows|, chunkSize))
        && table.writes == old(table.writes) + Chunks.Modes(k)
        && table.rows == (if k == 0 then old(table.rows) else rows[..Chunks.Sql.Min(k * chunkSize, |rows|)])
    {
      var validated := ValidateTableNameAsWritten(tableName);
      if validated.Rejected? {
        return false;
      }
      ok := Chunks.InsertInChunks(table, rows, chunkSize, failAt);
    }

    /** The insert stage of `run` in the terms its caller needs: all the rows, or False. */
    method LoadPrepared(rows: seq<Record>, failAt: Option<nat>) returns (ok: bool)
      modifies table
      ensures ok <==> ValidateTableNameAsWritten(DefaultTable).Accepted? && InsertSucceeds(|rows|, chunkSize, failAt)
      ensures ok && chunkSize > 0 ==> table.rows == if |rows| == 0 then old(table.rows) else rows
      ensures ok && chunkSize < 0 ==> table.rows == old(table.rows)
    {
      DefaultTableAccepted();
      ok := InsertToPostgres(rows, DefaultTable, failAt);
      if ok && chunkSize > 0 && |rows| > 0 {
        Chunks.AllChunksReachEnd(|rows|, chunkSize);
        Chunks.StartBelowEnd(|rows|, chunkSize, 0);
        assert rows[..|rows|] == rows;
      }
    }

    /**
     * `run`: the stages in order, returning False at the first one that
     * fails and skipping the rest; index creation runs last and its result is
     * ignored.
     */
    method Run(eng: Engine, env: Environment) returns (ok: bool)
      modifies this, table
      ensures ok <==> FirstFailure(eng, env, chunkSize) == None
      ensures bqClient == (old(bqClient) || (env.credentials && env.bigQuery != Refused))
      ensures pgEngine == (old(pgEngine) || (env.credentials && env.bigQuery == Connected && env.postgres != Refused))
      ensures ok && chunkSize > 0 ==> table.rows == PreparedRows(eng, env)
      ensures ok && chunkSize < 0 ==> table.rows == old(table.rows)
      ensures FirstFailure(eng, env, chunkSize).Some? && FirstFailure(eng, env, chunkSize).value != InsertRows ==>
        table.rows == old(table.rows) && table.writes == old(table.writes)
    {
      if !env.credentials {
        assert FirstFailure(eng, env, chunkSize) == Some(ValidateCredentials);
        return false;
      }
      if env.bigQuery != Refused {
        bqClient := true;
      }
      if env.bigQuery != Connected {
        assert FirstFailure(eng, env, chunkSize) == Some(ConnectBigQuery);
        return false;
      }
      if env.postgres != Refused {
        pgEngine := true;
      }
      if env.postgres != Connected {
        assert FirstFailure(eng, env, chunkSize) == Some(ConnectPostgres);
        return false;
      }
      var query := env.queryFile;
      if query.None? || query.value == "" {
        assert FirstFailure(eng, env, chunkSize) == Some(LoadQuery);
        return false;
      }
      var df := env.execute(query.value);
      if df.None? || EmptyFrame(df.value) {
        assert FirstFailure(eng, env, chunkSize) == Some(ExecuteQuery);
        return false;
      }
      var prepared := PrepareDataframe(eng, df.value, env.now);
      if prepared.None? {
        assert FirstFailure(eng, env, chunkSize) == Some(PrepareData);
        return false;
      }
      DefaultTableAccepted();
      var inserted := LoadPrepared(prepared.value.rows, env.writeFailsAt);
      if !inserted {
        assert FirstFailure(eng, env, chunkSize) == Some(InsertRows);
        return false;
      }
      return true;
    }
  }
}
