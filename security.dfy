/** Input validation and output scrubbing (app/core/security.py). */
module Security {
  import opened Wrappers
  import opened Values
  import opened Foreign
  import opened Text

  // ---------------------------------------------------------------- bbox

  /** `min_lon, min_lat, max_lon, max_lat = map(float, bbox.split(","))`; None when that raises ValueError. */
  function ParseBbox(eng: Engine, bboxStr: string): (r: Option<Box>)
    ensures r.Some? ==> |Split(bboxStr, ',')| == 4
  {
    var parts := Split(bboxStr, ',');
    if |parts| != 4 then None
    else
      var a, b, c, d := eng.parseFloat(parts[0]), eng.parseFloat(parts[1]), eng.parseFloat(parts[2]), eng.parseFloat(parts[3]);
      if a.Some? && b.Some? && c.Some? && d.Some? then Some(Box(a.value, b.value, c.value, d.value)) else None
  }

  predicate LonInRange(x: real) { -180.0 <= x <= 180.0 }
  predicate LatInRange(y: real) { -90.0 <= y <= 90.0 }

  /** The largest accepted extent along either axis, in degrees. */
  const MaxSpan: real := 10.0

  /** `validate_bbox`, check by check in the order the source makes them. */
  function ValidateBbox(eng: Engine, bboxStr: string): bool {
    if bboxStr == "" then false
    else
      var parts := Split(bboxStr, ',');
      if |parts| != 4 then false
      else
        var coords := seq(4, i requires 0 <= i < 4 => eng.parseFloat(parts[i]));
        if !(coords[0].Some? && coords[1].Some? && coords[2].Some? && coords[3].Some?) then false
        else
          var minLon, minLat, maxLon, maxLat := coords[0].value, coords[1].value, coords[2].value, coords[3].value;
          if !LonInRange(minLon) then false
          else if !LatInRange(minLat) then false
          else if !LonInRange(maxLon) then false
          else if !LatInRange(maxLat) then false
          else if minLon >= maxLon || minLat >= maxLat then false
          else if maxLon - minLon > MaxSpan || maxLat - minLat > MaxSpan then false
          else true
  }

  /** What an accepted box satisfies: both corners on the globe, strictly ordered, at most 10 degrees each way. */
  predicate AcceptableBox(b: Box) {
    && LonInRange(b.minLon) && LatInRange(b.minLat) && LonInRange(b.maxLon) && LatInRange(b.maxLat)
    && b.minLon < b.maxLon && b.minLat < b.maxLat
    && b.maxLon - b.minLon <= MaxSpan && b.maxLat - b.minLat <= MaxSpan
  }

  /** `validate_bbox` accepts exactly the strings that parse as four floats forming an acceptable box. */
  lemma ValidateBboxMeaning(eng: Engine, bboxStr: string)
    ensures ValidateBbox(eng, bboxStr) <==> ParseBbox(eng, bboxStr).Some? && AcceptableBox(ParseBbox(eng, bboxStr).value)
  {
    if bboxStr == "" {
      assert Split(bboxStr, ',') == [[]];
    }
  }

  /** The rejections by form: the empty string, a part count other than four, an unparsable part. */
  lemma ValidateBboxRejects(eng: Engine, bboxStr: string)
    ensures bboxStr == "" ==> !ValidateBbox(eng, bboxStr)
    ensures |Split(bboxStr, ',')| != 4 ==> !ValidateBbox(eng, bboxStr)
    ensures (exists i :: 0 <= i < |Split(bboxStr, ',')| && eng.parseFloat(Split(bboxStr, ',')[i]).None?)
            ==> !ValidateBbox(eng, bboxStr)
  {
    ValidateBboxMeaning(eng, bboxStr);
  }

  /** A span of exactly ten degrees is accepted; anything wider is not. */
  lemma SpanLimitInclusive(eng: Engine, bboxStr: string, wider: string, slack: real)
    requires ParseBbox(eng, bboxStr) == Some(Box(-50.0, -30.0, -40.0, -20.0))
    requires slack > 0.0 && ParseBbox(eng, wider) == Some(Box(-50.0, -30.0, -40.0 + slack, -20.0))
    ensures ValidateBbox(eng, bboxStr)
    ensures !ValidateBbox(eng, wider)
  {
    ValidateBboxMeaning(eng, bboxStr);
    ValidateBboxMeaning(eng, wider);
  }

  /** A string `validate_bbox` accepts also unpacks into four floats. */
  lemma ValidatedBboxParses(eng: Engine, bboxStr: string)
    requires ValidateBbox(eng, bboxStr)
    ensures ParseBbox(eng, bboxStr).Some?
  {
    ValidateBboxMeaning(eng, bboxStr);
  }

  // ---------------------------------------------------------------- sanitize_sql_input

  const DangerousPatterns: seq<string> := [";", "--", "/*", "*/", "xp_", "sp_", "EXEC", "EXECUTE"]

  const MaxInputLength := 1000

  predicate NonEmptyPatterns(pats: seq<string>) {
    forall i :: 0 <= i < |pats| ==> pats[i] != []
  }

  /** Remove every occurrence of each pattern in turn, first pattern first. */
  function RemovePatterns(s: string, pats: seq<string>): string
    requires NonEmptyPatterns(pats)
    decreases |pats|
  {
    if pats == [] then s
    else ReplaceAll(RemovePatterns(s, pats[..|pats| - 1]), pats[|pats| - 1], "")
  }

  /** The string branch of `sanitize_sql_input`. */
  function SanitizedText(s: string): string {
    SliceTo(RemovePatterns(s, DangerousPatterns), MaxInputLength)
  }

  /** `sanitize_sql_input`: None stays None, a string loses the patterns and is cut to 1000 characters, anything else is kept. */
  method SanitizeSqlInput(value: Value) returns (r: Value)
    ensures value.Null? ==> r == Null
    ensures !value.Text? ==> r == value
    ensures value.Text? ==> r == Text(SanitizedText(value.s))
    ensures value.Text? ==> |r.s| <= MaxInputLength && ';' !in r.s
  {
    if value.Null? {
      return Null;
    }
    if value.Text? {
      var sanitized := value.s;
      for k := 0 to |DangerousPatterns|
        invariant sanitized == RemovePatterns(value.s, DangerousPatterns[..k])
      {
        assert DangerousPatterns[..k + 1][..k] == DangerousPatterns[..k];
        sanitized := ReplaceAll(sanitized, DangerousPatterns[k], "");
      }
      assert DangerousPatterns[..|DangerousPatterns|] == DangerousPatterns;
      SemicolonRemoved(value.s);
      return Text(SliceTo(sanitized, MaxInputLength));
    }
    return value;
  }

  /** A character absent before the removals stays absent. */
  lemma {:induction false} RemovePatternsKeepsAbsentChar(s: string, pats: seq<string>, c: char)
    requires NonEmptyPatterns(pats)
    requires c !in s
    ensures c !in RemovePatterns(s, pats)
    decreases |pats|
  {
    if pats != [] {
      RemovePatternsKeepsAbsentChar(s, pats[..|pats| - 1], c);
      if c in RemovePatterns(s, pats) {
        RemoveAllKeepsChars(RemovePatterns(s, pats[..|pats| - 1]), pats[|pats| - 1], c);
      }
    }
  }

  /** ';' is the first pattern, and later removals cannot bring it back. */
  lemma SemicolonRemoved(s: string)
    ensures ';' !in SanitizedText(s)
    ensures |SanitizedText(s)| <= MaxInputLength
  {
    var afterFirst := RemovePatterns(s, DangerousPatterns[..1]);
    assert DangerousPatterns[..1][..0] == [];
    RemoveCharRemovesAll(s, ';');
    var rest := DangerousPatterns[1..];
    RemovePatternsSplit(s, DangerousPatterns[..1], rest);
    assert DangerousPatterns[..1] + rest == DangerousPatterns;
    RemovePatternsKeepsAbsentChar(afterFirst, rest, ';');
  }

  /** Removing a list of patterns is removing its first part, then the rest. */
  lemma {:induction false} RemovePatternsSplit(s: string, a: seq<string>, b: seq<string>)
    requires NonEmptyPatterns(a) && NonEmptyPatterns(b)
    ensures NonEmptyPatterns(a + b)
    ensures RemovePatterns(s, a + b) == RemovePatterns(RemovePatterns(s, a), b)
    decreases |b|
  {
    if b == [] {
      assert a + b == a;
    } else {
      var b' := b[..|b| - 1];
      assert (a + b)[..|a + b| - 1] == a + b';
      RemovePatternsSplit(s, a, b');
    }
  }

  /** Removing patterns never lengthens the text, and leaves it unchanged only when none of them occurs. */
  lemma {:induction false} RemovePatternsShrinks(s: string, pats: seq<string>)
    requires NonEmptyPatterns(pats)
    ensures |RemovePatterns(s, pats)| <= |s|
    ensures |RemovePatterns(s, pats)| == |s| ==>
      RemovePatterns(s, pats) == s && forall i :: 0 <= i < |pats| ==> !IsSubstring(pats[i], s)
    decreases |pats|
  {
    if pats != [] {
      var init := pats[..|pats| - 1];
      var before := RemovePatterns(s, init);
      RemovePatternsShrinks(s, init);
      RemoveAllShrinks(before, pats[|pats| - 1]);
      if |RemovePatterns(s, pats)| == |s| {
        forall i | 0 <= i < |pats| ensures !IsSubstring(pats[i], s) {
          if i < |pats| - 1 {
            assert pats[i] == init[i];
          }
        }
      }
    }
  }

  /** One removal pass leaves "--", which it is meant to strip: "xp_" is removed after "--" was looked for. */
  lemma CommentSurvives()
    ensures SanitizedText("-xp_-") == "--"
    ensures IsSubstring("--", SanitizedText("-xp_-"))
  {
    var s := "-xp_-";
    var pats := DangerousPatterns;
    FirstFourKeep();
    XpRemoved();
    NoStartCharKeeps("--", "sp_");
    NoStartCharKeeps("--", "EXEC");
    NoStartCharKeeps("--", "EXECUTE");
    var r4 := RemovePatterns(s, pats[..4]);
    assert pats[..5][..4] == pats[..4];
    assert RemovePatterns(s, pats[..5]) == ReplaceAll(r4, "xp_", "");
    assert pats[..6][..5] == pats[..5];
    assert RemovePatterns(s, pats[..6]) == "--";
    assert pats[..7][..6] == pats[..6];
    assert RemovePatterns(s, pats[..7]) == "--";
    assert pats[..7] == pats[..|pats| - 1];
    assert RemovePatterns(s, pats) == "--";
    assert "--" <= "--";
  }

  lemma FirstFourKeep()
    ensures RemovePatterns("-xp_-", DangerousPatterns[..4]) == "-xp_-"
  {
    var s := "-xp_-";
    var pats := [";", "--", "/*", "*/"];
    assert DangerousPatterns[..4] == pats;
    NoStartCharKeeps(s, ";");
    DashesAbsent();
    AbsentKeeps(s, "--");
    NoStartCharKeeps(s, "/*");
    NoStartCharKeeps(s, "*/");
    forall i | 0 <= i < |pats| ensures pats[i] != [] && ReplaceAll(s, pats[i], "") == s {
      if i == 0 {
        assert pats[i] == ";";
      } else if i == 1 {
        assert pats[i] == "--";
      } else if i == 2 {
        assert pats[i] == "/*";
      } else {
        assert pats[i] == "*/";
      }
    }
    NonePresentKeeps(s, pats);
  }

  /** When no pattern changes s, removing them all leaves s as it was. */
  lemma {:induction false} NonePresentKeeps(s: string, pats: seq<string>)
    requires NonEmptyPatterns(pats)
    requires forall i :: 0 <= i < |pats| ==> ReplaceAll(s, pats[i], "") == s
    ensures RemovePatterns(s, pats) == s
    decreases |pats|
  {
    if pats != [] {
      NonePresentKeeps(s, pats[..|pats| - 1]);
    }
  }

  /** A pattern that does not occur is not replaced. */
  lemma {:induction false} AbsentKeeps(s: string, p: string)
    requires p != []
    requires !IsSubstring(p, s)
    ensures ReplaceAll(s, p, "") == s
    decreases |s|
  {
    if |s| >= |p| {
      AbsentKeeps(s[1..], p);
    }
  }

  lemma DashesAbsent()
    ensures !IsSubstring("--", "-xp_-")
  {
    var s := "-xp_-";
    assert s[1..] == "xp_-" && s[1..][1..] == "p_-" && s[1..][1..][1..] == "_-";
    ShortNotSubstring("--", "-");
    assert "_-"[0] != "--"[0];
    assert "_-"[1..] == "-" && !("--" <= "_-");
    assert !IsSubstring("--", "_-");
    assert !IsSubstring("--", "p_-");
    assert !IsSubstring("--", "xp_-");
  }

  lemma XpRemoved()
    ensures ReplaceAll("-xp_-", "xp_", "") == "--"
  {
    var s := "-xp_-";
    assert !("xp_" <= s);
    assert s[1..] == "xp_-";
    assert "xp_" <= s[1..];
    assert s[1..][3..] == "-";
  }

  /** A pattern whose first character never occurs in s is not found in s. */
  lemma {:induction false} NoStartCharKeeps(s: string, p: string)
    requires p != []
    requires forall i :: 0 <= i < |s| ==> s[i] != p[0]
    ensures ReplaceAll(s, p, "") == s
    decreases |s|
  {
    if |s| >= |p| {
      assert s[0] != p[0];
      NoStartCharKeeps(s[1..], p);
    }
  }

  /**
   * The evident intent of `sanitize_sql_input`: repeat the removal pass until
   * it changes nothing, then cut to 1000 characters. None of the patterns is
   * left in the result.
   */
  method SanitizeSqlInputToFixpoint(value: Value) returns (r: Value)
    ensures !value.Text? ==> r == value
    ensures value.Text? ==> r.Text? && |r.s| <= MaxInputLength
    ensures value.Text? ==> forall i :: 0 <= i < |DangerousPatterns| ==> !IsSubstring(DangerousPatterns[i], r.s)
  {
    if !value.Text? {
      return value;
    }
    var sanitized := value.s;
    while true
      decreases |sanitized|
    {
      var next := RemovePatterns(sanitized, DangerousPatterns);
      RemovePatternsShrinks(sanitized, DangerousPatterns);
      if next == sanitized {
        break;
      }
      sanitized := next;
    }
    RemovePatternsShrinks(sanitized, DangerousPatterns);
    forall i | 0 <= i < |DangerousPatterns|
      ensures !IsSubstring(DangerousPatterns[i], SliceTo(sanitized, MaxInputLength))
    {
      SliceToKeepsAbsence(DangerousPatterns[i], sanitized, MaxInputLength);
    }
    r := Text(SliceTo(sanitized, MaxInputLength));
  }

  // ---------------------------------------------------------------- mask_sensitive_data

  /** `mask_sensitive_data(data, show_chars)` with Python's slicing. */
  function MaskSensitiveData(data: string, showChars: int): string {
    if data == [] || |data| <= showChars * 2 then "***"
    else SliceTo(data, showChars) + "..." + SliceFrom(data, -showChars)
  }

  /** For a positive count: the first and last show_chars characters around "...", or "***" for short input. */
  lemma MaskShape(data: string, showChars: int)
    requires showChars >= 1
    ensures |data| <= 2 * showChars ==> MaskSensitiveData(data, showChars) == "***"
    ensures |data| > 2 * showChars ==>
      && MaskSensitiveData(data, showChars) == data[..showChars] + "..." + data[|data| - showChars..]
      && |MaskSensitiveData(data, showChars)| == 2 * showChars + 3
  {
  }

  /** With show_chars 0, `data[-0:]` is the whole string, so the mask shows all of it. */
  lemma MaskZeroRevealsAll(data: string)
    requires data != []
    ensures MaskSensitiveData(data, 0) == "..." + data
  {
  }

  /** The mask as intended: the last show_chars characters, none when show_chars is 0. */
  function MaskSensitiveDataFixed(data: string, showChars: nat): string {
    if data == [] || |data| <= showChars * 2 then "***"
    else data[..showChars] + "..." + (if showChars > 0 then data[|data| - showChars..] else "")
  }

  /** The intended mask never shows more than 2 * show_chars characters of the data. */
  lemma MaskFixedRevealsAtMost(data: string, showChars: nat)
    ensures |data| > 2 * showChars ==>
      |MaskSensitiveDataFixed(data, showChars)| == 2 * showChars + 3
      && MaskSensitiveDataFixed(data, showChars)[showChars..showChars + 3] == "..."
    ensures |data| <= 2 * showChars ==> MaskSensitiveDataFixed(data, showChars) == "***"
    ensures showChars >= 1 ==> MaskSensitiveDataFixed(data, showChars) == MaskSensitiveData(data, showChars)
  {
  }

  // ---------------------------------------------------------------- round_coordinates

  /** `round_coordinates`: lists recursively, numbers rounded, other leaves kept. */
  function RoundCoordinates(eng: Engine, coords: Json): Json
    decreases coords
  {
    match coords
    case JArray(items) => JArray(seq(|items|, i requires 0 <= i < |items| => RoundCoordinates(eng, items[i])))
    case JNum(x) => JNum(eng.round(x))
    case JOther(_) => coords
  }

  /** Same nesting and list lengths; numbers where there were numbers; other leaves equal. */
  predicate SameShape(a: Json, b: Json)
    decreases a
  {
    match a
    case JArray(xs) => b.JArray? && |b.items| == |xs| && forall i :: 0 <= i < |xs| ==> SameShape(xs[i], b.items[i])
    case JNum(_) => b.JNum?
    case JOther(_) => b == a
  }

  lemma {:induction false} RoundCoordinatesShape(eng: Engine, coords: Json)
    ensures SameShape(coords, RoundCoordinates(eng, coords))
    decreases coords
  {
    match coords {
      case JArray(items) =>
        forall i | 0 <= i < |items| ensures SameShape(items[i], RoundCoordinates(eng, items[i])) {
          RoundCoordinatesShape(eng, items[i]);
        }
      case JNum(_) =>
      case JOther(_) =>
    }
  }

  ghost predicate RoundIdempotent(eng: Engine) {
    forall x :: eng.round(eng.round(x)) == eng.round(x)
  }

  lemma {:induction false} RoundCoordinatesIdempotent(eng: Engine, coords: Json)
    requires RoundIdempotent(eng)
    ensures RoundCoordinates(eng, RoundCoordinates(eng, coords)) == RoundCoordinates(eng, coords)
    decreases coords
  {
    match coords {
      case JArray(items) =>
        var once := seq(|items|, i requires 0 <= i < |items| => RoundCoordinates(eng, items[i]));
        forall i | 0 <= i < |items| ensures RoundCoordinates(eng, once[i]) == once[i] {
          RoundCoordinatesIdempotent(eng, items[i]);
        }
      case JNum(x) =>
      case JOther(_) =>
    }
  }

  // ---------------------------------------------------------------- sanitize_geojson_output

  /** A key of a JSON object: missing, present with null, or present with a value. */
  datatype Member<T> = Absent | JsonNull | Present(value: T)

  /** The keys of a feature object that `sanitize_geojson_output` reads. */
  datatype DocFeature = DocFeature(properties: Member<Record>, geometry: Member<GeoJsonGeometry>)

  const SensitiveFields: seq<string> :=
    ["password", "senha", "token", "secret", "api_key", "created_at", "updated_at", "data_source"]

  /** `for field in sensitive_fields: properties.pop(field, None)` */
  function StripSensitive(props: Record, fields: seq<string>): Record
    decreases |fields|
  {
    if fields == [] then props
    else Without(StripSensitive(props, fields[..|fields| - 1]), fields[|fields| - 1])
  }

  /** Whether processing the feature raises: null properties, or null geometry after the pops. */
  predicate FeatureRaises(f: DocFeature) {
    f.properties.JsonNull? || (f.properties.Present? && f.geometry.JsonNull?)
  }

  /** The feature after its turn in the loop, including the partial update left when it raises. */
  function SanitizedFeature(eng: Engine, f: DocFeature): DocFeature {
    if !f.properties.Present? then f
    else
      var stripped := f.(properties := Present(StripSensitive(f.properties.value, SensitiveFields)));
      if stripped.geometry.Present? && stripped.geometry.value.coordinates.Some? then
        stripped.(geometry := Present(stripped.geometry.value.(coordinates := Some(RoundCoordinates(eng, stripped.geometry.value.coordinates.value)))))
      else stripped
  }

  /** After the pops none of the fields is a key, and every other key keeps its value. */
  lemma {:induction false} StripSensitiveContents(props: Record, fields: seq<string>)
    ensures forall i :: 0 <= i < |fields| ==> fields[i] !in Names(StripSensitive(props, fields))
    ensures forall k :: k !in fields ==> Get(StripSensitive(props, fields), k) == Get(props, k)
    ensures forall k :: k !in fields ==> (k in Names(StripSensitive(props, fields)) <==> k in Names(props))
    decreases |fields|
  {
    if fields != [] {
      var init := fields[..|fields| - 1];
      var last := fields[|fields| - 1];
      var before := StripSensitive(props, init);
      StripSensitiveContents(props, init);
      WithoutNames(before, last);
      forall k | k != last ensures Get(Without(before, last), k) == Get(before, k) {
        WithoutGet(before, last, k);
      }
      forall i | 0 <= i < |fields| ensures fields[i] !in Names(StripSensitive(props, fields)) {
        if i < |fields| - 1 {
          assert fields[i] == init[i];
        }
      }
      forall k | k !in fields ensures k !in init {
        assert forall j :: 0 <= j < |init| ==> init[j] == fields[j];
      }
    }
  }

  /** Keys that were already popped are not popped again: stripping twice is stripping once. */
  lemma {:induction false} StripSensitiveIdempotent(props: Record, fields: seq<string>)
    ensures StripSensitive(StripSensitive(props, fields), fields) == StripSensitive(props, fields)
  {
    StripSensitiveContents(props, fields);
    StripSensitiveNoOp(StripSensitive(props, fields), fields);
  }

  lemma {:induction false} StripSensitiveNoOp(props: Record, fields: seq<string>)
    requires forall i :: 0 <= i < |fields| ==> fields[i] !in Names(props)
    ensures StripSensitive(props, fields) == props
    decreases |fields|
  {
    if fields != [] {
      StripSensitiveNoOp(props, fields[..|fields| - 1]);
      WithoutAbsent(props, fields[|fields| - 1]);
    }
  }

  /**
   * A sanitized feature carries none of the sensitive keys, keeps every other
   * key's value, leaves features without properties untouched, and sanitizing
   * again changes nothing when rounding is idempotent.
   */
  lemma SanitizedFeatureContents(eng: Engine, f: DocFeature)
    ensures f.properties.Present? ==>
      var p := SanitizedFeature(eng, f).properties.value;
      && (forall i :: 0 <= i < |SensitiveFields| ==> SensitiveFields[i] !in Names(p))
      && (forall k :: k !in SensitiveFields ==> Get(p, k) == Get(f.properties.value, k))
    ensures !f.properties.Present? ==> SanitizedFeature(eng, f) == f
    ensures SanitizedFeature(eng, SanitizedFeature(eng, f)).properties == SanitizedFeature(eng, f).properties
    ensures RoundIdempotent(eng) ==> SanitizedFeature(eng, SanitizedFeature(eng, f)) == SanitizedFeature(eng, f)
  {
    if f.properties.Present? {
      StripSensitiveContents(f.properties.value, SensitiveFields);
      StripSensitiveIdempotent(f.properties.value, SensitiveFields);
      var g := SanitizedFeature(eng, f).geometry;
      if RoundIdempotent(eng) && g.Present? && g.value.coordinates.Some? {
        RoundCoordinatesIdempotent(eng, f.geometry.value.coordinates.value);
      }
    }
  }

  /**
   * `sanitize_geojson_output` on the "features" list, each feature updated in
   * place. On return without error every feature is sanitized; when feature k
   * raises, those before it are sanitized, it holds its partial update, and
   * those after it are untouched. A document without "features" is untouched.
   */
  method SanitizeGeojsonOutput(eng: Engine, features: Option<array<DocFeature>>) returns (raisedAt: Option<nat>)
    modifies if features.Some? then {features.value} else {}
    ensures features.None? ==> raisedAt.None?
    ensures features.Some? ==> var a := features.value;
      && (raisedAt.None? ==> forall i :: 0 <= i < a.Length ==>
            !FeatureRaises(old(a[i])) && a[i] == SanitizedFeature(eng, old(a[i])))
      && (raisedAt.Some? ==> var k := raisedAt.value;
            && k < a.Length && FeatureRaises(old(a[k]))
            && (forall i :: 0 <= i < k ==> !FeatureRaises(old(a[i])) && a[i] == SanitizedFeature(eng, old(a[i])))
            && a[k] == SanitizedFeature(eng, old(a[k]))
            && (forall i :: k < i < a.Length ==> a[i] == old(a[i])))
  {
    if features.None? {
      return None;
    }
    var a := features.value;
    for i := 0 to a.Length
      invariant forall j :: 0 <= j < i ==> !FeatureRaises(old(a[j])) && a[j] == SanitizedFeature(eng, old(a[j]))
      invariant forall j :: i <= j < a.Length ==> a[j] == old(a[j])
    {
      var feature := a[i];
      if feature.properties.Absent? {
        continue;
      }
      if feature.properties.JsonNull? {
        return Some(i);
      }
      var properties := feature.properties.value;
      for f := 0 to |SensitiveFields|
        invariant properties == StripSensitive(feature.properties.value, SensitiveFields[..f])
      {
        assert SensitiveFields[..f + 1][..f] == SensitiveFields[..f];
        properties := Without(properties, SensitiveFields[f]);
      }
      assert SensitiveFields[..|SensitiveFields|] == SensitiveFields;
      a[i] := feature.(properties := Present(properties));
      if feature.geometry.JsonNull? {
        return Some(i);
      }
      if feature.geometry.Present? && feature.geometry.value.coordinates.Some? {
        var coords := feature.geometry.value.coordinates.value;
        a[i] := a[i].(geometry := Present(feature.geometry.value.(coordinates := Some(RoundCoordinates(eng, coords)))));
      }
    }
    return None;
  }
}
