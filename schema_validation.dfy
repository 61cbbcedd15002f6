/**
 * The requirement-file validator: the schema sanitiser that drops the `allOf` items an Ajv `$data`
 * reference depends on, the extra business rule tying `meta.run_id` to `id`, the choice of files
 * to validate, the rendering of error paths, and the overall exit decision. The JSON Schema
 * engine itself is a parameter.
 */
module SchemaValidation {
  import opened Wrappers
  import opened Text
  import opened Json
  import OrderedMap

  /** A `{"const": {"$data": ...}}` entry: `const` whose value is a mapping holding `$data`. */
  predicate IsDataConst(e: (string, Value)) {
    e.0 == "const" && e.1.Object? && HasKey(e.1.fields, "$data")
  }

  /** `contains_data_const`: some mapping, at any depth, has a `$data` const entry. */
  predicate ContainsDataConst(v: Value)
    decreases v
  {
    if v.Object? then
      exists i :: 0 <= i < |v.fields| && (IsDataConst(v.fields[i]) || ContainsDataConst(v.fields[i].1))
    else if v.List? then
      exists i :: 0 <= i < |v.items| && ContainsDataConst(v.items[i])
    else false
  }

  /** The value reached by `path` is a mapping with a `$data` const entry of its own. */
  ghost predicate DataConstAt(v: Value, path: seq<Pos>) {
    var w := Subterm(v, path);
    w.Some? && w.value.Object? && exists i :: 0 <= i < |w.value.fields| && IsDataConst(w.value.fields[i])
  }

  lemma SubtermCons(v: Value, p: Pos, rest: seq<Pos>)
    ensures v.Object? && p.Field? && p.i < |v.fields| ==> Subterm(v, [p] + rest) == Subterm(v.fields[p.i].1, rest)
    ensures v.List? && p.Elem? && p.i < |v.items| ==> Subterm(v, [p] + rest) == Subterm(v.items[p.i], rest)
    ensures !(v.Object? && p.Field? && p.i < |v.fields|) && !(v.List? && p.Elem? && p.i < |v.items|) ==>
      Subterm(v, [p] + rest) == None
  {
    assert ([p] + rest)[0] == p && ([p] + rest)[1..] == rest;
  }

  /** What `contains_data_const` finds is a `$data` const at some position in the value. */
  lemma {:induction false} ContainsDataConstSound(v: Value)
    requires ContainsDataConst(v)
    ensures exists path :: DataConstAt(v, path)
    decreases v
  {
    if v.Object? {
      var fs := v.fields;
      var i :| 0 <= i < |fs| && (IsDataConst(fs[i]) || ContainsDataConst(fs[i].1));
      if IsDataConst(fs[i]) {
        assert DataConstAt(v, []);
      } else {
        ContainsDataConstSound(fs[i].1);
        var p :| DataConstAt(fs[i].1, p);
        SubtermCons(v, Field(i), p);
        assert DataConstAt(v, [Field(i)] + p);
      }
    } else {
      var xs := v.items;
      var i :| 0 <= i < |xs| && ContainsDataConst(xs[i]);
      ContainsDataConstSound(xs[i]);
      var p :| DataConstAt(xs[i], p);
      SubtermCons(v, Elem(i), p);
      assert DataConstAt(v, [Elem(i)] + p);
    }
  }

  /** Wherever a `$data` const sits, `contains_data_const` finds it. */
  lemma {:induction false} ContainsDataConstComplete(v: Value, path: seq<Pos>)
    requires DataConstAt(v, path)
    ensures ContainsDataConst(v)
    decreases |path|
  {
    if path == [] {
      var i :| 0 <= i < |v.fields| && IsDataConst(v.fields[i]);
    } else {
      SubtermCons(v, path[0], path[1..]);
      assert [path[0]] + path[1..] == path;
      var p := path[0];
      if v.Object? && p.Field? && p.i < |v.fields| {
        ContainsDataConstComplete(v.fields[p.i].1, path[1..]);
      } else {
        ContainsDataConstComplete(v.items[p.i], path[1..]);
      }
    }
  }

  /** The `allOf` items kept by the filtering loop, in their original order. */
  function Filtered(items: seq<Value>): (r: seq<Value>)
    ensures |r| <= |items|
    ensures forall x :: x in r <==> x in items && !ContainsDataConst(x)
  {
    if items == [] then []
    else
      var n := |items|;
      assert items == items[..n - 1] + [items[n - 1]];
      Filtered(items[..n - 1]) + (if ContainsDataConst(items[n - 1]) then [] else [items[n - 1]])
  }

  /** Filtering works item by item and keeps the order: filtering a concatenation concatenates. */
  lemma {:induction false} FilteredAppend(a: seq<Value>, b: seq<Value>)
    ensures Filtered(a + b) == Filtered(a) + Filtered(b)
    decreases |b|
  {
    if b == [] {
      assert a + b == a;
    } else {
      var n := |b|;
      assert (a + b)[..|a + b| - 1] == a + b[..n - 1];
      assert (a + b)[|a + b| - 1] == b[n - 1];
      FilteredAppend(a, b[..n - 1]);
    }
  }

  /** A list with nothing to remove is kept as it is. */
  lemma {:induction false} FilteredClean(items: seq<Value>)
    requires forall x :: x in items ==> !ContainsDataConst(x)
    ensures Filtered(items) == items
  {
    if |items| > 0 {
      var n := |items|;
      var init := items[..n - 1];
      forall x | x in init ensures !ContainsDataConst(x) {
        assert x in items;
      }
      FilteredClean(init);
      assert !ContainsDataConst(items[n - 1]) by { assert items[n - 1] in items; }
      assert items == init + [items[n - 1]];
    }
  }

  /** `strip_allof_items_with_data_const`, as the value it returns. */
  function Stripped(schema: Value): Value {
    if !schema.Object? then schema
    else
      var allOf := Lookup(schema.fields, "allOf");
      if !allOf.List? then schema
      else
        var kept := Filtered(allOf.items);
        if kept != [] then Object(OrderedMap.Put(schema.fields, "allOf", List(kept)))
        else Object(OrderedMap.Remove(schema.fields, "allOf"))
  }

  /** `strip_allof_items_with_data_const`: copy the mapping, filter its top-level `allOf`. */
  method StripAllOf(schema: Value) returns (r: Value)
    ensures r == Stripped(schema)
  {
    if !schema.Object? {
      return schema;
    }
    var fs := schema.fields;
    var allOf := Lookup(fs, "allOf");
    if allOf.List? {
      var items := allOf.items;
      var filtered: seq<Value> := [];
      for i := 0 to |items|
        invariant filtered == Filtered(items[..i])
      {
        assert items[..i + 1][..i] == items[..i];
        if ContainsDataConst(items[i]) {
          continue;
        }
        filtered := filtered + [items[i]];
      }
      assert items[..|items|] == items;
      if filtered != [] {
        fs := OrderedMap.Put(fs, "allOf", List(filtered));
      } else {
        fs := OrderedMap.Remove(fs, "allOf");
      }
    }
    return Object(fs);
  }

  /**
   * Sanitising a mapping whose `allOf` is a list: `allOf` keeps exactly the items without a
   * `$data` const, and is absent rather than empty when none is left; every other key keeps its
   * value. A non-mapping, or a mapping whose `allOf` is missing or not a list, is returned as is.
   */
  lemma StrippedSpec(schema: Value, k: string)
    ensures !schema.Object? || !Lookup(schema.fields, "allOf").List? ==> Stripped(schema) == schema
    ensures schema.Object? ==> Stripped(schema).Object?
    ensures schema.Object? && k != "allOf" ==>
      OrderedMap.Get(Stripped(schema).fields, k) == OrderedMap.Get(schema.fields, k)
    ensures schema.Object? && Lookup(schema.fields, "allOf").List? ==>
      var kept := Filtered(Lookup(schema.fields, "allOf").items);
      && (kept == [] ==> OrderedMap.Get(Stripped(schema).fields, "allOf") == None)
      && (kept != [] ==> OrderedMap.Get(Stripped(schema).fields, "allOf") == Some(List(kept)))
      && OrderedMap.Get(Stripped(schema).fields, "allOf") != Some(List([]))
  {
    if schema.Object? && Lookup(schema.fields, "allOf").List? {
      var kept := Filtered(Lookup(schema.fields, "allOf").items);
      if kept != [] {
        OrderedMap.PutGet(schema.fields, "allOf", List(kept), k);
        OrderedMap.PutGet(schema.fields, "allOf", List(kept), "allOf");
      }
    }
  }

  /** Sanitising twice is sanitising once. */
  lemma StrippedIdempotent(schema: Value)
    ensures Stripped(Stripped(schema)) == Stripped(schema)
  {
    if schema.Object? && Lookup(schema.fields, "allOf").List? {
      var kept := Filtered(Lookup(schema.fields, "allOf").items);
      if kept != [] {
        var fs := OrderedMap.Put(schema.fields, "allOf", List(kept));
        OrderedMap.PutGet(schema.fields, "allOf", List(kept), "allOf");
        assert Lookup(fs, "allOf") == List(kept);
        FilteredClean(kept);
        OrderedMap.PutPut(schema.fields, "allOf", List(kept), List(kept));
      } else {
        assert Lookup(OrderedMap.Remove(schema.fields, "allOf"), "allOf") == Null;
      }
    }
  }

  /** The message of the structure error for a non-mapping document. */
  const NotMappingMessage: string := "YAMLファイルの構造は、インデントを使って階層構造を表現する必要があります。"

  /** `meta.get("run_id") if isinstance(meta, dict) else None`. */
  function MetaRunId(data: Fields): Value {
    var meta := Lookup(data, "meta");
    if meta.Object? then Lookup(meta.fields, "run_id") else Null
  }

  function RunIdMessage(mid: Value, rid: Value, pyRepr: Value -> string): string {
    "$.meta.run_id must equal $.id (got meta.run_id=" + pyRepr(mid) + ", id=" + pyRepr(rid) + ")"
  }

  /** `extra_checks`; `pyRepr` is Python's `repr` of a value. */
  function ExtraChecks(data: Value, pyRepr: Value -> string): (errors: seq<string>)
    ensures |errors| <= 1
  {
    if !data.Object? then [NotMappingMessage]
    else
      var rid := Lookup(data.fields, "id");
      var mid := MetaRunId(data.fields);
      if !rid.Null? && !mid.Null? && !PyEquals(rid, mid) then [RunIdMessage(mid, rid, pyRepr)]
      else []
  }

  /**
   * The business rule: a non-mapping document gets the structure error; a mapping gets one error,
   * naming both values, exactly when `id` and `meta.run_id` are both present and not equal, and no
   * error otherwise, in particular when `meta` is missing or not a mapping.
   */
  lemma ExtraChecksSpec(data: Value, pyRepr: Value -> string)
    ensures !data.Object? ==> ExtraChecks(data, pyRepr) == [NotMappingMessage]
    ensures data.Object? ==>
      var rid := Lookup(data.fields, "id");
      var mid := MetaRunId(data.fields);
      && (ExtraChecks(data, pyRepr) != [] <==> !rid.Null? && !mid.Null? && !PyEquals(rid, mid))
      && (ExtraChecks(data, pyRepr) != [] ==>
            Contains(ExtraChecks(data, pyRepr)[0], pyRepr(mid)) && Contains(ExtraChecks(data, pyRepr)[0], pyRepr(rid)))
    ensures data.Object? && !Lookup(data.fields, "meta").Object? ==> ExtraChecks(data, pyRepr) == []
  {
    if data.Object? {
      var rid := Lookup(data.fields, "id");
      var mid := MetaRunId(data.fields);
      var a := "$.meta.run_id must equal $.id (got meta.run_id=";
      ContainsInfix(a, pyRepr(mid), ", id=" + pyRepr(rid) + ")");
      assert RunIdMessage(mid, rid, pyRepr) == a + pyRepr(mid) + (", id=" + pyRepr(rid) + ")");
      ContainsInfix(a + pyRepr(mid) + ", id=", pyRepr(rid), ")");
    }
  }

  /** A step of a validation error's path: a mapping key or a list index. */
  datatype PathStep = Key(k: string) | Index(i: nat)

  function RenderStep(s: PathStep): string {
    match s
    case Key(k) => "." + k
    case Index(i) => "[" + NatToDecimal(i) + "]"
  }

  function RenderSteps(ps: seq<PathStep>): string {
    if ps == [] then "" else RenderStep(ps[0]) + RenderSteps(ps[1..])
  }

  /** `"$" + "".join(...)`: `.key` for a key, `[i]` for an index. */
  function RenderPath(ps: seq<PathStep>): (s: string)
    ensures |s| >= 1 && s[0] == '$'
  {
    "$" + RenderSteps(ps)
  }

  /** The end of a key: the next `.` or `[`, or the end of the text. */
  function KeyEnd(s: string, j: nat): (e: nat)
    requires j <= |s|
    ensures j <= e <= |s|
    ensures forall p :: j <= p < e ==> s[p] != '.' && s[p] != '['
    ensures e < |s| ==> s[e] == '.' || s[e] == '['
    decreases |s| - j
  {
    if j == |s| || s[j] == '.' || s[j] == '[' then j else KeyEnd(s, j + 1)
  }

  /** The first `]` from `j` on, if any. */
  function CloseAt(s: string, j: nat): (e: Option<nat>)
    requires j <= |s|
    ensures e.Some? ==> j <= e.value < |s| && s[e.value] == ']' && forall p :: j <= p < e.value ==> s[p] != ']'
    ensures e.None? ==> forall p :: j <= p < |s| ==> s[p] != ']'
    decreases |s| - j
  {
    if j == |s| then None else if s[j] == ']' then Some(j) else CloseAt(s, j + 1)
  }

  /** Reading rendered steps back. */
  function ParseSteps(s: string): Option<seq<PathStep>>
    decreases |s|
  {
    if s == [] then Some([])
    else if s[0] == '.' then
      var e := KeyEnd(s, 1);
      match ParseSteps(s[e..]) {
        case None => None
        case Some(rest) => Some([Key(s[1..e])] + rest)
      }
    else if s[0] == '[' then
      match CloseAt(s, 1) {
        case None => None
        case Some(e) =>
          if 1 < e && AllDigits(s[1..e]) then
            match ParseSteps(s[e + 1..]) {
              case None => None
              case Some(rest) => Some([Index(DecimalValue(s[1..e]))] + rest)
            }
          else None
      }
    else None
  }

  /** Keys that cannot be confused with the step separators. */
  predicate PlainKeys(ps: seq<PathStep>) {
    forall j :: 0 <= j < |ps| && ps[j].Key? ==> '.' !in ps[j].k && '[' !in ps[j].k
  }

  lemma RenderStepsStart(ps: seq<PathStep>)
    ensures RenderSteps(ps) != [] ==> RenderSteps(ps)[0] == '.' || RenderSteps(ps)[0] == '['
  {
  }

  /** With plain keys, a rendered path reads back as the same steps. */
  lemma {:induction false} RenderStepsRoundTrip(ps: seq<PathStep>)
    requires PlainKeys(ps)
    ensures ParseSteps(RenderSteps(ps)) == Some(ps)
  {
    if ps != [] {
      var rest := RenderSteps(ps[1..]);
      assert PlainKeys(ps[1..]) by {
        forall j | 0 <= j < |ps| - 1 && ps[1..][j].Key? ensures '.' !in ps[1..][j].k && '[' !in ps[1..][j].k {
          assert ps[1..][j] == ps[j + 1];
        }
      }
      RenderStepsRoundTrip(ps[1..]);
      RenderStepsStart(ps[1..]);
      assert ps == [ps[0]] + ps[1..];
      match ps[0] {
        case Key(k) =>
          assert ps[0] == ps[..1][0];
          ParseKeyStep(k, rest);
        case Index(i) =>
          ParseIndexStep(i, rest);
      }
    }
  }

  /** A rendered `.key` step followed by further steps reads back as that key, then the rest. */
  lemma ParseKeyStep(k: string, rest: string)
    requires '.' !in k && '[' !in k
    requires rest == [] || rest[0] == '.' || rest[0] == '['
    ensures ParseSteps("." + k + rest) ==
      match ParseSteps(rest) case None => None case Some(r) => Some([Key(k)] + r)
  {
    var s := "." + k + rest;
    forall p | 1 <= p < 1 + |k| ensures s[p] != '.' && s[p] != '[' {
      assert s[p] == k[p - 1];
    }
    assert s[1 + |k|..] == rest;
    assert rest != [] ==> s[1 + |k|] == rest[0];
    KeyEndAt(s, 1, 1 + |k|);
    assert s[1..1 + |k|] == k;
  }

  /** A rendered `[i]` step followed by further steps reads back as that index, then the rest. */
  lemma ParseIndexStep(i: nat, rest: string)
    ensures ParseSteps("[" + NatToDecimal(i) + "]" + rest) ==
      match ParseSteps(rest) case None => None case Some(r) => Some([Index(i)] + r)
  {
    var d := NatToDecimal(i);
    var s := "[" + d + "]" + rest;
    forall p | 1 <= p < 1 + |d| ensures s[p] != ']' {
      assert s[p] == d[p - 1];
    }
    CloseAtFinds(s, 1, 1 + |d|);
    assert s[1..1 + |d|] == d;
    assert s[2 + |d|..] == rest;
    DecimalRoundTrip(i);
  }

  lemma {:induction false} KeyEndAt(s: string, j: nat, e: nat)
    requires j <= e <= |s|
    requires forall p :: j <= p < e ==> s[p] != '.' && s[p] != '['
    requires e == |s| || s[e] == '.' || s[e] == '['
    ensures KeyEnd(s, j) == e
    decreases e - j
  {
    if j < e {
      KeyEndAt(s, j + 1, e);
    }
  }

  lemma {:induction false} CloseAtFinds(s: string, j: nat, e: nat)
    requires j <= e < |s| && s[e] == ']'
    requires forall p :: j <= p < e ==> s[p] != ']'
    ensures CloseAt(s, j) == Some(e)
    decreases e - j
  {
    if j < e {
      CloseAtFinds(s, j + 1, e);
    }
  }

  /** With plain keys, two different error paths are never rendered alike. */
  lemma RenderPathInjective(a: seq<PathStep>, b: seq<PathStep>)
    requires PlainKeys(a) && PlainKeys(b)
    requires RenderPath(a) == RenderPath(b)
    ensures a == b
  {
    assert RenderSteps(a) == RenderPath(a)[1..] == RenderPath(b)[1..] == RenderSteps(b);
    RenderStepsRoundTrip(a);
    RenderStepsRoundTrip(b);
  }

  /** The file-name shape `(FR|AR)-ddd.yaml` or `(FR|AR)-ddd.yml`, with ASCII digits. */
  predicate IsRequirementName(n: string) {
    ((|n| == 11 && n[7..] == "yaml") || (|n| == 10 && n[7..] == "yml"))
    && (n[..2] == "FR" || n[..2] == "AR") && n[2] == '-'
    && IsAsciiDigit(n[3]) && IsAsciiDigit(n[4]) && IsAsciiDigit(n[5]) && n[6] == '.'
  }

  /**
   * `REQ_FILE_RE.match(name)` with `^(FR|AR)-\d{3}\.ya?ml$`: the shape, where `$` also matches
   * just before a final line break.
   */
  predicate IsRequirementFileName(n: string) {
    IsRequirementName(n) || (|n| > 0 && n[|n| - 1] == '\n' && IsRequirementName(n[..|n| - 1]))
  }

  /** `glob("*.y*ml")`: a `.y` somewhere, and the name ends in `ml` after it. */
  predicate MatchesYmlGlob(n: string) {
    |n| >= 4 && n[|n| - 2..] == "ml" && exists i :: 0 <= i <= |n| - 4 && n[i] == '.' && n[i + 1] == 'y'
  }

  /**
   * Among the names the pattern accepts, the glob keeps exactly those of the plain shape: it drops
   * the ones that end in a line break.
   */
  lemma RequirementFileNameInGlob(n: string)
    requires IsRequirementFileName(n)
    ensures MatchesYmlGlob(n) <==> IsRequirementName(n)
  {
    if IsRequirementName(n) {
      assert n[6] == '.' && n[7] == 'y';
    }
  }

  /** The pattern accepts `FR-001.yaml` followed by a line break, which the glob does not return. */
  lemma TrailingBreakAccepted()
    ensures IsRequirementFileName("FR-001.yaml\n") && !MatchesYmlGlob("FR-001.yaml\n")
  {
    var n := "FR-001.yaml\n";
    assert n[..|n| - 1] == "FR-001.yaml";
    assert n[|n| - 2..] == "l\n";
  }

  type Entry = (string, Value)

  /** The candidates of the glob that the pattern accepts, in directory order. */
  function Candidates(dir: seq<Entry>): (r: seq<Entry>)
    ensures forall e :: e in r <==> e in dir && MatchesYmlGlob(e.0) && IsRequirementFileName(e.0)
  {
    if dir == [] then []
    else
      var rest := Candidates(dir[1..]);
      assert forall e :: e in dir <==> e == dir[0] || e in dir[1..];
      if MatchesYmlGlob(dir[0].0) && IsRequirementFileName(dir[0].0) then [dir[0]] + rest else rest
  }

  /** `sorted(p for p in ROOT.glob("*.y*ml") if REQ_FILE_RE.match(p.name))`. */
  function Targets(dir: seq<Entry>): seq<Entry> {
    SortByName(Candidates(dir))
  }

  /** Exactly the files named `(FR|AR)-ddd.yaml` or `.yml` are validated, in name order. */
  lemma TargetsSpec(dir: seq<Entry>)
    ensures SortedByName(Targets(dir))
    ensures forall e :: e in Targets(dir) <==> e in dir && IsRequirementName(e.0)
  {
    forall e ensures e in Targets(dir) <==> e in Candidates(dir) {
      assert e in Targets(dir) <==> e in multiset(Targets(dir));
      assert e in Candidates(dir) <==> e in multiset(Candidates(dir));
    }
    forall e | e in dir ensures MatchesYmlGlob(e.0) && IsRequirementFileName(e.0) <==> IsRequirementName(e.0) {
      if IsRequirementFileName(e.0) {
        RequirementFileNameInGlob(e.0);
      }
    }
  }

  /** A schema violation as the validator reports it. */
  datatype SchemaError = SchemaError(path: seq<PathStep>, message: string)

  /** What a run ends with: a plain return (no targets) or `SystemExit(code)`. */
  datatype RunEnd = Returned | Exit(code: int)

  const NoTargetsMessage: string := "requirementsファイル内にyamlが存在しません。/. (e.g., FR-001.yaml)"

  function ErrorLine(e: SchemaError): string {
    "  - " + RenderPath(e.path) + ": " + e.message
  }

  function ErrorLines(es: seq<SchemaError>): (ls: seq<string>)
    ensures |ls| == |es|
  {
    seq(|es|, j requires 0 <= j < |es| => ErrorLine(es[j]))
  }

  function ExtraLines(ms: seq<string>): (ls: seq<string>)
    ensures |ls| == |ms|
  {
    seq(|ms|, j requires 0 <= j < |ms| => "  - " + ms[j])
  }

  /** The lines printed for one file. */
  function FileReport(name: string, errors: seq<SchemaError>, extra: seq<string>): seq<string> {
    if errors != [] || extra != [] then
      ["❌ " + name]
      + ErrorLines(Take(errors, 20))
      + ExtraLines(Take(extra, 20))
    else ["✅ " + name]
  }

  /** A file passes when the schema and the business rule both accept it. */
  predicate FilePasses(schema: Value, e: Entry, validate: (Value, Value) -> seq<SchemaError>, pyRepr: Value -> string) {
    validate(schema, e.1) == [] && ExtraChecks(e.1, pyRepr) == []
  }

  function ReportOf(schema: Value, e: Entry, validate: (Value, Value) -> seq<SchemaError>, pyRepr: Value -> string): seq<string> {
    FileReport(e.0, validate(schema, e.1), ExtraChecks(e.1, pyRepr))
  }

  /** The reports of the files `ts`, one after the other. */
  function Reports(schema: Value, ts: seq<Entry>, validate: (Value, Value) -> seq<SchemaError>, pyRepr: Value -> string): seq<string> {
    if ts == [] then []
    else Reports(schema, ts[..|ts| - 1], validate, pyRepr) + ReportOf(schema, ts[|ts| - 1], validate, pyRepr)
  }

  /**
   * `main`: sanitise the schema, then validate every target in name order, printing a report per
   * file; the exit code is 0 exactly when every target passes. With no target it prints a notice
   * and returns without an exit code.
   */
  method ValidateAll(rawSchema: Value, dir: seq<Entry>, validate: (Value, Value) -> seq<SchemaError>, pyRepr: Value -> string)
    returns (end: RunEnd, out: seq<string>)
    ensures Targets(dir) == [] ==> end == Returned && out == [NoTargetsMessage]
    ensures Targets(dir) != [] ==>
      && end == Exit(if forall j :: 0 <= j < |Targets(dir)| ==> FilePasses(Stripped(rawSchema), Targets(dir)[j], validate, pyRepr) then 0 else 1)
      && out == Reports(Stripped(rawSchema), Targets(dir), validate, pyRepr)
  {
    var schema := StripAllOf(rawSchema);
    var targets := Targets(dir);
    if targets == [] {
      return Returned, [NoTargetsMessage];
    }
    var ok := true;
    out := [];
    for i := 0 to |targets|
      invariant ok <==> forall j :: 0 <= j < i ==> FilePasses(schema, targets[j], validate, pyRepr)
      invariant out == Reports(schema, targets[..i], validate, pyRepr)
    {
      var name := targets[i].0;
      var data := targets[i].1;
      var errors := validate(schema, data);
      var extra := ExtraChecks(data, pyRepr);
      assert FilePasses(schema, targets[i], validate, pyRepr) <==> errors == [] && extra == [];
      if errors != [] || extra != [] {
        ok := false;
      }
      ReportsSnoc(schema, targets, i, validate, pyRepr);
      out := out + FileReport(name, errors, extra);
    }
    assert targets[..|targets|] == targets;
    return Exit(if ok then 0 else 1), out;
  }

  /** One more file appends its report. */
  lemma ReportsSnoc(schema: Value, ts: seq<Entry>, i: nat, validate: (Value, Value) -> seq<SchemaError>, pyRepr: Value -> string)
    requires i < |ts|
    ensures Reports(schema, ts[..i + 1], validate, pyRepr) ==
      Reports(schema, ts[..i], validate, pyRepr) + ReportOf(schema, ts[i], validate, pyRepr)
  {
    assert ts[..i + 1][..i] == ts[..i];
  }

  /**
   * A file's report is its verdict line, then at most 20 schema errors with rendered paths, then
   * the business-rule error if any; a passing file gets the verdict line alone.
   */
  lemma FileReportSpec(name: string, errors: seq<SchemaError>, extra: seq<string>)
    requires |extra| <= 1
    ensures var r := FileReport(name, errors, extra);
      && (errors == [] && extra == [] ==> r == ["✅ " + name])
      && (errors != [] || extra != [] ==>
            && r[0] == "❌ " + name
            && |r| == 1 + (if |errors| < 20 then |errors| else 20) + |extra|
            && (forall j :: 0 <= j < |errors| && j < 20 ==> r[1 + j] == ErrorLine(errors[j]))
            && (extra != [] ==> r[|r| - 1] == "  - " + extra[0]))
  {
  }
}
