/**
 * The dashboard normaliser: it turns an evaluation result of unknown shape into the
 * `{"testCases": [...]}` document the HTML dashboard reads. It probes fields with fallbacks,
 * defaults the metric values and gives each case a PASS/FAIL verdict against a fixed cutoff.
 * The numeric rendering `float` and `f"{x:.2f}"` and the rendering `str` of non-text values
 * are parameters.
 */
module Dashboard {
  import opened Wrappers
  import opened Text
  import opened Json
  import OrderedMap

  /** A metric whose score is below this fails its case. */
  const SuccessThreshold: real := 0.7

  /** Only the first eight failing metrics are listed as findings. */
  const MaxFindings: nat := 8

  /** The exception the conversion raises, with the offending Python type or value. */
  datatype DashError =
    | NotIterable(typeName: string)   // `for x in v` over a number or a boolean
    | NoGet(typeName: string)         // `.get` on a truthy metadata value that is not a mapping
    | NotFloat(v: Value)              // `float(v)` on a value it cannot convert

  /** `_safe_get(d, *keys, default=default)`: walks down the mappings one key at a time. */
  method SafeGet(d: Value, keys: seq<string>, default: Value) returns (r: Value)
    ensures r == Dig(d, keys).GetOr(default)
  {
    var cur := d;
    var i := 0;
    while i < |keys|
      invariant 0 <= i <= |keys|
      invariant Dig(d, keys[..i]) == Some(cur)
    {
      DigAppend(d, keys[..i], keys[i..]);
      if cur.Object? && HasKey(cur.fields, keys[i]) {
        DigAppend(d, keys[..i], [keys[i]]);
        assert keys[..i] + [keys[i]] == keys[..i + 1];
        cur := Lookup(cur.fields, keys[i]);
      } else {
        assert keys[..i] + keys[i..] == keys;
        return default;
      }
      i := i + 1;
    }
    assert keys[..i] == keys;
    return cur;
  }

  /** A walk succeeds exactly when every step meets a mapping that holds the next key. */
  lemma {:induction false} DigSucceeds(v: Value, keys: seq<string>)
    ensures Dig(v, keys).Some? <==>
      forall j :: 0 <= j < |keys| ==>
        Dig(v, keys[..j]).Some? && Dig(v, keys[..j]).value.Object? &&
        HasKey(Dig(v, keys[..j]).value.fields, keys[j])
  {
    if keys != [] {
      var w := Dig(v, keys[..1]);
      assert keys[..1] == [keys[0]] && keys[..0] == [];
      if v.Object? && HasKey(v.fields, keys[0]) {
        var u := Lookup(v.fields, keys[0]);
        DigSucceeds(u, keys[1..]);
        forall j | 1 <= j <= |keys|
          ensures Dig(v, keys[..j]) == Dig(u, keys[1..][..j - 1])
        {
          assert keys[..j] == [keys[0]] + keys[1..][..j - 1];
          DigAppend(v, [keys[0]], keys[1..][..j - 1]);
        }
        assert Dig(v, keys).Some? ==> forall j :: 0 <= j < |keys| ==>
          Dig(v, keys[..j]).Some? && Dig(v, keys[..j]).value.Object? &&
          HasKey(Dig(v, keys[..j]).value.fields, keys[j]) by {
          if Dig(v, keys).Some? {
            forall j | 0 <= j < |keys|
              ensures Dig(v, keys[..j]).Some? && Dig(v, keys[..j]).value.Object? &&
                HasKey(Dig(v, keys[..j]).value.fields, keys[j])
            {
              if j > 0 {
                assert keys[j] == keys[1..][j - 1];
              }
            }
          }
        }
        if forall j :: 0 <= j < |keys| ==>
          Dig(v, keys[..j]).Some? && Dig(v, keys[..j]).value.Object? &&
          HasKey(Dig(v, keys[..j]).value.fields, keys[j])
        {
          forall j | 0 <= j < |keys[1..]|
            ensures Dig(u, keys[1..][..j]).Some? && Dig(u, keys[1..][..j]).value.Object? &&
              HasKey(Dig(u, keys[1..][..j]).value.fields, keys[1..][j])
          {
            assert Dig(v, keys[..j + 1]) == Dig(u, keys[1..][..j]);
            assert keys[1..][j] == keys[j + 1];
          }
        }
      } else {
        assert !(Dig(v, keys[..0]).value.Object? && HasKey(Dig(v, keys[..0]).value.fields, keys[0]));
      }
    }
  }

  /** The keys of a mapping, as the values iterating over it yields. */
  function KeyValues(fs: Fields): (r: seq<Value>)
    ensures |r| == |fs| && forall i :: 0 <= i < |fs| ==> r[i] == Str(fs[i].0)
  {
    seq(|fs|, i requires 0 <= i < |fs| => Str(fs[i].0))
  }

  /** The one-character strings iterating over a string yields. */
  function CharValues(s: string): (r: seq<Value>)
    ensures |r| == |s| && forall i :: 0 <= i < |s| ==> r[i] == Str([s[i]])
  {
    seq(|s|, i requires 0 <= i < |s| => Str([s[i]]))
  }

  /** `for x in v`: a list yields its elements, a mapping its keys, a string its characters. */
  function Iterate(v: Value): (r: Result<seq<Value>, DashError>)
    ensures r.Err? <==> (v.Null? || v.Bool? || v.Int? || v.Float?)
    ensures v.List? ==> r == Ok(v.items)
    ensures v.Object? ==> (r.Ok? && |r.value| == |v.fields| &&
      forall i :: 0 <= i < |v.fields| ==> r.value[i] == Str(v.fields[i].0))
    ensures v.Str? ==> (r.Ok? && |r.value| == |v.s| &&
      forall i :: 0 <= i < |v.s| ==> r.value[i] == Str([v.s[i]]))
  {
    match v
    case List(xs) => Ok(xs)
    case Object(fs) => Ok(KeyValues(fs))
    case Str(s) => Ok(CharValues(s))
    case _ => Err(NotIterable(TypeName(v)))
  }

  /**
   * The candidate results: a list payload as it is; for a mapping the first truthy of
   * `test_results`, `results` and `testCases`, where a falsy `testCases` that is not `None` is
   * iterated as it is; otherwise the payload alone.
   */
  function Candidates(payload: Value): Result<seq<Value>, DashError> {
    if payload.List? then Ok(payload.items)
    else
      var chosen :=
        if payload.Object? then
          Or(Or(Lookup(payload.fields, "test_results"), Lookup(payload.fields, "results")),
             Lookup(payload.fields, "testCases"))
        else Null;
      if chosen.Null? then Ok([payload]) else Iterate(chosen)
  }

  /** How the candidates follow from the shape of the payload. */
  lemma CandidatesSpec(payload: Value)
    ensures payload.List? ==> Candidates(payload) == Ok(payload.items)
    ensures !payload.List? && !payload.Object? ==> Candidates(payload) == Ok([payload])
    ensures (payload.Object? && Truthy(Lookup(payload.fields, "test_results"))) ==>
      Candidates(payload) == Iterate(Lookup(payload.fields, "test_results"))
    ensures (payload.Object? && !Truthy(Lookup(payload.fields, "test_results")) &&
             Truthy(Lookup(payload.fields, "results"))) ==>
      Candidates(payload) == Iterate(Lookup(payload.fields, "results"))
    ensures (payload.Object? && !Truthy(Lookup(payload.fields, "test_results")) &&
             !Truthy(Lookup(payload.fields, "results")) && Lookup(payload.fields, "testCases").Null?) ==>
      Candidates(payload) == Ok([payload])
    ensures (payload.Object? && !Truthy(Lookup(payload.fields, "test_results")) &&
             !Truthy(Lookup(payload.fields, "results")) && !Lookup(payload.fields, "testCases").Null?) ==>
      Candidates(payload) == Iterate(Lookup(payload.fields, "testCases"))
    ensures (payload.Object? && !Truthy(Lookup(payload.fields, "test_results")) &&
             !Truthy(Lookup(payload.fields, "results"))) ==>
      var tc := Lookup(payload.fields, "testCases");
      && (tc == List([]) || tc == Str("") || tc == Object([]) ==> Candidates(payload) == Ok([]))
      && (tc == Int(0) || tc == Bool(false) || tc == Float(0.0) ==> Candidates(payload).Err?)
      && (tc.List? ==> Candidates(payload) == Ok(tc.items))
  {
  }

  /** One metric as the dashboard shows it. */
  datatype Metric = Metric(name: Value, score: real, weight: real, reason: string)

  /** Python's `float(v)`, with the parsing of a string as the parameter `parseFloat`. */
  function ToFloat(v: Value, parseFloat: string -> Option<real>): (r: Option<real>)
    ensures (v.Bool? || v.Int? || v.Float?) ==> r == Some(NumberValue(v))
    ensures (v.Null? || v.List? || v.Object?) ==> r == None
  {
    match v
    case Str(s) => parseFloat(s)
    case Null => None
    case List(_) => None
    case Object(_) => None
    case _ => Some(NumberValue(v))
  }

  /**
   * One entry of `metrics_in`: `None` when it is not a mapping (it is skipped), otherwise its
   * name, score, weight and reason with their fallbacks.
   */
  function ConvertMetric(m: Value, repr: Value -> string, parseFloat: string -> Option<real>)
    : Result<Option<Metric>, DashError>
  {
    if !m.Object? then Ok(None)
    else
      var fs := m.fields;
      var name := Or(Or(Lookup(fs, "name"), Lookup(fs, "metric")), Str("Metric"));
      var s0 := Lookup(fs, "score");
      var score := if !s0.Null? then s0 else if HasKey(fs, "value") then Lookup(fs, "value") else Float(0.0);
      var weight := if HasKey(fs, "weight") then Lookup(fs, "weight") else Float(1.0);
      var reason := Or(Or(Lookup(fs, "reason"), Lookup(fs, "explanation")), Str(""));
      var sc := if score.Null? then Some(0.0) else ToFloat(score, parseFloat);
      if sc.None? then Err(NotFloat(score))
      else
        var w := ToFloat(weight, parseFloat);
        if w.None? then Err(NotFloat(weight))
        else Ok(Some(Metric(name, sc.value, w.value, AsText(reason, repr))))
  }

  /**
   * The fallbacks of one metric, field by field: the name is the first truthy of `name` and
   * `metric`, else `"Metric"`; the score is `float` of `score`, or of `value` when `score` is
   * `None` or missing, and 0.0 when that is `None` or missing too; the weight is `float` of
   * `weight` when the key is present, else 1.0; the reason is `str` of the first truthy of
   * `reason` and `explanation`, else `""`. The conversion fails exactly when `float` of the chosen
   * score or weight fails, the score being converted first.
   */
  lemma ConvertMetricSpec(m: Value, repr: Value -> string, parseFloat: string -> Option<real>)
    ensures !m.Object? ==> ConvertMetric(m, repr, parseFloat) == Ok(None)
    ensures m.Object? ==>
      var fs := m.fields;
      var r := ConvertMetric(m, repr, parseFloat);
      var s := if !Lookup(fs, "score").Null? then Lookup(fs, "score") else Lookup(fs, "value");
      var sc := if s.Null? then Some(0.0) else ToFloat(s, parseFloat);
      var w := if HasKey(fs, "weight") then ToFloat(Lookup(fs, "weight"), parseFloat) else Some(1.0);
      && r != Ok(None)
      && (sc.None? ==> r == Err(NotFloat(s)))
      && (sc.Some? && w.None? ==> r == Err(NotFloat(Lookup(fs, "weight"))))
      && (r.Ok? <==> sc.Some? && w.Some?)
      && (r.Ok? ==>
            var mm := r.value.value;
            && mm.score == sc.value
            && mm.weight == w.value
            && mm.name == (if Truthy(Lookup(fs, "name")) then Lookup(fs, "name")
                           else if Truthy(Lookup(fs, "metric")) then Lookup(fs, "metric")
                           else Str("Metric"))
            && mm.reason == (if Truthy(Lookup(fs, "reason")) then AsText(Lookup(fs, "reason"), repr)
                             else if Truthy(Lookup(fs, "explanation")) then AsText(Lookup(fs, "explanation"), repr)
                             else ""))
    ensures m.Object? && ConvertMetric(m, repr, parseFloat).Ok? ==>
      var fs := m.fields;
      var mm := ConvertMetric(m, repr, parseFloat).value.value;
      && ((Lookup(fs, "score").Bool? || Lookup(fs, "score").Int? || Lookup(fs, "score").Float?) ==>
            mm.score == NumberValue(Lookup(fs, "score")))
      && (Lookup(fs, "score").Str? ==> Some(mm.score) == parseFloat(Lookup(fs, "score").s))
      && (Lookup(fs, "score").Null? && Lookup(fs, "value").Null? ==> mm.score == 0.0)
      && (!HasKey(fs, "weight") ==> mm.weight == 1.0)
      && (Lookup(fs, "reason").Str? && Lookup(fs, "reason").s != [] ==> mm.reason == Lookup(fs, "reason").s)
    ensures m.Object? && HasKey(m.fields, "weight") && Lookup(m.fields, "weight").Null? ==>
      ConvertMetric(m, repr, parseFloat).Err?
  {
  }

  /** The metrics of a case, converted left to right; the first conversion error stops it. */
  function Metrics(xs: seq<Value>, repr: Value -> string, parseFloat: string -> Option<real>)
    : (r: Result<seq<Metric>, DashError>)
    ensures r.Ok? ==> |r.value| == CountMappings(xs)
  {
    if xs == [] then Ok([])
    else
      var init := xs[..|xs| - 1];
      match Metrics(init, repr, parseFloat)
      case Err(e) => Err(e)
      case Ok(ms) =>
        match ConvertMetric(xs[|xs| - 1], repr, parseFloat)
        case Err(e) => Err(e)
        case Ok(None) => Ok(ms)
        case Ok(Some(m)) => Ok(ms + [m])
  }

  /** The number of mappings among `xs`. */
  function CountMappings(xs: seq<Value>): nat {
    if xs == [] then 0
    else CountMappings(xs[..|xs| - 1]) + (if xs[|xs| - 1].Object? then 1 else 0)
  }

  /** Entries that are not mappings contribute no metric and raise no error. */
  lemma {:induction false} MetricsWithoutMappings(xs: seq<Value>, repr: Value -> string, parseFloat: string -> Option<real>)
    requires forall i :: 0 <= i < |xs| ==> !xs[i].Object?
    ensures Metrics(xs, repr, parseFloat) == Ok([])
  {
    if xs != [] {
      MetricsWithoutMappings(xs[..|xs| - 1], repr, parseFloat);
    }
  }

  /** Once a prefix of the metrics raises, the whole list raises the same error. */
  lemma {:induction false} MetricsErrPrefix(xs: seq<Value>, n: nat, repr: Value -> string, parseFloat: string -> Option<real>)
    requires n <= |xs| && Metrics(xs[..n], repr, parseFloat).Err?
    ensures Metrics(xs, repr, parseFloat) == Metrics(xs[..n], repr, parseFloat)
    decreases |xs| - n
  {
    if n < |xs| {
      assert xs[..n + 1][..n] == xs[..n];
      MetricsErrPrefix(xs, n + 1, repr, parseFloat);
    } else {
      assert xs[..n] == xs;
    }
  }

  /** The metrics scoring below the threshold (`FailsAppend` states that their order is kept). */
  function Fails(ms: seq<Metric>): (r: seq<Metric>)
    ensures |r| <= |ms|
    ensures forall m :: m in r <==> m in ms && m.score < SuccessThreshold
  {
    if ms == [] then []
    else (if ms[0].score < SuccessThreshold then [ms[0]] else []) + Fails(ms[1..])
  }

  /**
   * The filter works metric by metric: the failures of a concatenation are the failures of its
   * parts, in order, and a single metric is kept exactly when it scores below the threshold.
   */
  lemma {:induction false} FailsAppend(a: seq<Metric>, b: seq<Metric>)
    ensures Fails(a + b) == Fails(a) + Fails(b)
    ensures |a| == 1 ==> Fails(a) == if a[0].score < SuccessThreshold then a else []
  {
    if a == [] {
      assert a + b == b;
    } else {
      assert (a + b)[1..] == a[1..] + b;
      FailsAppend(a[1..], b);
      if |a| == 1 {
        assert a[1..] == [];
      }
    }
  }

  /** `"FAIL" if len(fails) else "PASS"`. */
  function Verdict(ms: seq<Metric>): string {
    if |Fails(ms)| > 0 then "FAIL" else "PASS"
  }

  /** A case fails exactly when one of its metrics scores below the threshold. */
  lemma VerdictSpec(ms: seq<Metric>)
    ensures Verdict(ms) == "FAIL" <==> exists j :: 0 <= j < |ms| && ms[j].score < SuccessThreshold
    ensures Verdict(ms) == "PASS" <==> forall j :: 0 <= j < |ms| ==> ms[j].score >= SuccessThreshold
  {
    if |Fails(ms)| > 0 {
      assert Fails(ms)[0] in Fails(ms);
    }
    if exists j :: 0 <= j < |ms| && ms[j].score < SuccessThreshold {
      var j :| 0 <= j < |ms| && ms[j].score < SuccessThreshold;
      assert ms[j] in Fails(ms);
    }
  }

  /** The finding written for one failing metric; `fixed2` is `f"{x:.2f}"`. */
  function Finding(m: Metric, repr: Value -> string, fixed2: real -> string): string {
    Join("", [AsText(m.name, repr), " が閾値未満（", fixed2(m.score), "）"])
  }

  /** The findings: one per failing metric, in order, at most eight. */
  function Findings(ms: seq<Metric>, repr: Value -> string, fixed2: real -> string): (r: seq<Value>)
    ensures |r| == if |Fails(ms)| < MaxFindings then |Fails(ms)| else MaxFindings
    ensures forall i :: 0 <= i < |r| ==> r[i] == Str(Finding(Fails(ms)[i], repr, fixed2))
  {
    var fails := Fails(ms);
    Take(seq(|fails|, i requires 0 <= i < |fails| => Str(Finding(fails[i], repr, fixed2))), MaxFindings)
  }

  /**
   * The findings follow the metrics one by one: with no metrics there are none, and one more
   * metric adds its finding when it fails, as long as fewer than eight findings have been made.
   */
  lemma FindingsSnoc(ms: seq<Metric>, m: Metric, repr: Value -> string, fixed2: real -> string)
    ensures Findings([], repr, fixed2) == []
    ensures Findings(ms + [m], repr, fixed2) ==
      Take(Findings(ms, repr, fixed2) + (if m.score < SuccessThreshold then [Str(Finding(m, repr, fixed2))] else []),
           MaxFindings)
  {
    FailsAppend(ms, [m]);
    FailsAppend([m], []);
    assert [m] + [] == [m];
    var lhs := Findings(ms + [m], repr, fixed2);
    var rhs := Take(Findings(ms, repr, fixed2) + (if m.score < SuccessThreshold then [Str(Finding(m, repr, fixed2))] else []),
                    MaxFindings);
    assert |lhs| == |rhs|;
    forall i | 0 <= i < |lhs| ensures lhs[i] == rhs[i] {
      if i < |Fails(ms)| {
        assert (Fails(ms) + Fails([m]))[i] == Fails(ms)[i];
      } else {
        assert (Fails(ms) + Fails([m]))[i] == m;
      }
    }
  }

  /** The `summary` mapping of one case. */
  function Summary(ms: seq<Metric>, repr: Value -> string, fixed2: real -> string): Value {
    Object([("判定", Str(Verdict(ms))), ("指摘", List(Findings(ms, repr, fixed2))), ("追記案", List([]))])
  }

  /** The summary holds the verdict, at most eight findings and an empty list of proposals. */
  lemma SummarySpec(ms: seq<Metric>, repr: Value -> string, fixed2: real -> string)
    ensures var fs := Summary(ms, repr, fixed2).fields;
      && OrderedMap.Keys(fs) == ["判定", "指摘", "追記案"]
      && (Lookup(fs, "判定") == Str("FAIL") <==> exists j :: 0 <= j < |ms| && ms[j].score < SuccessThreshold)
      && Lookup(fs, "指摘").List? && |Lookup(fs, "指摘").items| <= MaxFindings
      && |Lookup(fs, "指摘").items| <= |ms|
      && Lookup(fs, "追記案") == List([])
  {
    var fs := Summary(ms, repr, fixed2).fields;
    LookupFirst(fs, 0);
    LookupFirst(fs, 1);
    LookupFirst(fs, 2);
    VerdictSpec(ms);
  }

  function MetricValue(m: Metric): Value {
    Object([("name", m.name), ("score", Float(m.score)), ("weight", Float(m.weight)), ("reason", Str(m.reason))])
  }

  /** A shown metric has the keys `name`, `score`, `weight`, `reason`, holding the converted fields. */
  lemma MetricValueFields(m: Metric)
    ensures var fs := MetricValue(m).fields;
      && OrderedMap.Keys(fs) == ["name", "score", "weight", "reason"]
      && Lookup(fs, "name") == m.name
      && Lookup(fs, "score") == Float(m.score)
      && Lookup(fs, "weight") == Float(m.weight)
      && Lookup(fs, "reason") == Str(m.reason)
  {
    var fs := MetricValue(m).fields;
    assert OrderedMap.Keys(fs) == ["name", "score", "weight", "reason"];
    assert OrderedMap.Distinct(OrderedMap.Keys(fs));
    OrderedMap.GetEntry(fs, 0);
    OrderedMap.GetEntry(fs, 1);
    OrderedMap.GetEntry(fs, 2);
    OrderedMap.GetEntry(fs, 3);
  }

  /** `tc`: the nested `test_case` mapping of a result, or `{}`. */
  function TestCaseOf(tr: Value): Value {
    if tr.Object? then Dig(tr, ["test_case"]).GetOr(Object([])) else Object([])
  }

  /** A field taken from the nested test case first, then from the result, then `fallback`. */
  function Probe(tr: Value, key: string, fallback: Value): Value {
    Dig(TestCaseOf(tr), [key]).GetOr(Dig(tr, [key]).GetOr(fallback))
  }

  /** The fallback name of the `idx`-th case: `f"TC-{idx:03d}"`. */
  function DefaultName(idx: nat): string {
    "TC-" + ZeroPad3(idx)
  }

  /** `req_id`: the metadata's truthy `requirement_id`, else its truthy `id`, else the default. */
  function CaseName(meta: Fields, idx: nat, repr: Value -> string): string {
    AsText(Or(Or(Lookup(meta, "requirement_id"), Lookup(meta, "id")), Str(DefaultName(idx))), repr)
  }

  /** How a case is named, and that the default name denotes its 1-based position. */
  lemma CaseNameSpec(meta: Fields, idx: nat, repr: Value -> string)
    ensures Truthy(Lookup(meta, "requirement_id")) ==>
      CaseName(meta, idx, repr) == AsText(Lookup(meta, "requirement_id"), repr)
    ensures !Truthy(Lookup(meta, "requirement_id")) && Truthy(Lookup(meta, "id")) ==>
      CaseName(meta, idx, repr) == AsText(Lookup(meta, "id"), repr)
    ensures Lookup(meta, "requirement_id").Str? && Lookup(meta, "requirement_id").s != [] ==>
      CaseName(meta, idx, repr) == Lookup(meta, "requirement_id").s
    ensures !Truthy(Lookup(meta, "requirement_id")) && Lookup(meta, "id").Str? && Lookup(meta, "id").s != [] ==>
      CaseName(meta, idx, repr) == Lookup(meta, "id").s
    ensures !Truthy(Lookup(meta, "requirement_id")) && !Truthy(Lookup(meta, "id")) ==>
      var n := CaseName(meta, idx, repr);
      |n| >= 6 && n[..3] == "TC-" && AllDigits(n[3..]) && DecimalValue(n[3..]) == idx
  {
    var n := DefaultName(idx);
    assert n[3..] == ZeroPad3(idx);
  }

  /** `metrics_in`: `metrics_data`, else `metrics`, else `[]`, and `[]` when falsy. */
  function MetricsIn(tr: Value): Value {
    Or(Dig(tr, ["metrics_data"]).GetOr(Dig(tr, ["metrics"]).GetOr(List([]))), List([]))
  }

  /** `meta`: the case's additional metadata, or `{}` when it is falsy. */
  function MetaOf(tr: Value): Value {
    Or(Probe(tr, "additional_metadata", Object([])), Object([]))
  }

  /** The output record of one case from its parts. */
  function CaseValue(name: string, input: Value, actual: Value, ms: seq<Metric>,
                     repr: Value -> string, fixed2: real -> string): Value
  {
    Object([
      ("name", Str(name)),
      ("input", input),
      ("actualOutput", actual),
      ("summary", Summary(ms, repr, fixed2)),
      ("metrics", List(seq(|ms|, i requires 0 <= i < |ms| => MetricValue(ms[i]))))
    ])
  }

  /** The record for the `idx`-th candidate `tr` (1-based), or the error the conversion raises. */
  function CaseRecord(tr: Value, idx: nat, repr: Value -> string, parseFloat: string -> Option<real>,
                      fixed2: real -> string): Result<Value, DashError>
  {
    var meta := MetaOf(tr);
    if !meta.Object? then Err(NoGet(TypeName(meta)))
    else
      match Iterate(MetricsIn(tr))
      case Err(e) => Err(e)
      case Ok(items) =>
        match Metrics(items, repr, parseFloat)
        case Err(e) => Err(e)
        case Ok(ms) =>
          Ok(CaseValue(CaseName(meta.fields, idx, repr), Probe(tr, "input", Str("")),
                       Probe(tr, "actual_output", Str("")), ms, repr, fixed2))
  }

  /** The fields of a record, in order. */
  lemma CaseValueSpec(name: string, input: Value, actual: Value, ms: seq<Metric>,
                      repr: Value -> string, fixed2: real -> string)
    ensures var fs := CaseValue(name, input, actual, ms, repr, fixed2).fields;
      && OrderedMap.Keys(fs) == ["name", "input", "actualOutput", "summary", "metrics"]
      && Lookup(fs, "name") == Str(name)
      && Lookup(fs, "input") == input
      && Lookup(fs, "actualOutput") == actual
      && Lookup(fs, "summary") == Summary(ms, repr, fixed2)
      && Lookup(fs, "metrics").List? && |Lookup(fs, "metrics").items| == |ms|
      && forall i :: 0 <= i < |ms| ==> Lookup(fs, "metrics").items[i] == MetricValue(ms[i])
  {
    RecordFields(Str(name), input, actual, Summary(ms, repr, fixed2),
                 List(seq(|ms|, i requires 0 <= i < |ms| => MetricValue(ms[i]))));
  }

  /** Looking up each key of a record literal finds the value written beside it. */
  lemma RecordFields(name: Value, input: Value, actual: Value, summary: Value, metrics: Value)
    ensures var fs := [("name", name), ("input", input), ("actualOutput", actual), ("summary", summary), ("metrics", metrics)];
      && OrderedMap.Keys(fs) == ["name", "input", "actualOutput", "summary", "metrics"]
      && Lookup(fs, "name") == name
      && Lookup(fs, "input") == input
      && Lookup(fs, "actualOutput") == actual
      && Lookup(fs, "summary") == summary
      && Lookup(fs, "metrics") == metrics
  {
    var fs := [("name", name), ("input", input), ("actualOutput", actual), ("summary", summary), ("metrics", metrics)];
    assert OrderedMap.Keys(fs) == ["name", "input", "actualOutput", "summary", "metrics"];
    assert OrderedMap.Distinct(OrderedMap.Keys(fs));
    OrderedMap.GetEntry(fs, 0);
    OrderedMap.GetEntry(fs, 1);
    OrderedMap.GetEntry(fs, 2);
    OrderedMap.GetEntry(fs, 3);
    OrderedMap.GetEntry(fs, 4);
  }

  /** Where each field of a case's record comes from. */
  lemma CaseRecordSpec(tr: Value, idx: nat, repr: Value -> string, parseFloat: string -> Option<real>,
                       fixed2: real -> string)
    requires CaseRecord(tr, idx, repr, parseFloat, fixed2).Ok?
    ensures MetaOf(tr).Object? && Iterate(MetricsIn(tr)).Ok?
    ensures Metrics(Iterate(MetricsIn(tr)).value, repr, parseFloat).Ok?
    ensures var fs := CaseRecord(tr, idx, repr, parseFloat, fixed2).value.fields;
      var ms := Metrics(Iterate(MetricsIn(tr)).value, repr, parseFloat).value;
      && OrderedMap.Keys(fs) == ["name", "input", "actualOutput", "summary", "metrics"]
      && Lookup(fs, "name") == Str(CaseName(MetaOf(tr).fields, idx, repr))
      && Lookup(fs, "input") == Probe(tr, "input", Str(""))
      && Lookup(fs, "actualOutput") == Probe(tr, "actual_output", Str(""))
      && Lookup(fs, "summary") == Summary(ms, repr, fixed2)
      && Lookup(fs, "metrics").List?
      && |Lookup(fs, "metrics").items| == CountMappings(Iterate(MetricsIn(tr)).value)
      && forall i :: 0 <= i < |ms| ==> Lookup(fs, "metrics").items[i] == MetricValue(ms[i])
  {
    var meta := MetaOf(tr);
    var items := Iterate(MetricsIn(tr)).value;
    var ms := Metrics(items, repr, parseFloat).value;
    var name := CaseName(meta.fields, idx, repr);
    var input := Probe(tr, "input", Str(""));
    var actual := Probe(tr, "actual_output", Str(""));
    assert CaseRecord(tr, idx, repr, parseFloat, fixed2) == Ok(CaseValue(name, input, actual, ms, repr, fixed2));
    CaseValueSpec(name, input, actual, ms, repr, fixed2);
  }

  /** The outcome of converting each candidate, numbered from 1. */
  function CaseResults(cs: seq<Value>, repr: Value -> string, parseFloat: string -> Option<real>,
                       fixed2: real -> string): (r: seq<Result<Value, DashError>>)
    ensures |r| == |cs| && forall i :: 0 <= i < |cs| ==> r[i] == CaseRecord(cs[i], i + 1, repr, parseFloat, fixed2)
  {
    seq(|cs|, i requires 0 <= i < |cs| => CaseRecord(cs[i], i + 1, repr, parseFloat, fixed2))
  }

  /** Running conversions one after another: the values in order, or the first error. */
  function Collect<T, E>(rs: seq<Result<T, E>>): (r: Result<seq<T>, E>)
    ensures r.Ok? ==> |r.value| == |rs|
  {
    if rs == [] then Ok([])
    else
      match Collect(rs[..|rs| - 1])
      case Err(e) => Err(e)
      case Ok(vs) =>
        match rs[|rs| - 1]
        case Err(e) => Err(e)
        case Ok(v) => Ok(vs + [v])
  }

  /** Success yields every value in order; failure is the error of the first failing step. */
  lemma {:induction false} CollectSpec<T, E>(rs: seq<Result<T, E>>)
    ensures Collect(rs).Ok? <==> forall i :: 0 <= i < |rs| ==> rs[i].Ok?
    ensures Collect(rs).Ok? ==> forall i :: 0 <= i < |rs| ==> rs[i] == Ok(Collect(rs).value[i])
    ensures Collect(rs).Err? ==>
      exists i :: 0 <= i < |rs| && rs[i] == Err(Collect(rs).error) && forall j :: 0 <= j < i ==> rs[j].Ok?
  {
    if rs != [] {
      var init := rs[..|rs| - 1];
      CollectSpec(init);
      forall i | 0 <= i < |init| ensures init[i] == rs[i] {
      }
      if Collect(init).Err? {
        var i :| 0 <= i < |init| && init[i] == Err(Collect(init).error) && forall j :: 0 <= j < i ==> init[j].Ok?;
        assert rs[i] == Err(Collect(rs).error) && forall j :: 0 <= j < i ==> rs[j].Ok?;
      } else if rs[|rs| - 1].Err? {
        assert forall j :: 0 <= j < |rs| - 1 ==> rs[j].Ok?;
      }
    }
  }

  /** Once a prefix fails, the whole run fails with the same error. */
  lemma {:induction false} CollectErrPrefix<T, E>(rs: seq<Result<T, E>>, n: nat)
    requires n <= |rs| && Collect(rs[..n]).Err?
    ensures Collect(rs) == Collect(rs[..n])
    decreases |rs| - n
  {
    if n < |rs| {
      assert rs[..n + 1][..n] == rs[..n];
      CollectErrPrefix(rs, n + 1);
    } else {
      assert rs[..n] == rs;
    }
  }

  /** `to_dashboard_json(deepeval_results)`. */
  function DashboardJson(payload: Value, repr: Value -> string, parseFloat: string -> Option<real>,
                         fixed2: real -> string): Result<Value, DashError>
  {
    match Candidates(payload)
    case Err(e) => Err(e)
    case Ok(cs) =>
      match Collect(CaseResults(cs, repr, parseFloat, fixed2))
      case Err(e) => Err(e)
      case Ok(rs) => Ok(Object([("testCases", List(rs))]))
  }

  /** The document has the sole key `testCases`, with one record per candidate, in order. */
  lemma DashboardJsonSpec(payload: Value, repr: Value -> string, parseFloat: string -> Option<real>,
                          fixed2: real -> string)
    requires DashboardJson(payload, repr, parseFloat, fixed2).Ok?
    ensures Candidates(payload).Ok?
    ensures var out := DashboardJson(payload, repr, parseFloat, fixed2).value;
      var cs := Candidates(payload).value;
      && out.Object? && OrderedMap.Keys(out.fields) == ["testCases"]
      && Lookup(out.fields, "testCases").List?
      && |Lookup(out.fields, "testCases").items| == |cs|
      && forall i :: 0 <= i < |cs| ==>
           CaseRecord(cs[i], i + 1, repr, parseFloat, fixed2) == Ok(Lookup(out.fields, "testCases").items[i])
  {
    var out := DashboardJson(payload, repr, parseFloat, fixed2).value;
    CollectSpec(CaseResults(Candidates(payload).value, repr, parseFloat, fixed2));
    LookupFirst(out.fields, 0);
  }

  /** The record of one candidate, built as the loop body of `to_dashboard_json` builds it. */
  method BuildCase(tr: Value, idx: nat, repr: Value -> string, parseFloat: string -> Option<real>,
                   fixed2: real -> string) returns (r: Result<Value, DashError>)
    ensures r == CaseRecord(tr, idx, repr, parseFloat, fixed2)
  {
    var input, actual, meta := ProbeCase(tr);
    if !meta.Object? {
      return Err(NoGet(TypeName(meta)));
    }
    var name := CaseName(meta.fields, idx, repr);
    var metricsDefault := SafeGet(tr, ["metrics"], List([]));
    var metricsIn := SafeGet(tr, ["metrics_data"], metricsDefault);
    metricsIn := Or(metricsIn, List([]));
    assert metricsIn == MetricsIn(tr);
    var items := Iterate(metricsIn);
    if items.Err? {
      return Err(items.error);
    }
    var ms := ConvertMetrics(items.value, repr, parseFloat);
    if ms.Err? {
      return Err(ms.error);
    }
    return Ok(CaseValue(name, input, actual, ms.value, repr, fixed2));
  }

  /** `tc`, `inp`, `actual` and `meta` of one candidate, each probed with its fallbacks. */
  method ProbeCase(tr: Value) returns (input: Value, actual: Value, meta: Value)
    ensures input == Probe(tr, "input", Str(""))
    ensures actual == Probe(tr, "actual_output", Str(""))
    ensures meta == MetaOf(tr)
  {
    var tc: Value := Object([]);
    if tr.Object? {
      tc := SafeGet(tr, ["test_case"], Object([]));
    }
    assert tc == TestCaseOf(tr);
    var inputDefault := SafeGet(tr, ["input"], Str(""));
    input := SafeGet(tc, ["input"], inputDefault);
    var actualDefault := SafeGet(tr, ["actual_output"], Str(""));
    actual := SafeGet(tc, ["actual_output"], actualDefault);
    var metaDefault := SafeGet(tr, ["additional_metadata"], Object([]));
    meta := SafeGet(tc, ["additional_metadata"], metaDefault);
    meta := Or(meta, Object([]));
  }

  /** The inner loop of `to_dashboard_json` over `metrics_in`. */
  method ConvertMetrics(xs: seq<Value>, repr: Value -> string, parseFloat: string -> Option<real>)
    returns (r: Result<seq<Metric>, DashError>)
    ensures r == Metrics(xs, repr, parseFloat)
  {
    var ms: seq<Metric> := [];
    var j := 0;
    while j < |xs|
      invariant 0 <= j <= |xs|
      invariant Metrics(xs[..j], repr, parseFloat) == Ok(ms)
    {
      assert xs[..j + 1][..j] == xs[..j];
      var c := ConvertMetric(xs[j], repr, parseFloat);
      if c.Err? {
        MetricsErrPrefix(xs, j + 1, repr, parseFloat);
        return Err(c.error);
      }
      if c.value.Some? {
        ms := ms + [c.value.value];
      }
      j := j + 1;
    }
    assert xs[..j] == xs;
    return Ok(ms);
  }

  /** `to_dashboard_json`: one record per candidate, appended in order. */
  method ToDashboardJson(payload: Value, repr: Value -> string, parseFloat: string -> Option<real>,
                         fixed2: real -> string) returns (r: Result<Value, DashError>)
    ensures r == DashboardJson(payload, repr, parseFloat, fixed2)
  {
    var candidates := Candidates(payload);
    if candidates.Err? {
      return Err(candidates.error);
    }
    var cs := candidates.value;
    ghost var results := CaseResults(cs, repr, parseFloat, fixed2);
    var out: seq<Value> := [];
    var i := 0;
    while i < |cs|
      invariant 0 <= i <= |cs|
      invariant Collect(results[..i]) == Ok(out)
    {
      assert results[..i + 1][..i] == results[..i];
      var rec := BuildCase(cs[i], i + 1, repr, parseFloat, fixed2);
      assert results[i] == rec;
      if rec.Err? {
        CollectErrPrefix(results, i + 1);
        return Err(rec.error);
      }
      out := out + [rec.value];
      i := i + 1;
    }
    assert results[..i] == results;
    return Ok(Object([("testCases", List(out))]));
  }
}
