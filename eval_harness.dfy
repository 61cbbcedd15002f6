/**
 * The deterministic part of the two evaluation scripts: turning parsed requirements into test
 * cases (one per requirement plus an OVERALL case) and turning evaluation results into the
 * JSON report with its summary counts. The evaluation itself (metrics, LLM scoring) is a
 * library call and is not modelled; results enter as plain records.
 */
module EvalHarness {
  import opened Wrappers
  import opened Text
  import opened Json
  import OrderedMap
  import RequirementsMarkdown

  /** One requirement as it enters the evaluation: its ID, its text and, in v2, its `meta`. */
  datatype Unit = Unit(id: string, text: string, meta: Option<Fields>)

  /** An `LLMTestCase`, reduced to the data the scripts put into it. */
  datatype TestCase = TestCase(
    input: string,
    actualOutput: string,
    context: seq<string>,
    retrievalContext: seq<string>,
    metadata: Fields)

  const OverallId: string := "OVERALL"

  /** The prompt of a per-requirement case: planning, checklist, ID and requirement, in that order. */
  function UnitPrompt(planning: string, checklist: string, id: string, text: string): string {
    Join("", UnitPromptParts(planning, checklist, id, text))
  }

  /** The pieces of the per-requirement f-string, in order. */
  function UnitPromptParts(planning: string, checklist: string, id: string, text: string): seq<string> {
    ["【企画書】\n", planning, "\n\n",
     "【チェックリスト（本企画向け）】\n", checklist, "\n\n",
     "【要件ID】", id, "\n",
     "【要件（1件）】\n", text, "\n"]
  }

  /** `{"requirement_id": id}` in v1; v2 adds `"meta"`. */
  function UnitMetadata(u: Unit): Fields {
    [("requirement_id", Str(u.id))] + (if u.meta.Some? then [("meta", Object(u.meta.value))] else [])
  }

  function UnitCase(planning: string, checklist: string, u: Unit): TestCase {
    TestCase(UnitPrompt(planning, checklist, u.id, u.text), u.text, [planning], [planning], UnitMetadata(u))
  }

  /** Every requirement text prefixed by a `---` line, joined by blank lines, in dictionary order. */
  function OverallText(units: seq<Unit>): string {
    Join("\n\n", seq(|units|, i requires 0 <= i < |units| => "---\n" + units[i].text))
  }

  function OverallPrompt(planning: string, all: string): string {
    Join("", ["【企画書】\n", planning, "\n\n【要件一覧（全件）】\n", all, "\n"])
  }

  function OverallCase(planning: string, units: seq<Unit>): TestCase {
    var all := OverallText(units);
    TestCase(OverallPrompt(planning, all), all, [planning], [planning], [("requirement_id", Str(OverallId))])
  }

  /** The loop over `req_map.items()` followed by the OVERALL case. */
  method AssembleTestCases(planning: string, checklist: string, units: seq<Unit>) returns (cases: seq<TestCase>)
    ensures |cases| == |units| + 1
    ensures forall i :: 0 <= i < |units| ==> cases[i] == UnitCase(planning, checklist, units[i])
    ensures cases[|units|] == OverallCase(planning, units)
  {
    cases := [];
    for i := 0 to |units|
      invariant |cases| == i
      invariant forall k :: 0 <= k < i ==> cases[k] == UnitCase(planning, checklist, units[k])
    {
      var u := units[i];
      var inp := UnitPrompt(planning, checklist, u.id, u.text);
      cases := cases + [TestCase(inp, u.text, [planning], [planning], UnitMetadata(u))];
    }
    cases := cases + [OverallCase(planning, units)];
  }

  /**
   * A per-requirement case evaluates the requirement text itself against a prompt that carries
   * the planning document, the checklist, the ID and the requirement; its metadata names the ID
   * and, when given, the `meta` mapping.
   */
  lemma UnitCaseSpec(planning: string, checklist: string, u: Unit)
    ensures var c := UnitCase(planning, checklist, u);
      && c.actualOutput == u.text
      && c.context == [planning] && c.retrievalContext == [planning]
      && Lookup(c.metadata, "requirement_id") == Str(u.id)
      && Lookup(c.metadata, "meta") == (if u.meta.Some? then Object(u.meta.value) else Null)
      && Contains(c.input, planning) && Contains(c.input, checklist)
      && Contains(c.input, u.id) && Contains(c.input, u.text)
  {
    var c := UnitCase(planning, checklist, u);
    var parts := UnitPromptParts(planning, checklist, u.id, u.text);
    JoinContainsPart("", parts, 1);
    JoinContainsPart("", parts, 4);
    JoinContainsPart("", parts, 7);
    JoinContainsPart("", parts, 10);
    if u.meta.Some? {
      LookupFirst(c.metadata, 1);
    }
  }

  /** The OVERALL case lists every requirement, each behind its `---` line, and is tagged OVERALL. */
  lemma OverallCaseSpec(planning: string, units: seq<Unit>, i: nat)
    requires i < |units|
    ensures var c := OverallCase(planning, units);
      && Lookup(c.metadata, "requirement_id") == Str(OverallId)
      && c.actualOutput == OverallText(units)
      && Contains(c.actualOutput, "---\n" + units[i].text)
      && Contains(c.input, units[i].text)
  {
    var c := OverallCase(planning, units);
    var parts := seq(|units|, k requires 0 <= k < |units| => "---\n" + units[k].text);
    JoinContainsPart("\n\n", parts, i);
    ContainsInfix("---\n", units[i].text, "");
    assert "---\n" + units[i].text + "" == parts[i];
    ContainsTrans(c.actualOutput, parts[i], units[i].text);
    JoinContainsPart("", ["【企画書】\n", planning, "\n\n【要件一覧（全件）】\n", c.actualOutput, "\n"], 3);
    ContainsTrans(c.input, c.actualOutput, units[i].text);
  }

  /** The v1 dictionary `req_map` as the sequence of its items. */
  function UnitsOf(reqMap: seq<(string, string)>): (us: seq<Unit>)
    ensures |us| == |reqMap|
  {
    seq(|reqMap|, i requires 0 <= i < |reqMap| => Unit(reqMap[i].0, reqMap[i].1, None))
  }

  /**
   * v1 up to the evaluation call: segment the requirements Markdown, then build the cases.
   * No anchor means no cases at all; otherwise every per-requirement case, in dictionary order,
   * evaluates a block that contains its own ID.
   */
  method PrepareV1(planning: string, requirements: string, checklist: string)
    returns (r: Result<seq<TestCase>, RequirementsMarkdown.ParseError>)
    ensures r.Err? <==> RequirementsMarkdown.Anchors(requirements) == []
    ensures r.Err? <==> forall i: nat, k: nat, j: nat ::
      RequirementsMarkdown.IsLineStart(requirements, i) ==> !RequirementsMarkdown.AnchorShape(requirements, i, k, j)
    ensures r.Ok? ==>
      var reqMap := OrderedMap.FromPairs(RequirementsMarkdown.Segments(requirements));
      && |r.value| == |reqMap| + 1
      && r.value[|reqMap|] == OverallCase(planning, UnitsOf(reqMap))
      && forall i :: 0 <= i < |reqMap| ==>
           r.value[i] == UnitCase(planning, checklist, Unit(reqMap[i].0, reqMap[i].1, None))
           && Contains(r.value[i].actualOutput, reqMap[i].0)
  {
    var parsed := RequirementsMarkdown.ParseRequirementsById(requirements);
    if parsed.Err? {
      return Err(parsed.error);
    }
    var cases := AssembleTestCases(planning, checklist, UnitsOf(parsed.value));
    return Ok(cases);
  }

  /** A DeepEval metric result; an attribute that is absent reads as `None`. */
  datatype MetricData = MetricData(
    name: Value,
    score: Value,
    threshold: Value,
    success: Value,
    reason: Value,
    evaluationModel: Value,
    evaluationCost: Value,
    error: Value)

  /**
   * A DeepEval test result. `metadata` is `None` when `additional_metadata` is absent or `None`;
   * `metricsData` likewise, and `success` reads as `None` when absent.
   */
  datatype TestResult = TestResult(
    name: Value,
    success: Value,
    input: Value,
    actualOutput: Value,
    metadata: Option<Fields>,
    metricsData: Option<seq<MetricData>>)

  /** `getattr(tr, "additional_metadata", None) or {}`. */
  function MetaOf(tr: TestResult): Fields {
    tr.metadata.GetOr([])
  }

  /** `meta.get("requirement_id") or getattr(tr, "name", None)`. */
  function RequirementId(tr: TestResult): Value {
    Or(Lookup(MetaOf(tr), "requirement_id"), tr.name)
  }

  function MetricRecord(md: MetricData): Value {
    Object([
      ("name", md.name),
      ("score", md.score),
      ("threshold", md.threshold),
      ("success", md.success),
      ("reason", md.reason),
      ("evaluation_model", md.evaluationModel),
      ("evaluation_cost", md.evaluationCost),
      ("error", md.error)])
  }

  /** A metric entry has the eight keys of a metric datum, each copied from it. */
  lemma MetricRecordFields(md: MetricData)
    ensures var fs := MetricRecord(md).fields;
      && OrderedMap.Keys(fs) == ["name", "score", "threshold", "success", "reason",
                                 "evaluation_model", "evaluation_cost", "error"]
      && Lookup(fs, "name") == md.name
      && Lookup(fs, "score") == md.score
      && Lookup(fs, "threshold") == md.threshold
      && Lookup(fs, "success") == md.success
      && Lookup(fs, "reason") == md.reason
      && Lookup(fs, "evaluation_model") == md.evaluationModel
      && Lookup(fs, "evaluation_cost") == md.evaluationCost
      && Lookup(fs, "error") == md.error
  {
    var fs := MetricRecord(md).fields;
    assert OrderedMap.Keys(fs) == ["name", "score", "threshold", "success", "reason",
                                   "evaluation_model", "evaluation_cost", "error"];
    assert OrderedMap.Distinct(OrderedMap.Keys(fs));
    OrderedMap.GetEntry(fs, 0);
    OrderedMap.GetEntry(fs, 1);
    OrderedMap.GetEntry(fs, 2);
    OrderedMap.GetEntry(fs, 3);
    OrderedMap.GetEntry(fs, 4);
    OrderedMap.GetEntry(fs, 5);
    OrderedMap.GetEntry(fs, 6);
    OrderedMap.GetEntry(fs, 7);
  }

  /** `getattr(tr, "metrics_data", []) or []`. */
  function MetricsOf(tr: TestResult): seq<MetricData> {
    tr.metricsData.GetOr([])
  }

  /** The record of one result; v2 (`withMetadata`) also copies the metadata mapping. */
  function Record(tr: TestResult, withMetadata: bool, metrics: seq<Value>): Value {
    Object([
      ("requirement_id", RequirementId(tr)),
      ("success", tr.success),
      ("input", tr.input),
      ("actual_output", tr.actualOutput),
      ("metrics", List(metrics))]
      + (if withMetadata then [("additional_metadata", Object(MetaOf(tr)))] else []))
  }

  function MetricRecords(mds: seq<MetricData>): (ms: seq<Value>)
    ensures |ms| == |mds|
  {
    seq(|mds|, j requires 0 <= j < |mds| => MetricRecord(mds[j]))
  }

  function RecordOf(tr: TestResult, withMetadata: bool): Value {
    Record(tr, withMetadata, MetricRecords(MetricsOf(tr)))
  }

  /** `sum(1 for tr in test_results if getattr(tr, "success", False))`. */
  function CountPassed(rs: seq<TestResult>): (n: nat)
    ensures n <= |rs|
    ensures n == |rs| <==> forall i :: 0 <= i < |rs| ==> Truthy(rs[i].success)
  {
    if rs == [] then 0
    else
      var rest := CountPassed(rs[1..]);
      assert forall i :: 1 <= i < |rs| ==> rs[i] == rs[1..][i - 1];
      (if Truthy(rs[0].success) then 1 else 0) + rest
  }

  /** `sum(1 for tr in test_results if not getattr(tr, "success", False))`. */
  function CountFailed(rs: seq<TestResult>): (n: nat)
    ensures n <= |rs|
    ensures n == 0 <==> forall i :: 0 <= i < |rs| ==> Truthy(rs[i].success)
  {
    if rs == [] then 0
    else
      var rest := CountFailed(rs[1..]);
      assert forall i :: 1 <= i < |rs| ==> rs[i] == rs[1..][i - 1];
      (if Truthy(rs[0].success) then 0 else 1) + rest
  }

  /** Every result counts exactly once, as passed or as failed. */
  lemma {:induction false} PassedPlusFailed(rs: seq<TestResult>)
    ensures CountPassed(rs) + CountFailed(rs) == |rs|
  {
    if rs != [] {
      PassedPlusFailed(rs[1..]);
    }
  }

  function Summary(rs: seq<TestResult>): Value {
    Object([("total", Int(|rs|)), ("passed", Int(CountPassed(rs))), ("failed", Int(CountFailed(rs)))])
  }

  /** The report `serialize_results` returns: the summary, then one record per result. */
  function Report(rs: seq<TestResult>, withMetadata: bool): Value {
    Object([
      ("summary", Summary(rs)),
      ("test_results", List(seq(|rs|, i requires 0 <= i < |rs| => RecordOf(rs[i], withMetadata))))])
  }

  /** `serialize_results`: the loops over results and their metrics that build the report. */
  method SerializeResults(rs: seq<TestResult>, withMetadata: bool) returns (out: Value)
    ensures out == Report(rs, withMetadata)
  {
    var records: seq<Value> := [];
    for i := 0 to |rs|
      invariant records == seq(i, k requires 0 <= k < i => RecordOf(rs[k], withMetadata))
    {
      var tr := rs[i];
      var mds := MetricsOf(tr);
      var metrics: seq<Value> := [];
      for j := 0 to |mds|
        invariant metrics == MetricRecords(mds[..j])
      {
        assert mds[..j + 1][..j] == mds[..j];
        metrics := metrics + [MetricRecord(mds[j])];
      }
      assert mds[..|mds|] == mds;
      records := records + [Record(tr, withMetadata, metrics)];
    }
    out := Object([("summary", Summary(rs)), ("test_results", List(records))]);
  }

  /**
   * The summary's counts add up: `failed` is `total` minus `passed`, and nothing failed exactly
   * when every result's success is truthy.
   */
  lemma SummaryCounts(rs: seq<TestResult>, withMetadata: bool)
    ensures var s := Lookup(Report(rs, withMetadata).fields, "summary").fields;
      && Lookup(s, "total") == Int(|rs|)
      && Lookup(s, "passed").Int? && Lookup(s, "failed").Int?
      && Lookup(s, "failed").i == |rs| - Lookup(s, "passed").i
      && (Lookup(s, "failed").i == 0 <==> forall i :: 0 <= i < |rs| ==> Truthy(rs[i].success))
  {
    PassedPlusFailed(rs);
    LookupFirst(Summary(rs).fields, 1);
    LookupFirst(Summary(rs).fields, 2);
  }

  /**
   * One record per result, in order: record `i` names the ID from result `i`'s metadata when it is
   * truthy and the result's name otherwise, copies its input and actual output, and carries its
   * metrics one for one.
   */
  lemma ReportRecords(rs: seq<TestResult>, withMetadata: bool, i: nat)
    requires i < |rs|
    ensures var recs := Lookup(Report(rs, withMetadata).fields, "test_results");
      && recs.List? && |recs.items| == |rs|
      && recs.items[i].Object?
      && var rec := recs.items[i].fields;
      && Lookup(rec, "requirement_id") ==
           (if Truthy(Lookup(MetaOf(rs[i]), "requirement_id")) then Lookup(MetaOf(rs[i]), "requirement_id")
            else rs[i].name)
      && Lookup(rec, "success") == rs[i].success
      && Lookup(rec, "input") == rs[i].input
      && Lookup(rec, "actual_output") == rs[i].actualOutput
      && Lookup(rec, "metrics").List?
      && |Lookup(rec, "metrics").items| == |MetricsOf(rs[i])|
      && (forall j :: 0 <= j < |MetricsOf(rs[i])| ==>
            Lookup(rec, "metrics").items[j] == MetricRecord(MetricsOf(rs[i])[j]))
      && (withMetadata <==> HasKey(rec, "additional_metadata"))
  {
    LookupFirst(Report(rs, withMetadata).fields, 1);
    RecordOfSpec(rs[i], withMetadata);
  }

  /**
   * The record of one result: its ID, success, input and actual output, one entry per metric
   * datum in order, and, for v2 only, its metadata.
   */
  lemma RecordOfSpec(tr: TestResult, withMetadata: bool)
    ensures var rec := RecordOf(tr, withMetadata).fields;
      && Lookup(rec, "requirement_id") ==
           (if Truthy(Lookup(MetaOf(tr), "requirement_id")) then Lookup(MetaOf(tr), "requirement_id") else tr.name)
      && Lookup(rec, "success") == tr.success
      && Lookup(rec, "input") == tr.input
      && Lookup(rec, "actual_output") == tr.actualOutput
      && Lookup(rec, "metrics").List?
      && |Lookup(rec, "metrics").items| == |MetricsOf(tr)|
      && (forall j :: 0 <= j < |MetricsOf(tr)| ==>
            Lookup(rec, "metrics").items[j] == MetricRecord(MetricsOf(tr)[j]))
      && (withMetadata <==> HasKey(rec, "additional_metadata"))
  {
    ResultRecordFields(RequirementId(tr), tr.success, tr.input, tr.actualOutput, List(MetricRecords(MetricsOf(tr))),
                       if withMetadata then Some(Object(MetaOf(tr))) else None);
  }

  /** Looking up each key of a result record literal finds the value written beside it. */
  lemma ResultRecordFields(id: Value, success: Value, input: Value, output: Value, metrics: Value, meta: Option<Value>)
    ensures var rec := [("requirement_id", id), ("success", success), ("input", input),
                        ("actual_output", output), ("metrics", metrics)]
                       + (if meta.Some? then [("additional_metadata", meta.value)] else []);
      && Lookup(rec, "requirement_id") == id
      && Lookup(rec, "success") == success
      && Lookup(rec, "input") == input
      && Lookup(rec, "actual_output") == output
      && Lookup(rec, "metrics") == metrics
      && (meta.Some? <==> HasKey(rec, "additional_metadata"))
      && (meta.Some? ==> Lookup(rec, "additional_metadata") == meta.value)
  {
    var base := [("requirement_id", id), ("success", success), ("input", input),
                 ("actual_output", output), ("metrics", metrics)];
    BaseRecordFields(base, id, success, input, output, metrics);
    if meta.Some? {
      MetaRecordField(base, meta.value);
    } else {
      assert base + [] == base;
    }
  }

  /** The five entries every result record starts with, looked up one by one. */
  lemma BaseRecordFields(base: Fields, id: Value, success: Value, input: Value, output: Value, metrics: Value)
    requires base == [("requirement_id", id), ("success", success), ("input", input),
                      ("actual_output", output), ("metrics", metrics)]
    ensures Lookup(base, "requirement_id") == id && Lookup(base, "success") == success
    ensures Lookup(base, "input") == input && Lookup(base, "actual_output") == output
    ensures Lookup(base, "metrics") == metrics && !HasKey(base, "additional_metadata")
  {
    assert OrderedMap.Keys(base) == ["requirement_id", "success", "input", "actual_output", "metrics"];
    assert OrderedMap.Distinct(OrderedMap.Keys(base));
    OrderedMap.GetEntry(base, 0);
    OrderedMap.GetEntry(base, 1);
    OrderedMap.GetEntry(base, 2);
    OrderedMap.GetEntry(base, 3);
    OrderedMap.GetEntry(base, 4);
    NoMetadataKey(OrderedMap.Keys(base));
  }

  lemma NoMetadataKey(ks: seq<string>)
    requires ks == ["requirement_id", "success", "input", "actual_output", "metrics"]
    ensures "additional_metadata" !in ks
  {
  }

  /** Appending the metadata entry to those five keeps their values and adds its own. */
  lemma MetaRecordField(base: Fields, meta: Value)
    requires |base| == 5 && !HasKey(base, "additional_metadata")
    ensures var rec := base + [("additional_metadata", meta)];
      && Lookup(rec, "requirement_id") == Lookup(base, "requirement_id")
      && Lookup(rec, "success") == Lookup(base, "success")
      && Lookup(rec, "input") == Lookup(base, "input")
      && Lookup(rec, "actual_output") == Lookup(base, "actual_output")
      && Lookup(rec, "metrics") == Lookup(base, "metrics")
      && HasKey(rec, "additional_metadata")
      && Lookup(rec, "additional_metadata") == meta
  {
    var e := ("additional_metadata", meta);
    var rec := base + [e];
    LookupAppend(base, e, "requirement_id");
    LookupAppend(base, e, "success");
    LookupAppend(base, e, "input");
    LookupAppend(base, e, "actual_output");
    LookupAppend(base, e, "metrics");
    assert OrderedMap.Keys(rec)[5] == "additional_metadata";
    assert forall j :: 0 <= j < 5 ==> rec[j].0 == OrderedMap.Keys(base)[j];
    LookupFirst(rec, 5);
  }

  /**
   * A result that carries the metadata of a case built here is reported under that case's ID:
   * the requirement's own ID, or OVERALL.
   */
  lemma ReportedIdOfCase(c: TestCase, tr: TestResult, withMetadata: bool, id: string)
    requires tr.metadata == Some(c.metadata)
    requires Lookup(c.metadata, "requirement_id") == Str(id) && id != ""
    ensures Lookup(RecordOf(tr, withMetadata).fields, "requirement_id") == Str(id)
    ensures withMetadata ==> Lookup(RecordOf(tr, withMetadata).fields, "additional_metadata") == Object(c.metadata)
  {
    ResultRecordFields(RequirementId(tr), tr.success, tr.input, tr.actualOutput, List(MetricRecords(MetricsOf(tr))),
                       if withMetadata then Some(Object(MetaOf(tr))) else None);
  }
}
