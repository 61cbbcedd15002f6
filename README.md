# AIDD evaluation and requirements tooling, modelled in Dafny

AIDD keeps a project's requirements either as one Markdown document (version 1) or as one YAML
file per requirement, such as `FR-001.yaml` (version 2). This project models the tools built
around those requirements:

- **Evaluation harnesses** (`evaluate_requirements_v1.py`, `evaluate_requirements_v2.py`). They
  cut the requirements into one block per requirement ID and build one LLM test case per
  requirement, plus one `OVERALL` case for coverage. They then serialise the evaluation results
  into a JSON report with a pass/fail summary.
- **Schema validator** (`validate_requirements.py`). It removes the `allOf` branches that depend
  on Ajv's `$data` extension, validates every `FR-xxx`/`AR-xxx` YAML file, adds a business-rule
  check (`meta.run_id` must equal `id`), prints a per-file report and exits with 0 or 1.
- **Meta stamper** (`stampingMeta.py`). It writes `run_id`, `prompt_id`, `timestamp`, `model` and
  a placeholder `output_hash` into a requirement file's `meta`. It then hashes the written file
  with an external script, writes the hash in, and checks the result.
- **Dashboard converter** (`dashboard_generator.py`). It turns whatever shape the evaluation
  results have into the `testCases` document a dashboard template expects, with a PASS/FAIL
  verdict and up to eight findings per case.

How the modules are laid out:

- `wrappers.dfy`: `Option` and `Result`.
- `text.dfy`: Python string behaviour the tools rely on, written out. This covers `str.strip`
  over the full `str.isspace` set, `str.join`, decimal rendering and `:03d` padding, and sorting
  by name.
- `ordered_map.dfy`: a Python `dict` as an insertion-ordered sequence of pairs.
- `json.dfy`: a JSON/YAML value, Python truthiness, `or`, `type(v).__name__`, `==` between values,
  and nested lookup.
- The other modules, one per tool:
  - `requirements_markdown.dfy`: the version 1 splitter.
  - `requirements_yaml.dfy`: the version 2 loader and canonical text.
  - `eval_harness.dfy`: test-case assembly and result serialisation, shared by both versions.
  - `schema_validation.dfy`, `meta_stamping.dfy`, `dashboard.dfy`.

Loops in the source are modelled as Dafny methods with loops. Each one is proved equal to a
specification function, and the function's properties are proved as lemmas. The stamper
rewrites a file in place, so it is a class whose `Stamp` method changes the file's document and
its write history.

Several things are parameters, because they are behaviour the model cannot see:

- Python's `str`/`repr` of floats, lists and mappings (`repr`, `pyRepr`).
- `float()` of a string (`parseFloat`) and `:.2f` formatting (`fixed2`).
- The JSON Schema engine (`validate`).
- The hash script (`hashTool`).
- The clock (`timestamp`).
- Directory listings, given as name/document pairs (`dir`).

## Model

| member | source | states |
|---|---|---|
| RequirementsMarkdown.ParseRequirementsById | deepeval/evaluate_requirements_v1.py:48-60 | fails exactly when no line of the text has the anchored `ID: XX-999` shape; otherwise returns the dict built from the blocks in match order, whose keys are the matched IDs with duplicates kept at first position, and every block contains its own ID |
| RequirementsMarkdown.MatchAtSound | deepeval/evaluate_requirements_v1.py:49 | a match the scanner reports at position i has the regex's shape: `ID:` on the line that starts at i, optional whitespace (line ends included), two upper-case letters, `-`, three digits, and only whitespace up to the end of the line |
| RequirementsMarkdown.MatchAtComplete | deepeval/evaluate_requirements_v1.py:49 | whenever the regex's shape occurs on the line that starts at i, the scanner reports a match there (it misses no anchor) |
| RequirementsMarkdown.Scan | deepeval/evaluate_requirements_v1.py:50 | `finditer` from a position yields non-overlapping matches in increasing order, each at a line start at or after that position with its ID after it |
| RequirementsMarkdown.AnchorsEmptyIffNoShape | deepeval/evaluate_requirements_v1.py:49-52 | the scan of the whole text finds no match exactly when no line has the anchor shape, so the "no IDs" error is raised exactly when the regex matches nowhere |
| RequirementsMarkdown.SegmentStep | deepeval/evaluate_requirements_v1.py:55-59 | one loop iteration: the block runs from this match's start to the next match's start (or the end of the text), and storing its stripped text under the ID extends the dict of the first n blocks |
| RequirementsMarkdown.SegmentContainsId | deepeval/evaluate_requirements_v1.py:56-59 | each stripped block still contains the ID it is stored under |
| RequirementsMarkdown.ParsedDictionary | deepeval/evaluate_requirements_v1.py:54-60 | the result's keys are the matched IDs without repeats, in first-occurrence order, and each value contains its key |
| RequirementsMarkdown.DuplicateIdKeepsLastBlock | deepeval/evaluate_requirements_v1.py:59 | an ID matched twice maps to the block of its last match; an ID never matched is absent |
| RequirementsMarkdown.TailEndSpec | deepeval/evaluate_requirements_v1.py:49 | the trailing `\s*$` succeeds exactly when the rest of the line is whitespace |
| EvalHarness.AssembleTestCases | deepeval/evaluate_requirements_v1.py:122-152 | one case per requirement in dict order, then the OVERALL case last |
| EvalHarness.UnitCaseSpec | deepeval/evaluate_requirements_v1.py:124-139 | a requirement's case has the requirement text as actual output, the planning document as context and retrieval context, its ID (and, in version 2, its meta) as metadata, and an input that contains the planning document, the checklist, the ID and the text |
| EvalHarness.OverallCaseSpec | deepeval/evaluate_requirements_v1.py:141-152 | the OVERALL case is tagged `OVERALL`; its actual output is the `---`-prefixed join of all requirement texts and contains each of them, as does its input |
| EvalHarness.PrepareV1 | deepeval/evaluate_requirements_v1.py:119-152 | fails exactly when no line has the anchor shape; otherwise one case per parsed block plus OVERALL, each block's case carrying that block, which contains its ID |
| EvalHarness.CountPassed | deepeval/evaluate_requirements_v1.py:174 | the passed count is at most the total, and equals it exactly when every result's `success` is truthy |
| EvalHarness.CountFailed | deepeval/evaluate_requirements_v1.py:175 | the failed count is zero exactly when every result's `success` is truthy |
| EvalHarness.PassedPlusFailed | deepeval/evaluate_requirements_v1.py:171-177 | passed + failed == total |
| EvalHarness.SerializeResults | deepeval/evaluate_requirements_v1.py:168-207 | the loop builds exactly the report document (summary, then one record per result in order) |
| EvalHarness.SummaryCounts | deepeval/evaluate_requirements_v1.py:171-177 | the summary's total is the number of results, failed = total - passed, and failed is 0 exactly when all succeeded |
| EvalHarness.ReportRecords | deepeval/evaluate_requirements_v1.py:180-205 | one record per result, in order: `requirement_id` is the metadata's ID when truthy, else the result's name; `success`, `input` and `actual_output` are copied; metric entry j is the eight-key record of metric datum j |
| EvalHarness.MetricRecordFields | deepeval/evaluate_requirements_v1.py:194-203 | a metric entry has the keys name, score, threshold, success, reason, evaluation_model, evaluation_cost and error, in that order, each copied from the metric datum |
| EvalHarness.RecordOfSpec | deepeval/evaluate_requirements_v2.py:219-245 | a single record: the ID, `success`, `input` and `actual_output`, metric entry j built from metric datum j, and `additional_metadata` present exactly in the version 2 layout |
| EvalHarness.ReportedIdOfCase | deepeval/evaluate_requirements_v2.py:220-229 | a result that carries a test case's metadata is reported under that case's requirement ID, with the metadata copied in version 2 |
| RequirementsYaml.LoadRequirements | deepeval/evaluate_requirements_v2.py:48-73 | the loop returns exactly the loader's specification: an error when there are no targets or a file is not a mapping, otherwise the dict keyed by `id or stem` |
| RequirementsYaml.TargetsSpec | deepeval/evaluate_requirements_v2.py:53-55 | the targets are exactly the directory's `FR-*.yaml` and `AR-*.yaml` files, sorted by name |
| RequirementsYaml.KeyedStep | deepeval/evaluate_requirements_v2.py:65-71 | one iteration stores the file's mapping under its key, extending the dict of the files before it |
| RequirementsYaml.LoadedFails | deepeval/evaluate_requirements_v2.py:66-69 | the first target whose root is not a mapping is the error reported |
| RequirementsYaml.LoadedSucceeds | deepeval/evaluate_requirements_v2.py:65-73 | with targets, all of them mappings, the result is the dict of (key, mapping) pairs in target order |
| RequirementsYaml.LoadedErrors | deepeval/evaluate_requirements_v2.py:57-69 | "no targets" exactly when no file matches; a not-a-mapping error names a target preceded only by mappings; success exactly when some file matches and every matching file is a mapping |
| RequirementsYaml.LoadedDictionary | deepeval/evaluate_requirements_v2.py:65-73 | the keys are the files' keys without repeats; a repeated key holds the mapping of the last file with that key; other keys are absent |
| RequirementsYaml.KeyOfCases | deepeval/evaluate_requirements_v2.py:70-71 | the key is `str(id)` when `id` is truthy, and otherwise the file name without `.yaml` |
| RequirementsYaml.JoinListCases | deepeval/evaluate_requirements_v2.py:78-84 | a missing or falsy list gives `- (none)`, a non-list gives `- (invalid type: <type>)`, and a list gives one `- item` line per element |
| RequirementsYaml.JoinListLayout | deepeval/evaluate_requirements_v2.py:84 | a truthy list is non-empty and renders as its `- x` lines (one per element, in element order) laid out one after another: each line at its own start, one line break after every line but the last, the last line ending the text |
| RequirementsYaml.SectionsStartWithTitles | deepeval/evaluate_requirements_v2.py:87-102 | each section begins with its title |
| RequirementsYaml.CanonicalHasTitle | deepeval/evaluate_requirements_v2.py:86-104 | every title survives the join and the final strip |
| RequirementsYaml.CanonicalLayout | deepeval/evaluate_requirements_v2.py:86-104 | the text is the fifteen sections joined by blank lines, each one in full followed by `"\n\n"`, except the last, which loses only its trailing whitespace and keeps its `TBD:` title |
| RequirementsYaml.MissingScalarSection | deepeval/evaluate_requirements_v2.py:87-92 | a missing scalar field renders as the empty string, so its section is its title and a space |
| RequirementsYaml.CanonicalTitlesInOrder | deepeval/evaluate_requirements_v2.py:86-104 | the fifteen titles occur in the canonical text in the source's fixed order, each ending before the next begins |
| RequirementsYaml.CanonicalStartsWithId | deepeval/evaluate_requirements_v2.py:87-104 | the canonical text always starts with `ID: ` |
| RequirementsYaml.CanonicalDependsOnListedKeys | deepeval/evaluate_requirements_v2.py:76-104 | two requirements that agree on the fifteen listed keys have the same canonical text (all other keys are ignored) |
| RequirementsYaml.PrepareV2 | deepeval/evaluate_requirements_v2.py:160-195 | fails exactly when loading fails, with the same error; otherwise one case per loaded requirement, in dict order, then OVERALL; each case is the requirement's unit case: its canonical text as actual output, the planning document as context and retrieval context, an input holding the planning document, the checklist, the key and the text, and metadata carrying the key and `meta` (or `{}` when `meta` is not a mapping) |
| SchemaValidation.ContainsDataConstSound | requirements/JsonScheme/validate_requirements.py:50-62 | when the search answers yes, some path inside the value leads to a `const` entry whose value is a mapping with `$data` |
| SchemaValidation.ContainsDataConstComplete | requirements/JsonScheme/validate_requirements.py:50-62 | whenever such a path exists, the search answers yes |
| SchemaValidation.Filtered | requirements/JsonScheme/validate_requirements.py:33-39 | the kept branches are exactly the `allOf` items that hold no `$data` const, and none is added |
| SchemaValidation.FilteredAppend | requirements/JsonScheme/validate_requirements.py:35-39 | filtering works item by item: filtering a concatenation concatenates the filtered parts |
| SchemaValidation.StripAllOf | requirements/JsonScheme/validate_requirements.py:22-47 | the loop computes the stripped schema |
| SchemaValidation.StrippedSpec | requirements/JsonScheme/validate_requirements.py:22-47 | a non-mapping, or a schema whose `allOf` is not a list, is unchanged; other keys are untouched; `allOf` becomes the kept list, or disappears when nothing is kept (never an empty list) |
| SchemaValidation.StrippedIdempotent | requirements/JsonScheme/validate_requirements.py:22-47 | stripping twice is stripping once |
| SchemaValidation.ExtraChecksSpec | requirements/JsonScheme/validate_requirements.py:65-77 | a non-mapping gets the structure message; otherwise there is an error exactly when `id` and `meta.run_id` are both non-null and unequal, and the message shows both values |
| SchemaValidation.RenderPath | requirements/JsonScheme/validate_requirements.py:111 | a rendered error path always starts with `$` |
| SchemaValidation.RenderStepsRoundTrip | requirements/JsonScheme/validate_requirements.py:111 | for keys without `.` or `[`, parsing a rendered path gives back its steps |
| SchemaValidation.RenderPathInjective | requirements/JsonScheme/validate_requirements.py:111 | two such paths that render alike are the same path |
| SchemaValidation.RequirementFileNameInGlob | requirements/JsonScheme/validate_requirements.py:19 | of the names the file-name regex accepts, the `*.y*ml` glob keeps exactly the plain `(FR|AR)-ddd.ya?ml` ones and drops those ending in a line break |
| SchemaValidation.TrailingBreakAccepted | requirements/JsonScheme/validate_requirements.py:19 | the regex's `$` accepts `FR-001.yaml` followed by a line break, a name the glob does not return |
| SchemaValidation.TargetsSpec | requirements/JsonScheme/validate_requirements.py:89 | the targets, those the glob returns and the regex accepts, are exactly the entries named `FR-ddd` or `AR-ddd` with `.yaml` or `.yml`, sorted by name |
| SchemaValidation.FileReportSpec | requirements/JsonScheme/validate_requirements.py:106-117 | a clean file gives one `✅` line; otherwise a `❌` line, the first 20 schema errors in order, then the business-rule message |
| SchemaValidation.ReportsSnoc | requirements/JsonScheme/validate_requirements.py:97-117 | one loop iteration appends the file's report to the output |
| SchemaValidation.ValidateAll | requirements/JsonScheme/validate_requirements.py:80-120 | no targets: the notice is printed and the run returns normally; otherwise the output is the reports in target order, and the exit code is 0 exactly when every file passes |
| MetaStamping.ParseHashOutputSpec | tools/stampingMeta.py:25-28 | no hash exactly when the output is all whitespace; otherwise the hash is non-empty, has no leading or trailing whitespace, and holds no line boundary |
| MetaStamping.ParseHashOutputOfHash | tools/stampingMeta.py:25-28 | a whitespace-free hash followed by whitespace reads back as that hash |
| MetaStamping.ParseHashOutputLastLine | tools/stampingMeta.py:25-28 | whatever comes before it, a last line that holds a hash with no surrounding whitespace and no line boundary, followed only by whitespace, is the hash read back: the last line of the stripped output, itself stripped |
| MetaStamping.UpdatedMetaGet | tools/stampingMeta.py:77-83 | after the update, the five stamped keys hold their new values and every other key keeps its old value |
| MetaStamping.FirstWritePending | tools/stampingMeta.py:73-87 | the first write carries `output_hash: PENDING` |
| MetaStamping.PatchHashOfFirstWrite | tools/stampingMeta.py:91 | patching the hash into the first write is the same as stamping with the hash directly |
| MetaStamping.StampedDocSpec | tools/stampingMeta.py:73-94 | in the final document, `meta` holds the stamped values over the old mapping `meta` (or over nothing), and all other top-level keys are unchanged |
| MetaStamping.AssertMetaPresentSpec | tools/stampingMeta.py:31-48 | the re-check passes exactly when the root and `meta` are mappings, all five keys are present, and `run_id`/`prompt_id` equal the expected ones |
| MetaStamping.StampedPassesCheck | tools/stampingMeta.py:73-97 | a stamped document always passes the re-check |
| MetaStamping.Missing | tools/stampingMeta.py:40-41 | the missing keys are exactly the required keys absent from `meta` |
| MetaStamping.StemOfYaml | tools/stampingMeta.py:71 | the run ID of `BASE.yaml` is `BASE` |
| MetaStamping.RequirementFile.Stamp | tools/stampingMeta.py:58-97 | a missing file or hash script, or a non-mapping root, stops with nothing written; otherwise it does the first write, so the file exists from then on, then stops on a failed or silent hash script, or else writes the hashed document, which passes the re-check and whose hash is returned |
| MetaStamping.RequirementFile.WriteStamps | tools/stampingMeta.py:73-97 | the two writes and the hash step, with the same outcomes as `Stamp` |
| Dashboard.SafeGet | deepeval/option/dashboard_generator.py:7-14 | the walk returns the value at the end of the key path, or the default when some step is not a mapping holding the key |
| Dashboard.DigSucceeds | deepeval/option/dashboard_generator.py:9-13 | a path resolves exactly when every prefix resolves to a mapping that holds the next key |
| Dashboard.CandidatesSpec | deepeval/option/dashboard_generator.py:25-31 | a list is its own candidates; a scalar is wrapped; for a mapping, the first truthy of `test_results` and `results` is iterated; otherwise a `testCases` that is not `None` is iterated whatever its truth value (an empty list, string or mapping gives no candidates, a falsy number is an error), and a missing or `None` one (both look up as `None`) wraps the payload |
| Dashboard.ConvertMetricSpec | deepeval/option/dashboard_generator.py:46-60 | non-mappings are skipped; the name is `name`, else `metric`, else `Metric`; the score is `float` of `score`, else of `value`, else 0.0; the weight is `float` of `weight` when present, else 1.0; the reason is `str` of `reason`, else of `explanation`, else `""`; the conversion fails exactly when `float` of the chosen score or weight fails, the score checked first |
| Dashboard.ConvertMetrics | deepeval/option/dashboard_generator.py:44-60 | the loop converts the metrics; the result has one entry per mapping |
| Dashboard.MetricsWithoutMappings | deepeval/option/dashboard_generator.py:46-48 | a metrics list with no mappings converts to nothing |
| Dashboard.Fails | deepeval/option/dashboard_generator.py:62 | a metric is among the failures exactly when its score is below 0.7 |
| Dashboard.FailsAppend | deepeval/option/dashboard_generator.py:62 | the failures of a concatenation are the failures of its parts, in order; one metric is kept exactly when it scores below 0.7 |
| Dashboard.VerdictSpec | deepeval/option/dashboard_generator.py:64 | FAIL exactly when some score is below 0.7; PASS exactly when none is |
| Dashboard.FindingsSnoc | deepeval/option/dashboard_generator.py:65 | no metrics give no findings; one more metric adds its finding (name, message and score) exactly when it fails and fewer than eight findings have been made |
| Dashboard.SummarySpec | deepeval/option/dashboard_generator.py:63-67 | the summary holds a verdict, at most eight findings (and no more than the metrics), and an empty list of suggestions |
| Dashboard.CaseNameSpec | deepeval/option/dashboard_generator.py:40-41 | the name is the text of a truthy `requirement_id` (a non-empty string as it is), else of a truthy `id`, else `TC-` followed by the case index padded to at least three digits |
| Dashboard.CaseValueSpec | deepeval/option/dashboard_generator.py:69-75 | a case record has the keys name, input, actualOutput, summary and metrics, in that order, with the given values; metrics entry i shows converted metric i |
| Dashboard.MetricValueFields | deepeval/option/dashboard_generator.py:55-60 | a shown metric has the keys name, score, weight and reason, in that order, holding the converted name, score, weight and reason text |
| Dashboard.CaseRecordSpec | deepeval/option/dashboard_generator.py:33-75 | a case that converts has mapping metadata and iterable metrics; its record's name, input, output and summary come from the probes described above, and it has one metrics entry per mapping entry, entry i showing the i-th converted metric |
| Dashboard.BuildCase | deepeval/option/dashboard_generator.py:34-75 | the loop body computes the case record |
| Dashboard.CollectSpec | deepeval/option/dashboard_generator.py:33-75 | the run succeeds exactly when every case succeeds; the first failing case's error is the one raised |
| Dashboard.DashboardJsonSpec | deepeval/option/dashboard_generator.py:22-77 | the output's only key is `testCases`, holding one record per candidate in order, the i-th built with index i+1 |
| Dashboard.ToDashboardJson | deepeval/option/dashboard_generator.py:17-77 | the loop computes the dashboard document, or the first error |

## Left out

- File and directory I/O, YAML and JSON parsing and dumping, `print`, `argparse` and `SystemExit` text. Files are modelled as the values they hold, and a dump followed by a load is assumed to give back the same value.
- The DeepEval library (`evaluate`, the metrics, `LLMTestCase`) and `build_metrics`. The evaluation results are input values; `save_raw_results` only writes a file.
- The JSON Schema engine (`Draft202012Validator.iter_errors`) is a function parameter. Its error order, including the sort by path, is taken as the parameter gives it.
- Python's `str`/`repr` of floats, lists and mappings, `float()` of a string, and `:.2f` are parameters. Scores are exact reals, so floating-point rounding is not modelled.
- `getattr` duck typing on result objects is modelled as record fields with `Null` for a missing attribute.
- `\d` in the ID regexes is ASCII digits only. Python's `\d` also matches other Unicode decimal digits.
- Glob matching is case-sensitive, as on POSIX systems. Windows case-insensitive matching is not modelled.
- The version 2 error for a missing requirements directory, and the debug listing in its "no YAMLs" message, are not modelled. That error is a single `NoTargets` value.
- Values `yaml.safe_load` can make that JSON cannot hold: dates and timestamps (an unquoted `2025-01-01`), `!!set`, `!!binary` and mapping keys that are not strings. `Json.Value` has no case for them, so a file holding one is not represented.
- YAML anchors and aliases. `yaml.safe_load` can make two keys share one mapping, and the stamper's `meta.update` would then change every alias. The model treats documents as trees, so `MetaStamping.StampedDocSpec` does not hold for such a file.
- `float("nan")` and `float("inf")` from a string score or weight cannot be a `real`: `parseFloat` can only give finite values. In Python a NaN score is not below 0.7, so such a metric passes.
- The subprocess call itself, and the `stderr` text in the hash failure message. The hash script's exit code and standard output are what the model sees.
- Dashboard.ConvertMetricSpec: the result is not stated for a `float()` of a huge Python `int`, which overflows. Integers convert exactly.
- Behaviour that may look unintended, modelled as the code does it:
  - Only the schema's top-level `allOf` is filtered. `allOf` lists nested deeper keep their `$data` branches.
  - In the dashboard, a `testCases` that is present, falsy and not `None` is iterated instead of wrapping the payload. An empty list, string or mapping gives no cases, and `0`, `0.0` or `False` is an error.
  - A metric whose `weight` is given as `null` is an error (`float(None)`).
  - A truthy metadata value that is not a mapping is an error at `.get`.
  - The file-name regex's `$` also accepts a name ending in a line break. The glob never returns such a name, so the targets are unaffected.
