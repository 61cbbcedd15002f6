/**
 * Version 2 of the evaluation input: requirements kept as one YAML file each (`FR-001.yaml`,
 * `AR-005.yaml`, ...). The loader keys every parsed record by its `id` (or the file stem), and
 * the canonicaliser renders a record as fixed-order text so that evaluation does not depend on
 * how the YAML happens to be laid out.
 */
module RequirementsYaml {
  import opened Wrappers
  import opened Text
  import opened Json
  import OrderedMap
  import EvalHarness

  /** The keys of the scalar sections, in output order. */
  const ScalarKeys: seq<string> := ["id", "type", "title", "role", "what", "why"]

  /** The keys of the list sections, in output order. */
  const ListKeys: seq<string> := [
    "acceptance_criteria", "exceptions", "logs", "dependencies", "permissions",
    "nfr", "evidence", "changes_from_current", "tbd"]

  /** The title each section starts with: the six scalar sections, then the nine list sections. */
  const Titles: seq<string> := [
    "ID:", "Type:", "Title:", "Role:", "What:", "Why:",
    "Acceptance Criteria:", "Exceptions:", "Logs:", "Dependencies:", "Permissions:",
    "NFR:", "Evidence:", "Changes From Current:", "TBD:"]

  /** `req.get(key, default)`. */
  function GetOr(req: Fields, key: string, default: Value): Value {
    OrderedMap.Get(req, key).GetOr(default)
  }

  /** `f"{req.get(key, '')}"`: a missing key renders as the empty string. */
  function ScalarText(req: Fields, key: string, repr: Value -> string): string {
    AsText(GetOr(req, key, Str("")), repr)
  }

  /** The `- x` lines of a list, in element order. */
  function ItemLines(xs: seq<Value>, repr: Value -> string): (ls: seq<string>)
    ensures |ls| == |xs| && forall i :: 0 <= i < |xs| ==> ls[i] == "- " + AsText(xs[i], repr)
  {
    seq(|xs|, i requires 0 <= i < |xs| => "- " + AsText(xs[i], repr))
  }

  /** `join_list(key)`: `(none)` for a missing or falsy field, a sentinel for a non-list. */
  function JoinList(req: Fields, key: string, repr: Value -> string): string {
    var v := GetOr(req, key, List([]));
    if !Truthy(v) then "- (none)"
    else if !v.List? then "- (invalid type: " + TypeName(v) + ")"
    else Join("\n", ItemLines(v.items, repr))
  }

  /** Section `i` of `lines`: its title, then the field's text or its `- x` lines. */
  function Section(req: Fields, i: nat, repr: Value -> string): string
    requires i < |Titles|
  {
    if i < |ScalarKeys| then Titles[i] + " " + ScalarText(req, ScalarKeys[i], repr)
    else Titles[i] + "\n" + JoinList(req, ListKeys[i - |ScalarKeys|], repr)
  }

  /** The fifteen sections of `lines`, before they are joined. */
  function Sections(req: Fields, repr: Value -> string): (ls: seq<string>)
    ensures |ls| == |Titles| && forall i :: 0 <= i < |Titles| ==> ls[i] == Section(req, i, repr)
  {
    seq(|Titles|, i requires 0 <= i < |Titles| => Section(req, i, repr))
  }

  /** `requirement_to_eval_text`. */
  function CanonicalText(req: Fields, repr: Value -> string): string {
    Strip(Join("\n\n", Sections(req, repr)))
  }

  /**
   * The three ways a list field renders: missing or falsy (`None`, `[]`, `""`, `{}`, `0`, `False`)
   * as the `(none)` line, any other non-list as the `(invalid type: T)` line without failing, and
   * a list as one `- x` line per element, every element's line present.
   */
  lemma JoinListCases(req: Fields, key: string, repr: Value -> string)
    ensures var v := GetOr(req, key, List([]));
      && (!Truthy(v) ==> JoinList(req, key, repr) == "- (none)")
      && (key !in OrderedMap.Keys(req) ==> JoinList(req, key, repr) == "- (none)")
      && (Truthy(v) && !v.List? ==> JoinList(req, key, repr) == "- (invalid type: " + TypeName(v) + ")")
      && (Truthy(v) && v.List? ==>
            forall i :: 0 <= i < |v.items| ==> Contains(JoinList(req, key, repr), "- " + AsText(v.items[i], repr)))
  {
    var v := GetOr(req, key, List([]));
    if Truthy(v) && v.List? {
      forall i | 0 <= i < |v.items|
        ensures Contains(JoinList(req, key, repr), "- " + AsText(v.items[i], repr))
      {
        JoinContainsPart("\n", ItemLines(v.items, repr), i);
      }
    }
  }

  /**
   * A truthy list field renders as its `- x` lines, one per element in element order, laid out
   * one after another: one line break after each but the last, the last ending the text.
   */
  lemma JoinListLayout(req: Fields, key: string, repr: Value -> string)
    ensures var v := GetOr(req, key, List([]));
      Truthy(v) && v.List? ==>
        |v.items| > 0 && LaidOut(JoinList(req, key, repr), "\n", ItemLines(v.items, repr))
  {
    var v := GetOr(req, key, List([]));
    if Truthy(v) && v.List? {
      JoinLayout("\n", ItemLines(v.items, repr));
    }
  }

  /** Where title `i` begins in the rendered text: where section `i` begins in the joined sections. */
  function TitlePos(req: Fields, repr: Value -> string, i: nat): nat
    requires i < |Titles|
  {
    PartStart("\n\n", Sections(req, repr), i)
  }

  /** The rendered text holds the fifteen titles in their fixed order. */
  lemma CanonicalTitlesInOrder(req: Fields, repr: Value -> string)
    ensures forall i :: 0 <= i < |Titles| ==> OccursAt(CanonicalText(req, repr), Titles[i], TitlePos(req, repr, i))
    ensures forall i, j :: 0 <= i < j < |Titles| ==> TitlePos(req, repr, i) + |Titles[i]| < TitlePos(req, repr, j)
  {
    forall i | 0 <= i < |Titles|
      ensures OccursAt(CanonicalText(req, repr), Titles[i], TitlePos(req, repr, i))
    {
      CanonicalTitleAt(req, repr, i);
    }
    forall i, j | 0 <= i < j < |Titles|
      ensures TitlePos(req, repr, i) + |Titles[i]| < TitlePos(req, repr, j)
    {
      SectionsStartWithTitles(req, repr, i);
      PartsInOrder("\n\n", Sections(req, repr), i, j);
    }
  }

  /** Title `i` sits at its position in the joined sections, and stripping keeps it there. */
  lemma CanonicalTitleAt(req: Fields, repr: Value -> string, i: nat)
    requires i < |Titles|
    ensures OccursAt(CanonicalText(req, repr), Titles[i], TitlePos(req, repr, i))
  {
    var parts := Sections(req, repr);
    var joined := Join("\n\n", parts);
    SectionsStartWithTitles(req, repr, i);
    JoinPrefixAt("\n\n", parts, i, Titles[i]);
    SectionsStartWithTitles(req, repr, 0);
    JoinPrefixAt("\n\n", parts, 0, Titles[0]);
    assert joined[0] == Titles[0][0] == 'I';
    TitleNotSpace(i);
    StripKeepsAt(joined, Titles[i], TitlePos(req, repr, i));
  }

  /** No title starts or ends with whitespace. */
  lemma TitleNotSpace(i: nat)
    requires i < |Titles|
    ensures |Titles[i]| > 0 && !IsSpace(Titles[i][0]) && !IsSpace(Titles[i][|Titles[i]| - 1])
  {
    TitleEdges(i);
    UpperNotSpace(Titles[i][0]);
  }

  /** Every title starts with a capital letter and ends with a colon. */
  lemma TitleEdges(i: nat)
    requires i < |Titles|
    ensures |Titles[i]| > 0 && IsAsciiUpper(Titles[i][0]) && Titles[i][|Titles[i]| - 1] == ':'
  {
  }

  /** Section `i` starts with title `i`, so the output lists the sections in the fixed order. */
  lemma SectionsStartWithTitles(req: Fields, repr: Value -> string, i: nat)
    requires i < |Titles|
    ensures var s := Sections(req, repr)[i];
      |Titles[i]| <= |s| && s[..|Titles[i]|] == Titles[i]
  {
    if i < |ScalarKeys| {
      PrefixOfConcat(Titles[i], " ", ScalarText(req, ScalarKeys[i], repr));
    } else {
      PrefixOfConcat(Titles[i], "\n", JoinList(req, ListKeys[i - |ScalarKeys|], repr));
    }
  }

  /** A title followed by anything starts with the title. */
  lemma PrefixOfConcat(t: string, a: string, b: string)
    ensures |t| <= |t + a + b| && (t + a + b)[..|t|] == t
  {
  }

  /** Every section title appears in the rendered text, whatever the record holds. */
  lemma CanonicalHasTitle(req: Fields, repr: Value -> string, i: nat)
    requires i < |Titles|
    ensures Contains(CanonicalText(req, repr), Titles[i])
  {
    JoinedHasTitle(req, repr, i);
    TitleEdges(i);
    UpperNotSpace(Titles[i][0]);
    StripKeepsInfix(Join("\n\n", Sections(req, repr)), Titles[i]);
  }

  /** Every title occurs in the joined sections, before stripping. */
  lemma JoinedHasTitle(req: Fields, repr: Value -> string, i: nat)
    requires i < |Titles|
    ensures Contains(Join("\n\n", Sections(req, repr)), Titles[i])
  {
    var parts := Sections(req, repr);
    SectionsStartWithTitles(req, repr, i);
    assert OccursAt(parts[i], Titles[i], 0);
    JoinContainsPart("\n\n", parts, i);
    ContainsTrans(Join("\n\n", parts), parts[i], Titles[i]);
  }

  /** The rendered text opens with the `ID:` section. */
  lemma CanonicalStartsWithId(req: Fields, repr: Value -> string)
    ensures var c := CanonicalText(req, repr);
      |c| >= 4 && c[..4] == "ID: "
  {
    var ss := Sections(req, repr);
    var init := ss[..|Titles| - 1];
    CanonicalStripsLast(req, repr);
    PrefixOfConcat("ID: ", "", ScalarText(req, "id", repr));
    assert init[0] == "ID:" + " " + ScalarText(req, "id", repr) == "ID: " + "" + ScalarText(req, "id", repr);
    JoinPrefixAt("\n\n", init, 0, "ID: ");
    var j := Join("\n\n", init);
    assert (j + "\n\n" + Strip(ss[|Titles| - 1]))[..4] == j[..4];
  }

  /**
   * The rendered text depends on the fifteen listed keys only: two records that agree on them
   * (whatever other keys, such as `meta`, they carry and in whatever order) render alike.
   */
  lemma CanonicalDependsOnListedKeys(a: Fields, b: Fields, repr: Value -> string)
    requires forall k :: k in ScalarKeys || k in ListKeys ==> OrderedMap.Get(a, k) == OrderedMap.Get(b, k)
    ensures CanonicalText(a, repr) == CanonicalText(b, repr)
  {
    forall i | 0 <= i < |ScalarKeys| + |ListKeys| ensures Sections(a, repr)[i] == Sections(b, repr)[i] {
      if i < |ScalarKeys| {
        assert ScalarKeys[i] in ScalarKeys;
      } else {
        assert ListKeys[i - |ScalarKeys|] in ListKeys;
      }
    }
    assert Sections(a, repr) == Sections(b, repr);
  }

  /**
   * The rendered text is the fifteen sections joined by blank lines, the last one with its
   * trailing whitespace removed: the final strip cuts nothing before the `TBD:` title, and every
   * section but the last is followed by `"\n\n"` in full.
   */
  lemma CanonicalLayout(req: Fields, repr: Value -> string)
    ensures var ss := Sections(req, repr);
      var last := Strip(ss[|Titles| - 1]);
      && CanonicalText(req, repr) == Join("\n\n", ss[..|Titles| - 1] + [last])
      && LaidOut(CanonicalText(req, repr), "\n\n", ss[..|Titles| - 1] + [last])
      && |Titles[|Titles| - 1]| <= |last| && last == ss[|Titles| - 1][..|last|]
  {
    var ss := Sections(req, repr);
    var init := ss[..|Titles| - 1];
    var last := Strip(ss[|Titles| - 1]);
    CanonicalStripsLast(req, repr);
    JoinSnoc("\n\n", init, last);
    JoinLayout("\n\n", init + [last]);
  }

  /** The final strip removes only the trailing whitespace of the last section. */
  lemma CanonicalStripsLast(req: Fields, repr: Value -> string)
    ensures var ss := Sections(req, repr);
      var last := Strip(ss[|Titles| - 1]);
      && CanonicalText(req, repr) == Join("\n\n", ss[..|Titles| - 1]) + "\n\n" + last
      && |Titles[|Titles| - 1]| <= |last| && last == ss[|Titles| - 1][..|last|]
  {
    var ss := Sections(req, repr);
    SectionsStartWithTitles(req, repr, 0);
    SectionsStartWithTitles(req, repr, |Titles| - 1);
    StripSections(ss);
  }

  /** Sections that open with `I` and close with a `TBD:`-headed one lose only trailing whitespace. */
  lemma StripSections(ss: seq<string>)
    requires |ss| == |Titles|
    requires |Titles[0]| <= |ss[0]| && ss[0][..|Titles[0]|] == Titles[0]
    requires |Titles[|ss| - 1]| <= |ss[|ss| - 1]| && ss[|ss| - 1][..|Titles[|ss| - 1]|] == Titles[|ss| - 1]
    ensures var last := Strip(ss[|ss| - 1]);
      && Strip(Join("\n\n", ss)) == Join("\n\n", ss[..|ss| - 1]) + "\n\n" + last
      && |Titles[|ss| - 1]| <= |last| && last == ss[|ss| - 1][..|last|]
  {
    var tbd := ss[|ss| - 1];
    assert ss[0][0] == 'I' && tbd[0] == 'T' && tbd[3] == ':';
    StripJoin("\n\n", ss);
    StripEndBound(tbd, 4);
  }

  /** A missing scalar field renders as the empty string, so its section is the title and a space. */
  lemma MissingScalarSection(req: Fields, i: nat, repr: Value -> string)
    requires i < |ScalarKeys| && !HasKey(req, ScalarKeys[i])
    ensures ScalarText(req, ScalarKeys[i], repr) == ""
    ensures Sections(req, repr)[i] == Titles[i] + " "
  {
  }

  /** A file in the requirements directory: its name and what `yaml.safe_load` made of it. */
  type Entry = (string, Value)

  /** `glob(prefix + "*.yaml")`: the name starts with the prefix and ends in `.yaml`. */
  predicate GlobMatch(prefix: string, name: string) {
    |prefix| + 5 <= |name| && name[..|prefix|] == prefix && name[|name| - 5..] == ".yaml"
  }

  predicate IsTarget(name: string) {
    GlobMatch("FR-", name) || GlobMatch("AR-", name)
  }

  /** The directory entries one glob returns, in directory order. */
  function Glob(dir: seq<Entry>, prefix: string): (r: seq<Entry>)
    ensures forall e :: e in r <==> e in dir && GlobMatch(prefix, e.0)
  {
    if dir == [] then []
    else
      var rest := Glob(dir[1..], prefix);
      assert forall e :: e in dir <==> e == dir[0] || e in dir[1..];
      if GlobMatch(prefix, dir[0].0) then [dir[0]] + rest else rest
  }

  /** `sorted(glob("FR-*.yaml") + glob("AR-*.yaml"))`. */
  function Targets(dir: seq<Entry>): seq<Entry> {
    SortByName(Glob(dir, "FR-") + Glob(dir, "AR-"))
  }

  /** The targets are exactly the `FR-*.yaml` and `AR-*.yaml` files, sorted by name. */
  lemma TargetsSpec(dir: seq<Entry>)
    ensures SortedByName(Targets(dir))
    ensures forall e :: e in Targets(dir) <==> e in dir && IsTarget(e.0)
    ensures forall j :: 0 <= j < |Targets(dir)| ==> IsTarget(Targets(dir)[j].0)
  {
    var g := Glob(dir, "FR-") + Glob(dir, "AR-");
    forall e ensures e in Targets(dir) <==> e in g {
      assert e in Targets(dir) <==> e in multiset(Targets(dir));
      assert e in g <==> e in multiset(g);
    }
    forall j | 0 <= j < |Targets(dir)| ensures IsTarget(Targets(dir)[j].0) {
      assert Targets(dir)[j] in Targets(dir);
    }
  }

  /** `f.stem` of a `*.yaml` file: the name without its `.yaml` suffix. */
  function Stem(name: string): string
    requires IsTarget(name)
  {
    name[..|name| - 5]
  }

  /** `str(data.get("id") or f.stem)`. */
  function KeyOf(name: string, data: Fields, repr: Value -> string): string
    requires IsTarget(name)
  {
    AsText(Or(Lookup(data, "id"), Str(Stem(name))), repr)
  }

  datatype LoadError = NoTargets | RootNotMapping(file: string)

  /** The first target whose YAML root is not a mapping, if any. */
  function FirstNonMapping(ts: seq<Entry>): (r: Option<nat>)
    ensures r.Some? ==> r.value < |ts| && !ts[r.value].1.Object? &&
                        forall j :: 0 <= j < r.value ==> ts[j].1.Object?
    ensures r.None? ==> forall j :: 0 <= j < |ts| ==> ts[j].1.Object?
  {
    if ts == [] then None
    else if !ts[0].1.Object? then Some(0)
    else match FirstNonMapping(ts[1..]) {
      case None => None
      case Some(i) => Some(i + 1)
    }
  }

  /** The (key, record) assignments the loading loop performs, in target order. */
  function Keyed(ts: seq<Entry>, repr: Value -> string): (ps: seq<(string, Fields)>)
    requires forall j :: 0 <= j < |ts| ==> IsTarget(ts[j].0) && ts[j].1.Object?
    ensures |ps| == |ts|
  {
    seq(|ts|, j requires 0 <= j < |ts| => (KeyOf(ts[j].0, ts[j].1.fields, repr), ts[j].1.fields))
  }

  /** What `load_requirements_from_yaml_dir` returns or raises for a directory. */
  function Loaded(dir: seq<Entry>, repr: Value -> string): Result<seq<(string, Fields)>, LoadError> {
    var ts := Targets(dir);
    TargetsSpec(dir);
    if ts == [] then Err(NoTargets)
    else match FirstNonMapping(ts) {
      case Some(i) => Err(RootNotMapping(ts[i].0))
      case None => Ok(OrderedMap.FromPairs(Keyed(ts, repr)))
    }
  }

  /** One more iteration of the loading loop is one more assignment `reqs[rid] = data`. */
  lemma KeyedStep(ts: seq<Entry>, i: nat, repr: Value -> string)
    requires i < |ts|
    requires forall j :: 0 <= j < |ts| ==> IsTarget(ts[j].0)
    requires forall j :: 0 <= j <= i ==> ts[j].1.Object?
    ensures OrderedMap.FromPairs(Keyed(ts[..i + 1], repr)) ==
      OrderedMap.Put(OrderedMap.FromPairs(Keyed(ts[..i], repr)), KeyOf(ts[i].0, ts[i].1.fields, repr), ts[i].1.fields)
  {
    var ps := Keyed(ts[..i + 1], repr);
    assert ps[..i] == Keyed(ts[..i], repr);
    OrderedMap.FromPairsSnoc(ps, i);
    assert ps[..i + 1] == ps;
  }

  /** `load_requirements_from_yaml_dir`: the loop over the sorted targets filling `reqs`. */
  method LoadRequirements(dir: seq<Entry>, repr: Value -> string)
    returns (r: Result<seq<(string, Fields)>, LoadError>)
    ensures r == Loaded(dir, repr)
  {
    var targets := Targets(dir);
    TargetsSpec(dir);
    if targets == [] {
      return Err(NoTargets);
    }
    var reqs: seq<(string, Fields)> := [];
    for i := 0 to |targets|
      invariant forall j :: 0 <= j < i ==> targets[j].1.Object?
      invariant reqs == OrderedMap.FromPairs(Keyed(targets[..i], repr))
    {
      var name := targets[i].0;
      var data := targets[i].1;
      if !data.Object? {
        LoadedFails(dir, repr, i);
        return Err(RootNotMapping(name));
      }
      var rid := KeyOf(name, data.fields, repr);
      KeyedStep(targets, i, repr);
      reqs := OrderedMap.Put(reqs, rid, data.fields);
    }
    LoadedSucceeds(dir, repr);
    assert targets[..|targets|] == targets;
    return Ok(reqs);
  }

  /** The loading loop stops at the first target whose root is not a mapping. */
  lemma LoadedFails(dir: seq<Entry>, repr: Value -> string, i: nat)
    requires i < |Targets(dir)| && !Targets(dir)[i].1.Object?
    requires forall j :: 0 <= j < i ==> Targets(dir)[j].1.Object?
    ensures Loaded(dir, repr) == Err(RootNotMapping(Targets(dir)[i].0))
  {
    var r := FirstNonMapping(Targets(dir));
    assert r.Some?;
    assert r.value == i;
  }

  /** With every root a mapping, loading returns the dictionary the assignments build. */
  lemma LoadedSucceeds(dir: seq<Entry>, repr: Value -> string)
    requires Targets(dir) != []
    requires forall j :: 0 <= j < |Targets(dir)| ==> IsTarget(Targets(dir)[j].0) && Targets(dir)[j].1.Object?
    ensures Loaded(dir, repr) == Ok(OrderedMap.FromPairs(Keyed(Targets(dir), repr)))
  {
    TargetsSpec(dir);
    assert FirstNonMapping(Targets(dir)).None?;
  }

  /**
   * Loading fails with `NoTargets` exactly when no `FR-*.yaml`/`AR-*.yaml` file exists, and with
   * `RootNotMapping` naming the first target, in sorted order, whose root is not a mapping.
   */
  lemma LoadedErrors(dir: seq<Entry>, repr: Value -> string)
    ensures Loaded(dir, repr) == Err(NoTargets) <==> forall e :: e in dir ==> !IsTarget(e.0)
    ensures Loaded(dir, repr).Err? && Loaded(dir, repr).error.RootNotMapping? ==>
      exists i :: 0 <= i < |Targets(dir)| && Targets(dir)[i].0 == Loaded(dir, repr).error.file
        && !Targets(dir)[i].1.Object? && forall j :: 0 <= j < i ==> Targets(dir)[j].1.Object?
    ensures Loaded(dir, repr).Ok? <==>
      (exists e :: e in dir && IsTarget(e.0)) && forall e :: e in dir && IsTarget(e.0) ==> e.1.Object?
  {
    TargetsSpec(dir);
    var ts := Targets(dir);
    if ts != [] {
      assert ts[0] in dir && IsTarget(ts[0].0);
    }
    if Loaded(dir, repr).Ok? {
      forall e | e in dir && IsTarget(e.0) ensures e.1.Object? {
        var j :| 0 <= j < |ts| && ts[j] == e;
      }
    }
  }

  /**
   * On success the dictionary holds one record per distinct key, keys in order of first
   * assignment, and each key holds the record of the last target that produced it; a key is
   * the record's `id` when truthy and the file stem otherwise.
   */
  lemma LoadedDictionary(dir: seq<Entry>, repr: Value -> string, k: string)
    requires Loaded(dir, repr).Ok?
    ensures var ts := Targets(dir);
      && (forall j :: 0 <= j < |ts| ==> IsTarget(ts[j].0) && ts[j].1.Object?)
      && var ps := Keyed(ts, repr);
      && OrderedMap.Keys(Loaded(dir, repr).value) == OrderedMap.Dedup(OrderedMap.Keys(ps))
      && OrderedMap.Distinct(OrderedMap.Keys(Loaded(dir, repr).value))
      && (k in OrderedMap.Keys(ps) ==>
            OrderedMap.Get(Loaded(dir, repr).value, k) == Some(ts[OrderedMap.LastIndex(ps, k)].1.fields))
      && (k !in OrderedMap.Keys(ps) ==> OrderedMap.Get(Loaded(dir, repr).value, k) == None)
  {
    TargetsSpec(dir);
    var ts := Targets(dir);
    forall j | 0 <= j < |ts| ensures IsTarget(ts[j].0) {
      assert ts[j] in ts;
    }
    OrderedMap.FromPairsKeys(Keyed(ts, repr));
    OrderedMap.FromPairsGet(Keyed(ts, repr), k);
  }

  /** The key a record gets: its `id` rendered as text when truthy, the file stem otherwise. */
  lemma KeyOfCases(name: string, data: Fields, repr: Value -> string)
    requires IsTarget(name)
    ensures Truthy(Lookup(data, "id")) ==> KeyOf(name, data, repr) == AsText(Lookup(data, "id"), repr)
    ensures Lookup(data, "id").Str? && Lookup(data, "id").s != [] ==> KeyOf(name, data, repr) == Lookup(data, "id").s
    ensures !Truthy(Lookup(data, "id")) ==> KeyOf(name, data, repr) + ".yaml" == name
  {
    assert name[..|name| - 5] + name[|name| - 5..] == name;
  }

  /** `req_obj.get("meta") if isinstance(req_obj.get("meta"), dict) else {}`. */
  function MetaOf(req: Fields): (m: Fields)
    ensures Lookup(req, "meta").Object? ==> m == Lookup(req, "meta").fields
    ensures !Lookup(req, "meta").Object? ==> m == []
  {
    var v := Lookup(req, "meta");
    if v.Object? then v.fields else []
  }

  /** The dictionary `req_map` of v2 as evaluation units. */
  function UnitsOf(reqMap: seq<(string, Fields)>, repr: Value -> string): (us: seq<EvalHarness.Unit>)
    ensures |us| == |reqMap|
  {
    seq(|reqMap|, i requires 0 <= i < |reqMap| =>
      EvalHarness.Unit(reqMap[i].0, CanonicalText(reqMap[i].1, repr), Some(MetaOf(reqMap[i].1))))
  }

  /**
   * v2 up to the evaluation call: load the directory, render every record canonically, then
   * build the cases; each per-requirement case evaluates the canonical text of its record and
   * carries the record's `meta` mapping (or `{}`).
   */
  method PrepareV2(planning: string, checklist: string, dir: seq<Entry>, repr: Value -> string)
    returns (r: Result<seq<EvalHarness.TestCase>, LoadError>)
    ensures r.Err? <==> Loaded(dir, repr).Err?
    ensures r.Err? ==> r.error == Loaded(dir, repr).error
    ensures r.Ok? ==>
      var reqMap := Loaded(dir, repr).value;
      && |r.value| == |reqMap| + 1
      && r.value[|reqMap|] == EvalHarness.OverallCase(planning, UnitsOf(reqMap, repr))
      && forall i :: 0 <= i < |reqMap| ==>
           && r.value[i] == EvalHarness.UnitCase(planning, checklist, UnitsOf(reqMap, repr)[i])
           && r.value[i].actualOutput == CanonicalText(reqMap[i].1, repr)
           && r.value[i].context == [planning] && r.value[i].retrievalContext == [planning]
           && Contains(r.value[i].input, planning) && Contains(r.value[i].input, checklist)
           && Contains(r.value[i].input, reqMap[i].0)
           && Contains(r.value[i].input, CanonicalText(reqMap[i].1, repr))
           && Lookup(r.value[i].metadata, "requirement_id") == Str(reqMap[i].0)
           && Lookup(r.value[i].metadata, "meta") == Object(MetaOf(reqMap[i].1))
  {
    var loaded := LoadRequirements(dir, repr);
    if loaded.Err? {
      return Err(loaded.error);
    }
    var units := UnitsOf(loaded.value, repr);
    var cases := EvalHarness.AssembleTestCases(planning, checklist, units);
    forall i | 0 <= i < |units|
      ensures Lookup(cases[i].metadata, "requirement_id") == Str(units[i].id)
      ensures Lookup(cases[i].metadata, "meta") == Object(units[i].meta.value)
      ensures cases[i].context == [planning] && cases[i].retrievalContext == [planning]
      ensures Contains(cases[i].input, planning) && Contains(cases[i].input, checklist)
      ensures Contains(cases[i].input, units[i].id) && Contains(cases[i].input, units[i].text)
    {
      EvalHarness.UnitCaseSpec(planning, checklist, units[i]);
    }
    return Ok(cases);
  }
}
