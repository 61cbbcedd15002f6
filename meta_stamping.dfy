/**
 * The meta stamper: it records who produced a requirement file and with what (run, prompt,
 * time, model) in the file's `meta` mapping, writes the file with a placeholder hash, hashes
 * the written file with an external script, writes the hash in, and checks the result.
 *
 * The file is modelled by the document it holds (what `yaml.safe_load` reads back from what
 * `yaml.safe_dump` wrote); the hash script is a function from the written document to its exit
 * code and standard output, and the clock is the `timestamp` argument.
 */
module MetaStamping {
  import opened Wrappers
  import opened Text
  import opened Json
  import OrderedMap

  const Model: string := "gpt-5.2"
  const Pending: string := "PENDING"

  /** The keys the stamper writes into `meta`, in the order it writes them. */
  const Required: seq<string> := ["run_id", "prompt_id", "timestamp", "model", "output_hash"]

  /** Every line boundary of `str.splitlines` is whitespace for `str.strip`. */
  lemma BoundaryIsSpace(c: char)
    requires IsLineBoundary(c)
    ensures IsSpace(c)
  {
  }

  /** The index just after the last line boundary of `t`, 0 when there is none. */
  function LastLineStart(t: string): (i: nat)
    ensures i <= |t|
    ensures forall p :: i <= p < |t| ==> !IsLineBoundary(t[p])
    ensures i > 0 ==> IsLineBoundary(t[i - 1])
  {
    if t == [] then 0
    else if IsLineBoundary(t[|t| - 1]) then |t|
    else LastLineStart(t[..|t| - 1])
  }

  /** `run_sha256` after a zero exit: the last line of the stripped output, stripped; `None` if empty. */
  function ParseHashOutput(stdout: string): Option<string> {
    var t := Strip(stdout);
    if t == [] then None else Some(Strip(t[LastLineStart(t)..]))
  }

  /**
   * The hash step fails exactly when the output is blank; otherwise the hash is a single line,
   * non-empty, with no surrounding whitespace.
   */
  lemma ParseHashOutputSpec(stdout: string)
    ensures ParseHashOutput(stdout).None? <==> AllSpace(stdout)
    ensures ParseHashOutput(stdout).Some? ==>
      var h := ParseHashOutput(stdout).value;
      && h != []
      && !IsSpace(h[0]) && !IsSpace(h[|h| - 1])
      && forall p :: 0 <= p < |h| ==> !IsLineBoundary(h[p])
  {
    StripRest(stdout);
    var t := Strip(stdout);
    if t != [] {
      StripEnds(stdout);
      StrippedLastLine(t);
    }
  }

  /** The stripped last line of a text that ends in a non-space character is a non-empty single line. */
  lemma StrippedLastLine(t: string)
    requires t != [] && !IsSpace(t[|t| - 1])
    ensures var h := Strip(t[LastLineStart(t)..]);
      && h != []
      && !IsSpace(h[0]) && !IsSpace(h[|h| - 1])
      && forall p :: 0 <= p < |h| ==> !IsLineBoundary(h[p])
  {
    var i := LastLineStart(t);
    if IsLineBoundary(t[|t| - 1]) {
      BoundaryIsSpace(t[|t| - 1]);
    }
    var line := t[i..];
    assert line[|line| - 1] == t[|t| - 1];
    StripKeepsCore(line, |line| - 1, |line|);
    var h := Strip(line);
    StripEnds(line);
    StripSlice(line);
    SliceNoBoundary(t, i, |t|);
    SliceNoBoundary(line, StripStart(line), StripStart(line) + |h|);
  }

  /** A slice of a stretch without line boundaries has none either. */
  lemma SliceNoBoundary(s: string, a: nat, b: nat)
    requires a <= b <= |s|
    requires forall p :: a <= p < b ==> !IsLineBoundary(s[p])
    ensures forall p :: 0 <= p < b - a ==> !IsLineBoundary(s[a..b][p])
  {
    forall p | 0 <= p < b - a ensures !IsLineBoundary(s[a..b][p]) {
      assert s[a..b][p] == s[a + p];
    }
  }

  /** A one-line hash, followed by any trailing whitespace such as a newline, is read back as is. */
  lemma ParseHashOutputOfHash(h: string, trailing: string)
    requires h != [] && forall p :: 0 <= p < |h| ==> !IsSpace(h[p])
    requires AllSpace(trailing)
    ensures ParseHashOutput(h + trailing) == Some(h)
  {
    var s := h + trailing;
    assert s[0] == h[0] && s[|h| - 1] == h[|h| - 1];
    StripStartBound(s, 0);
    StripEndBound(s, |h|);
    forall k | |h| <= k < |s| ensures IsSpace(s[k]) {
      assert s[k] == trailing[k - |h|];
    }
    StripEndTrailing(s, |h|);
    assert Strip(s) == s[..|h|] == h;
    forall p | 0 <= p < |h| ensures !IsLineBoundary(h[p]) {
      if IsLineBoundary(h[p]) {
        BoundaryIsSpace(h[p]);
      }
    }
    assert LastLineStart(h) == 0;
    StripStartBound(h, 0);
    StripEndBound(h, |h|);
    assert h[0..|h|] == h;
  }

  /** `LastLineStart` finds the index just after a boundary when no boundary follows it. */
  lemma {:induction false} LastLineStartAt(t: string, k: nat)
    requires k <= |t|
    requires forall p :: k <= p < |t| ==> !IsLineBoundary(t[p])
    requires k == 0 || IsLineBoundary(t[k - 1])
    ensures LastLineStart(t) == k
    decreases |t|
  {
    if k < |t| {
      var u := t[..|t| - 1];
      assert forall p :: k <= p < |u| ==> u[p] == t[p];
      if k > 0 {
        assert u[k - 1] == t[k - 1];
      }
      LastLineStartAt(u, k);
    }
  }

  /**
   * Whatever the script prints before it, a last line holding the hash, followed by trailing
   * whitespace such as the final newline, is what is read back: the hash is the last line of
   * the stripped output, itself stripped.
   */
  lemma ParseHashOutputLastLine(pre: string, b: char, h: string, trailing: string)
    requires IsLineBoundary(b)
    requires h != [] && !IsSpace(h[0]) && !IsSpace(h[|h| - 1])
    requires forall p :: 0 <= p < |h| ==> !IsLineBoundary(h[p])
    requires AllSpace(trailing)
    ensures ParseHashOutput(pre + [b] + h + trailing) == Some(h)
  {
    var s := pre + [b] + h + trailing;
    var n := |pre| + 1;
    var j := n + |h|;
    assert s[n] == h[0] && s[j - 1] == h[|h| - 1] && s[n - 1] == b;
    assert s[n..j] == h;
    StripStartBound(s, n);
    StripEndBound(s, j);
    forall q | j <= q < |s| ensures IsSpace(s[q]) {
      assert s[q] == trailing[q - j];
    }
    StripEndTrailing(s, j);
    var i := StripStart(s);
    var t := Strip(s);
    assert t == s[i..j];
    var k := n - i;
    assert t[k..] == h;
    forall p | k <= p < |t| ensures !IsLineBoundary(t[p]) {
      assert t[p] == h[p - k];
    }
    if k > 0 {
      assert t[k - 1] == b;
    }
    LastLineStartAt(t, k);
    StripStartBound(h, 0);
    StripEndBound(h, |h|);
    assert h[0..|h|] == h;
  }

  /** Appending two writes one at a time is appending both. */
  lemma AppendTwo<T>(w: seq<T>, x: T, y: T)
    ensures w + [x] + [y] == w + [x, y]
  {
  }

  /** `safe_load(...) or {}`: an empty file reads as an empty mapping. */
  function InitialDoc(loaded: Value): Value {
    Or(loaded, Object([]))
  }

  /** `data.get("meta")` when it is a mapping, a fresh `{}` otherwise. */
  function BaseMeta(data: Fields): Fields {
    var m := Lookup(data, "meta");
    if m.Object? then m.fields else []
  }

  /** `meta.update({...})` with the five stamped keys, in their order. */
  function UpdatedMeta(meta: Fields, runId: string, promptId: string, timestamp: string, hash: string): Fields {
    var m1 := OrderedMap.Put(meta, "run_id", Str(runId));
    var m2 := OrderedMap.Put(m1, "prompt_id", Str(promptId));
    var m3 := OrderedMap.Put(m2, "timestamp", Str(timestamp));
    var m4 := OrderedMap.Put(m3, "model", Str(Model));
    OrderedMap.Put(m4, "output_hash", Str(hash))
  }

  /** The document of the first write: merged meta with the placeholder hash. */
  function FirstWrite(data: Fields, runId: string, promptId: string, timestamp: string): Fields {
    OrderedMap.Put(data, "meta", Object(UpdatedMeta(BaseMeta(data), runId, promptId, timestamp, Pending)))
  }

  /** `data["meta"]["output_hash"] = h`. */
  function PatchHash(data: Fields, h: string): Fields {
    OrderedMap.Put(data, "meta", Object(OrderedMap.Put(BaseMeta(data), "output_hash", Str(h))))
  }

  /** The stamped meta mapping holds the five stamped values and every other key it had before. */
  lemma UpdatedMetaGet(meta: Fields, runId: string, promptId: string, timestamp: string, hash: string, k: string)
    ensures OrderedMap.Get(UpdatedMeta(meta, runId, promptId, timestamp, hash), k) ==
      if k == "run_id" then Some(Str(runId))
      else if k == "prompt_id" then Some(Str(promptId))
      else if k == "timestamp" then Some(Str(timestamp))
      else if k == "model" then Some(Str(Model))
      else if k == "output_hash" then Some(Str(hash))
      else OrderedMap.Get(meta, k)
  {
    var m1 := OrderedMap.Put(meta, "run_id", Str(runId));
    var m2 := OrderedMap.Put(m1, "prompt_id", Str(promptId));
    var m3 := OrderedMap.Put(m2, "timestamp", Str(timestamp));
    var m4 := OrderedMap.Put(m3, "model", Str(Model));
    OrderedMap.PutGet(meta, "run_id", Str(runId), k);
    OrderedMap.PutGet(m1, "prompt_id", Str(promptId), k);
    OrderedMap.PutGet(m2, "timestamp", Str(timestamp), k);
    OrderedMap.PutGet(m3, "model", Str(Model), k);
    OrderedMap.PutGet(m4, "output_hash", Str(hash), k);
  }

  /**
   * Patching the hash into the first write gives what stamping the hash directly would have
   * written: the second write differs from the first in `meta.output_hash` only.
   */
  lemma PatchHashOfFirstWrite(data: Fields, runId: string, promptId: string, timestamp: string, h: string)
    ensures PatchHash(FirstWrite(data, runId, promptId, timestamp), h) ==
      OrderedMap.Put(data, "meta", Object(UpdatedMeta(BaseMeta(data), runId, promptId, timestamp, h)))
  {
    var meta := BaseMeta(data);
    var pending := UpdatedMeta(meta, runId, promptId, timestamp, Pending);
    var first := FirstWrite(data, runId, promptId, timestamp);
    OrderedMap.PutGet(data, "meta", Object(pending), "meta");
    assert BaseMeta(first) == pending;
    var m4 := OrderedMap.Put(OrderedMap.Put(OrderedMap.Put(OrderedMap.Put(meta, "run_id", Str(runId)),
      "prompt_id", Str(promptId)), "timestamp", Str(timestamp)), "model", Str(Model));
    OrderedMap.PutPut(m4, "output_hash", Str(Pending), Str(h));
    OrderedMap.PutPut(data, "meta", Object(pending), Object(UpdatedMeta(meta, runId, promptId, timestamp, h)));
  }

  /** The five stamped keys of a document's meta, or the reason `assert_meta_present` stops. */
  datatype CheckError =
    | RootNotObject
    | MetaMissing
    | MissingKeys(keys: seq<string>)
    | RunIdMismatch(found: Value)
    | PromptIdMismatch(found: Value)

  /** `[k for k in keys if k not in meta]`. */
  function Missing(keys: seq<string>, meta: Fields): (r: seq<string>)
    ensures forall k :: k in r <==> k in keys && !HasKey(meta, k)
  {
    if keys == [] then []
    else (if HasKey(meta, keys[0]) then [] else [keys[0]]) + Missing(keys[1..], meta)
  }

  /** `assert_meta_present`, applied to the document read back. */
  function AssertMetaPresent(data: Value, runId: string, promptId: string): Result<(), CheckError> {
    if !data.Object? then Err(RootNotObject)
    else
      var meta := Lookup(data.fields, "meta");
      if !meta.Object? then Err(MetaMissing)
      else if Missing(Required, meta.fields) != [] then Err(MissingKeys(Missing(Required, meta.fields)))
      else if !PyEquals(Lookup(meta.fields, "run_id"), Str(runId)) then Err(RunIdMismatch(Lookup(meta.fields, "run_id")))
      else if !PyEquals(Lookup(meta.fields, "prompt_id"), Str(promptId)) then Err(PromptIdMismatch(Lookup(meta.fields, "prompt_id")))
      else Ok(())
  }

  /**
   * The check passes exactly when the document is a mapping whose `meta` is a mapping holding all
   * five keys, with the expected run and prompt IDs.
   */
  lemma AssertMetaPresentSpec(data: Value, runId: string, promptId: string)
    ensures AssertMetaPresent(data, runId, promptId).Ok? <==>
      && data.Object?
      && Lookup(data.fields, "meta").Object?
      && (forall k :: k in Required ==> HasKey(Lookup(data.fields, "meta").fields, k))
      && Lookup(Lookup(data.fields, "meta").fields, "run_id") == Str(runId)
      && Lookup(Lookup(data.fields, "meta").fields, "prompt_id") == Str(promptId)
  {
    if data.Object? && Lookup(data.fields, "meta").Object? {
      var meta := Lookup(data.fields, "meta").fields;
      var m := Missing(Required, meta);
      if m != [] {
        assert m[0] in m;
      }
    }
  }

  /**
   * After a stamp, `meta` holds the run ID, the prompt ID, the time, the model and the hash;
   * every other meta key and every other top-level key is as it was.
   */
  lemma StampedDocSpec(data: Fields, runId: string, promptId: string, timestamp: string, h: string, k: string)
    ensures var stamped := PatchHash(FirstWrite(data, runId, promptId, timestamp), h);
      && Lookup(stamped, "meta").Object?
      && OrderedMap.Get(Lookup(stamped, "meta").fields, k) ==
           (if k == "run_id" then Some(Str(runId))
            else if k == "prompt_id" then Some(Str(promptId))
            else if k == "timestamp" then Some(Str(timestamp))
            else if k == "model" then Some(Str(Model))
            else if k == "output_hash" then Some(Str(h))
            else OrderedMap.Get(BaseMeta(data), k))
      && (k != "meta" ==> OrderedMap.Get(stamped, k) == OrderedMap.Get(data, k))
  {
    var meta := UpdatedMeta(BaseMeta(data), runId, promptId, timestamp, h);
    PatchHashOfFirstWrite(data, runId, promptId, timestamp, h);
    OrderedMap.PutGet(data, "meta", Object(meta), k);
    OrderedMap.PutGet(data, "meta", Object(meta), "meta");
    UpdatedMetaGet(BaseMeta(data), runId, promptId, timestamp, h, k);
  }

  /** The re-check passes on a document whose meta holds the five keys and the expected IDs. */
  lemma CheckPasses(d: Fields, runId: string, promptId: string)
    requires Lookup(d, "meta").Object?
    requires forall r :: r in Required ==> HasKey(Lookup(d, "meta").fields, r)
    requires Lookup(Lookup(d, "meta").fields, "run_id") == Str(runId)
    requires Lookup(Lookup(d, "meta").fields, "prompt_id") == Str(promptId)
    ensures AssertMetaPresent(Object(d), runId, promptId) == Ok(())
  {
    AssertMetaPresentSpec(Object(d), runId, promptId);
  }

  /** The re-check after stamping always passes. */
  lemma StampedPassesCheck(data: Fields, runId: string, promptId: string, timestamp: string, h: string)
    ensures AssertMetaPresent(Object(PatchHash(FirstWrite(data, runId, promptId, timestamp), h)), runId, promptId) == Ok(())
  {
    var meta := UpdatedMeta(BaseMeta(data), runId, promptId, timestamp, h);
    var stamped := OrderedMap.Put(data, "meta", Object(meta));
    PatchHashOfFirstWrite(data, runId, promptId, timestamp, h);
    OrderedMap.PutGet(data, "meta", Object(meta), "meta");
    assert Lookup(stamped, "meta") == Object(meta);
    UpdatedMetaGet(BaseMeta(data), runId, promptId, timestamp, h, "run_id");
    UpdatedMetaGet(BaseMeta(data), runId, promptId, timestamp, h, "prompt_id");
    UpdatedMetaGet(BaseMeta(data), runId, promptId, timestamp, h, "timestamp");
    UpdatedMetaGet(BaseMeta(data), runId, promptId, timestamp, h, "model");
    UpdatedMetaGet(BaseMeta(data), runId, promptId, timestamp, h, "output_hash");
    CheckPasses(stamped, runId, promptId);
  }

  /** The first write carries the placeholder hash. */
  lemma FirstWritePending(data: Fields, runId: string, promptId: string, timestamp: string)
    ensures var first := FirstWrite(data, runId, promptId, timestamp);
      && Lookup(first, "meta").Object?
      && Lookup(Lookup(first, "meta").fields, "output_hash") == Str(Pending)
  {
    var meta := UpdatedMeta(BaseMeta(data), runId, promptId, timestamp, Pending);
    OrderedMap.PutGet(data, "meta", Object(meta), "meta");
    UpdatedMetaGet(BaseMeta(data), runId, promptId, timestamp, Pending, "output_hash");
  }

  /** The index of the last `.` in `s`, if any. */
  function LastDot(s: string): (r: Option<nat>)
    ensures r.Some? ==> r.value < |s| && s[r.value] == '.' && forall p :: r.value < p < |s| ==> s[p] != '.'
    ensures r.None? ==> forall p :: 0 <= p < |s| ==> s[p] != '.'
  {
    if s == [] then None
    else if s[|s| - 1] == '.' then Some(|s| - 1)
    else LastDot(s[..|s| - 1])
  }

  /** `Path(name).stem`: the name without its last suffix; a leading or trailing dot is no suffix. */
  function Stem(name: string): string {
    match LastDot(name)
    case Some(i) => if 0 < i < |name| - 1 then name[..i] else name
    case None => name
  }

  /** The last `.` is the one after which no `.` follows. */
  lemma {:induction false} LastDotAt(s: string, i: nat)
    requires i < |s| && s[i] == '.' && forall p :: i < p < |s| ==> s[p] != '.'
    ensures LastDot(s) == Some(i)
    decreases |s|
  {
    if i < |s| - 1 {
      LastDotAt(s[..|s| - 1], i);
    }
  }

  /** The stem of `base.yaml`, for a base without dots, is the base. */
  lemma StemOfYaml(base: string)
    requires base != [] && forall p :: 0 <= p < |base| ==> base[p] != '.'
    ensures Stem(base + ".yaml") == base
  {
    var n := base + ".yaml";
    forall p | |base| < p < |n| ensures n[p] != '.' {
      assert n[p] == ".yaml"[p - |base|];
    }
    LastDotAt(n, |base|);
    assert n[..|base|] == base;
  }

  datatype StampError =
    | FileNotFound
    | HashScriptNotFound
    | RootNotMapping
    | HashFailed(code: int, stdout: string)
    | NoHashOutput

  /** A requirement file on disk, holding a parsed document; `writes` records every write. */
  class RequirementFile {
    const name: string
    var present: bool
    var doc: Value
    ghost var writes: seq<Value>

    constructor(name: string, present: bool, doc: Value)
      ensures this.name == name && this.present == present && this.doc == doc && writes == []
    {
      this.name := name;
      this.present := present;
      this.doc := doc;
      writes := [];
    }

    /** `f.write_text(yaml.safe_dump(d))`. */
    method Write(d: Value)
      modifies this
      ensures present && doc == d && writes == old(writes) + [d]
    {
      present := true;
      doc := d;
      writes := writes + [d];
    }

    /**
     * `main`: stamp this file. Nothing is written when the file or the hash script is missing or
     * the document is not a mapping; otherwise the stamping writes follow.
     */
    method Stamp(promptArg: string, hashScriptPresent: bool, timestamp: string, hashTool: Value -> (int, string))
      returns (r: Result<string, StampError>)
      modifies this
      ensures !old(present) ==> r == Err(FileNotFound) && unchanged(this)
      ensures old(present) && !hashScriptPresent ==> r == Err(HashScriptNotFound) && unchanged(this)
      ensures old(present) && hashScriptPresent && !InitialDoc(old(doc)).Object? ==>
        r == Err(RootNotMapping) && unchanged(this)
      ensures old(present) && hashScriptPresent && InitialDoc(old(doc)).Object? ==>
        present && Stamped(old(writes), writes, doc, r, InitialDoc(old(doc)).fields, Stem(name), Strip(promptArg), timestamp, hashTool)
    {
      if !present {
        return Err(FileNotFound);
      }
      var promptId := Strip(promptArg);
      if !hashScriptPresent {
        return Err(HashScriptNotFound);
      }
      var data := InitialDoc(doc);
      if !data.Object? {
        return Err(RootNotMapping);
      }
      r := WriteStamps(data.fields, Stem(name), promptId, timestamp, hashTool);
    }

    /**
     * The writes of `main` once the document is a mapping: the first write carries the stamped
     * meta with the placeholder hash; a failing or silent hash step leaves it in place; otherwise
     * a second write carries the hash of the first, and the re-check passes.
     */
    method WriteStamps(data: Fields, runId: string, promptId: string, timestamp: string,
                       hashTool: Value -> (int, string)) returns (r: Result<string, StampError>)
      modifies this
      ensures present && Stamped(old(writes), writes, doc, r, data, runId, promptId, timestamp, hashTool)
    {
      var meta := BaseMeta(data);
      meta := UpdatedMeta(meta, runId, promptId, timestamp, Pending);
      var fields := OrderedMap.Put(data, "meta", Object(meta));
      ghost var first := Object(fields);
      assert first == Object(FirstWrite(data, runId, promptId, timestamp));
      ghost var w0 := writes;
      Write(Object(fields));
      assert writes == w0 + [first];
      var result := hashTool(Object(fields));
      var code, out := result.0, result.1;
      if code != 0 {
        r := Err(HashFailed(code, out));
        assert doc == first && writes == w0 + [first];
        return;
      }
      var h := ParseHashOutput(out);
      if h.None? {
        r := Err(NoHashOutput);
        assert doc == first && writes == w0 + [first];
        return;
      }
      fields := PatchHash(fields, h.value);
      ghost var w1 := writes;
      assert w1 == w0 + [first];
      Write(Object(fields));
      assert writes == w1 + [doc];
      AppendTwo(w0, first, doc);
      StampedPassesCheck(data, runId, promptId, timestamp, h.value);
      r := Ok(h.value);
    }
  }

  /**
   * The outcome of the stamping writes, from the writes before (`w0`) to the writes, document and
   * result after.
   */
  ghost predicate Stamped(w0: seq<Value>, w: seq<Value>, doc: Value, r: Result<string, StampError>,
                          data: Fields, runId: string, promptId: string, timestamp: string,
                          hashTool: Value -> (int, string))
  {
    var first := Object(FirstWrite(data, runId, promptId, timestamp));
    var code := hashTool(first).0;
    var out := hashTool(first).1;
    && (code != 0 ==> r == Err(HashFailed(code, out)) && doc == first && w == w0 + [first])
    && (code == 0 && ParseHashOutput(out).None? ==> r == Err(NoHashOutput) && doc == first && w == w0 + [first])
    && (code == 0 && ParseHashOutput(out).Some? ==>
          && r == Ok(ParseHashOutput(out).value)
          && doc == Object(PatchHash(first.fields, ParseHashOutput(out).value))
          && w == w0 + [first, doc]
          && AssertMetaPresent(doc, runId, promptId).Ok?)
  }
}
