/**
 * Segmenting a Markdown requirements document into one block per requirement ID
 * (`parse_requirements_by_id` in deepeval/evaluate_requirements_v1.py).
 *
 * The anchor pattern `^.*ID:\s*([A-Z]{2}-\d{3})\s*$` (multi-line mode) is modelled as an explicit
 * scanner: a match starts at a line start, the greedy `.*` settles on the last `ID:` of that line
 * for which the rest matches, the whitespace after `ID:` may run over line ends, and after the
 * ID there may be only whitespace up to the end of the ID's line. As with `finditer`, the search
 * for the next match resumes where the previous one ended.
 */
module RequirementsMarkdown {
  import opened Wrappers
  import opened Text
  import OrderedMap

  /**
   * One match: the start of its line, the `ID:` the greedy `.*` settled on, the index of the ID,
   * and the end of the match.
   */
  datatype Anchor = Anchor(start: nat, colon: nat, idAt: nat, end: nat)

  datatype ParseError = NoRequirementIds

  predicate IsLineStart(md: string, i: nat) {
    i <= |md| && (i == 0 || md[i - 1] == '\n')
  }

  /** Index of the first `\n` at or after `i`, or `|md|`. */
  function LineEnd(md: string, i: nat): (e: nat)
    requires i <= |md|
    ensures i <= e <= |md|
    ensures forall k :: i <= k < e ==> md[k] != '\n'
    ensures e < |md| ==> md[e] == '\n'
    decreases |md| - i
  {
    if i == |md| || md[i] == '\n' then i else LineEnd(md, i + 1)
  }

  /** Every character in `[a, b)` is whitespace (line ends included). */
  predicate SpaceRun(md: string, a: nat, b: nat) {
    a <= b <= |md| && forall p {:trigger IsSpace(md[p])} :: a <= p < b ==> IsSpace(md[p])
  }

  /** End of the run of whitespace (including line ends) that starts at `i`. */
  function SkipSpace(md: string, i: nat): (j: nat)
    requires i <= |md|
    ensures SpaceRun(md, i, j)
    ensures j < |md| ==> !IsSpace(md[j])
    decreases |md| - i
  {
    if i == |md| || !IsSpace(md[i]) then i else SkipSpace(md, i + 1)
  }

  /** A whitespace run from `a` ends no earlier than any stretch of whitespace from `a`. */
  lemma {:induction false} SkipSpaceCovers(md: string, a: nat, b: nat)
    requires SpaceRun(md, a, b)
    ensures b <= SkipSpace(md, a)
    decreases b - a
  {
    if a < b {
      assert IsSpace(md[a]);
      SkipSpaceCovers(md, a + 1, b);
    }
  }

  /** A whitespace stretch followed by a non-space character (or the end) is the whole run. */
  lemma SkipSpaceExact(md: string, a: nat, b: nat)
    requires SpaceRun(md, a, b) && (b == |md| || !IsSpace(md[b]))
    ensures b == SkipSpace(md, a)
  {
    SkipSpaceCovers(md, a, b);
  }

  /** `ID:` starts at `k`. */
  predicate ColonAt(md: string, k: int) {
    0 <= k && k + 3 <= |md| && md[k] == 'I' && md[k + 1] == 'D' && md[k + 2] == ':'
  }

  /** `[A-Z]{2}-\d{3}` starts at `j` (digits are ASCII here). */
  predicate IdAt(md: string, j: nat) {
    && j + 6 <= |md|
    && IsAsciiUpper(md[j]) && IsAsciiUpper(md[j + 1]) && md[j + 2] == '-'
    && IsAsciiDigit(md[j + 3]) && IsAsciiDigit(md[j + 4]) && IsAsciiDigit(md[j + 5])
  }

  /** The largest position in `[t, q]` that is a line end or the end of the text. */
  function LastBreak(md: string, t: nat, q: nat): (r: Option<nat>)
    requires t <= q <= |md|
    ensures r.Some? ==> t <= r.value <= q && (r.value == |md| || md[r.value] == '\n')
    decreases q - t
  {
    if q == |md| || md[q] == '\n' then Some(q)
    else if q == t then None
    else LastBreak(md, t, q - 1)
  }

  lemma {:induction false} LastBreakFinds(md: string, t: nat, q: nat, p: nat)
    requires t <= p <= q <= |md| && (p == |md| || md[p] == '\n')
    ensures LastBreak(md, t, q).Some?
    decreases q - t
  {
    if q != |md| && md[q] != '\n' && q != t {
      LastBreakFinds(md, t, q - 1, p);
    }
  }

  /** Where the greedy `\s*$` that follows the ID ends, if it can match at all. */
  function TailEnd(md: string, t: nat): Option<nat>
    requires t <= |md|
  {
    LastBreak(md, t, SkipSpace(md, t))
  }

  /** `\s*$` matches after position `t` exactly when the rest of that line is whitespace. */
  lemma TailEndSpec(md: string, t: nat)
    requires t <= |md|
    ensures TailEnd(md, t).Some? <==> SpaceRun(md, t, LineEnd(md, t))
  {
    var r, e := SkipSpace(md, t), LineEnd(md, t);
    if TailEnd(md, t).Some? {
      var q := TailEnd(md, t).value;
      assert e <= q;
    }
    if SpaceRun(md, t, e) {
      if e == |md| {
        SkipSpaceCovers(md, t, e);
        LastBreakFinds(md, t, r, e);
      } else {
        assert IsSpace(md[e]);
        assert SpaceRun(md, t, e + 1);
        SkipSpaceCovers(md, t, e + 1);
        LastBreakFinds(md, t, r, e);
      }
    }
  }

  /** The match completed from an `ID:` at `k`, for a line starting at `i`. */
  function MatchFromColon(md: string, i: nat, k: nat): (a: Option<Anchor>)
    requires i <= k && ColonAt(md, k)
    ensures a.Some? ==> a.value.start == i && a.value.colon == k && a.value.idAt == SkipSpace(md, k + 3)
    ensures a.Some? ==> IdAt(md, a.value.idAt) && a.value.idAt + 6 <= a.value.end <= |md|
  {
    var j := SkipSpace(md, k + 3);
    if IdAt(md, j) then
      match TailEnd(md, j + 6)
      case Some(q) => Some(Anchor(i, k, j, q))
      case None => None
    else None
  }

  /** Greedy `.*`: try the `ID:` positions of the line from the right. */
  function SearchColon(md: string, i: nat, k: int): (a: Option<Anchor>)
    requires i <= |md|
    requires k + 3 <= LineEnd(md, i)
    ensures a.Some? ==> a.value.start == i && IdAt(md, a.value.idAt) && i < a.value.idAt
    ensures a.Some? ==> a.value.idAt + 6 <= a.value.end <= |md|
    ensures a.Some? ==> i <= a.value.colon <= k && ColonAt(md, a.value.colon)
    ensures a.Some? ==> MatchFromColon(md, i, a.value.colon) == a
    decreases k - i
  {
    if k < i then None
    else if ColonAt(md, k) && MatchFromColon(md, i, k).Some? then MatchFromColon(md, i, k)
    else SearchColon(md, i, k - 1)
  }

  /** The anchor pattern tried at position `i` (which must be a line start for `^` to match). */
  function MatchAt(md: string, i: nat): (a: Option<Anchor>)
    requires i <= |md|
    ensures a.Some? ==> a.value.start == i && IdAt(md, a.value.idAt) && i < a.value.idAt
    ensures a.Some? ==> a.value.idAt + 6 <= a.value.end <= |md|
  {
    SearchColon(md, i, LineEnd(md, i) - 3)
  }

  /**
   * The shape of an anchor, stated without the search: the line starting at `i` holds `ID:` at
   * `k`, only whitespace (possibly line ends) separates it from the ID at `j`, and the rest of
   * the ID's line is whitespace.
   */
  predicate AnchorShape(md: string, i: nat, k: nat, j: nat) {
    && i <= k && ColonAt(md, k) && k + 3 <= LineEnd(md, i)
    && SpaceRun(md, k + 3, j) && IdAt(md, j)
    && SpaceRun(md, j + 6, LineEnd(md, j + 6))
  }

  /** The ID in an anchor shape is where the whitespace after `ID:` ends. */
  lemma AnchorShapeId(md: string, i: nat, k: nat, j: nat)
    requires AnchorShape(md, i, k, j)
    ensures j == SkipSpace(md, k + 3)
  {
    assert !IsSpace(md[j]);
    SkipSpaceExact(md, k + 3, j);
  }

  lemma AnchorShapeMatches(md: string, i: nat, k: nat, j: nat)
    requires AnchorShape(md, i, k, j)
    ensures MatchFromColon(md, i, k).Some?
  {
    AnchorShapeId(md, i, k, j);
    TailEndSpec(md, j + 6);
  }

  lemma {:induction false} SearchFinds(md: string, i: nat, k: int, k0: nat, j: nat)
    requires i <= |md| && k + 3 <= LineEnd(md, i)
    requires AnchorShape(md, i, k0, j) && k0 <= k
    ensures SearchColon(md, i, k).Some?
    decreases k - i
  {
    if k0 < k {
      SearchFinds(md, i, k - 1, k0, j);
    } else {
      AnchorShapeMatches(md, i, k0, j);
    }
  }

  lemma ColonMatchShape(md: string, i: nat, k: nat)
    requires i <= k && ColonAt(md, k) && k + 3 <= LineEnd(md, i)
    requires MatchFromColon(md, i, k).Some?
    ensures AnchorShape(md, i, k, SkipSpace(md, k + 3))
  {
    var j := SkipSpace(md, k + 3);
    TailEndSpec(md, j + 6);
  }

  /**
   * Where the anchor pattern matches, the line has the anchor shape, with the `ID:` and the ID
   * the match reports.
   */
  lemma MatchAtSound(md: string, i: nat)
    requires i <= |md| && MatchAt(md, i).Some?
    ensures AnchorShape(md, i, MatchAt(md, i).value.colon, MatchAt(md, i).value.idAt)
  {
    ColonMatchShape(md, i, MatchAt(md, i).value.colon);
  }

  /** Wherever the line at `i` has the anchor shape, the anchor pattern matches there. */
  lemma MatchAtComplete(md: string, i: nat, k: nat, j: nat)
    requires AnchorShape(md, i, k, j)
    ensures MatchAt(md, i).Some?
  {
    SearchFinds(md, i, LineEnd(md, i) - 3, k, j);
  }

  /** A match sits on a line start, its ID follows it, and the match ends after the ID. */
  predicate WellPlaced(md: string, a: Anchor) {
    && IsLineStart(md, a.start)
    && a.start < a.idAt
    && IdAt(md, a.idAt)
    && a.idAt + 6 <= a.end <= |md|
  }

  /** Matches are in text order, each ends no later than the next one starts. */
  predicate Ordered(md: string, anchors: seq<Anchor>) {
    && (forall n :: 0 <= n < |anchors| ==> WellPlaced(md, anchors[n]))
    && (forall n :: 0 < n < |anchors| ==> anchors[n - 1].end <= anchors[n].start)
  }

  lemma OrderedCons(md: string, a: Anchor, rest: seq<Anchor>)
    requires WellPlaced(md, a) && Ordered(md, rest)
    requires rest != [] ==> a.end <= rest[0].start
    ensures Ordered(md, [a] + rest)
  {
    var r := [a] + rest;
    forall n | 0 < n < |r| ensures r[n] == rest[n - 1] {
    }
  }

  lemma StartsAfterCons(pos: nat, a: Anchor, rest: seq<Anchor>)
    requires pos <= a.start && a.start <= a.end
    requires forall n :: 0 <= n < |rest| ==> a.end <= rest[n].start
    ensures forall n :: 0 <= n < |[a] + rest| ==> pos <= ([a] + rest)[n].start
  {
    forall n | 0 < n < |rest| + 1 ensures pos <= ([a] + rest)[n].start {
      assert ([a] + rest)[n] == rest[n - 1];
    }
  }

  /**
   * `finditer` from position `pos`: every match, in order, resuming at each match's end. The
   * matches come out in text order, each on a line start at or after `pos`.
   */
  function Scan(md: string, pos: nat): (r: seq<Anchor>)
    requires pos <= |md|
    ensures Ordered(md, r)
    ensures forall n :: 0 <= n < |r| ==> pos <= r[n].start
    decreases |md| - pos
  {
    // No match can start at |md|: the line there is empty and cannot hold `ID:`.
    if pos == |md| then []
    else if IsLineStart(md, pos) && MatchAt(md, pos).Some? then
      var a := MatchAt(md, pos).value;
      var rest := Scan(md, a.end);
      OrderedCons(md, a, rest);
      StartsAfterCons(pos, a, rest);
      [a] + rest
    else Scan(md, pos + 1)
  }

  /** No line starting at or after `pos` has the anchor shape. */
  ghost predicate NoShapeFrom(md: string, pos: nat) {
    forall i: nat, k: nat, j: nat :: pos <= i && IsLineStart(md, i) ==> !AnchorShape(md, i, k, j)
  }

  /** The scan from `pos` finds nothing exactly when no line starting at or after `pos` has the anchor shape. */
  lemma {:induction false} ScanEmptyIffNoShape(md: string, pos: nat)
    requires pos <= |md|
    ensures |Scan(md, pos)| == 0 <==> NoShapeFrom(md, pos)
    decreases |md| - pos
  {
    if pos == |md| {
      NoShapeAtEnd(md);
    } else if IsLineStart(md, pos) && MatchAt(md, pos).Some? {
      ShapeAtMatch(md, pos);
    } else {
      ScanEmptyIffNoShape(md, pos + 1);
      NoShapeSkip(md, pos);
    }
  }

  /** The empty last line cannot hold an anchor. */
  lemma NoShapeAtEnd(md: string)
    ensures NoShapeFrom(md, |md|)
  {
    forall i: nat, k: nat, j: nat | |md| <= i && IsLineStart(md, i) ensures !AnchorShape(md, i, k, j) {
      assert LineEnd(md, i) == |md|;
    }
  }

  /** Where the pattern matches at a line start, that line has the anchor shape. */
  lemma ShapeAtMatch(md: string, pos: nat)
    requires pos <= |md| && IsLineStart(md, pos) && MatchAt(md, pos).Some?
    ensures !NoShapeFrom(md, pos)
  {
    var a := MatchAt(md, pos).value;
    MatchAtSound(md, pos);
    assert AnchorShape(md, pos, a.colon, a.idAt);
  }

  /** Where the pattern does not match at `pos`, the line there (if any) lacks the anchor shape. */
  lemma NoShapeSkip(md: string, pos: nat)
    requires pos < |md| && !(IsLineStart(md, pos) && MatchAt(md, pos).Some?)
    ensures NoShapeFrom(md, pos) <==> NoShapeFrom(md, pos + 1)
  {
    forall i: nat, k: nat, j: nat | i == pos && IsLineStart(md, i) ensures !AnchorShape(md, i, k, j) {
      if AnchorShape(md, i, k, j) {
        MatchAtComplete(md, i, k, j);
      }
    }
  }

  /** The whole text has no match exactly when no line has the anchor shape. */
  lemma AnchorsEmptyIffNoShape(md: string)
    ensures Anchors(md) == [] <==>
      forall i: nat, k: nat, j: nat :: IsLineStart(md, i) ==> !AnchorShape(md, i, k, j)
  {
    ScanEmptyIffNoShape(md, 0);
  }

  function Anchors(md: string): seq<Anchor> {
    Scan(md, 0)
  }

  /** Each block runs from its anchor's line start to the next anchor's line start or the end. */
  function BlockEnd(md: string, anchors: seq<Anchor>, n: nat): nat
    requires n < |anchors|
  {
    if n + 1 < |anchors| then anchors[n + 1].start else |md|
  }

  function IdOf(md: string, a: Anchor): string
    requires a.idAt + 6 <= |md|
  {
    md[a.idAt..a.idAt + 6]
  }

  /** The ID of the n-th match and its block, stripped. */
  function Segment(md: string, anchors: seq<Anchor>, n: nat): (string, string)
    requires Ordered(md, anchors) && n < |anchors|
  {
    var a := anchors[n];
    (md[a.idAt..a.idAt + 6], Strip(md[a.start..BlockEnd(md, anchors, n)]))
  }

  function SegmentsOf(md: string, anchors: seq<Anchor>): (ps: seq<(string, string)>)
    requires Ordered(md, anchors)
    ensures |ps| == |anchors|
  {
    seq(|anchors|, n requires 0 <= n < |anchors| => Segment(md, anchors, n))
  }

  /** The (ID, stripped block) pairs in match order, before they go into the dictionary. */
  function Segments(md: string): (ps: seq<(string, string)>)
    ensures |ps| == |Anchors(md)|
  {
    SegmentsOf(md, Anchors(md))
  }

  /** One turn of the loop in `ParseRequirementsById` assigns the next segment. */
  lemma SegmentStep(md: string, anchors: seq<Anchor>, n: nat, reqs: seq<(string, string)>, end: nat)
    requires Ordered(md, anchors) && n < |anchors|
    requires reqs == OrderedMap.FromPairs(SegmentsOf(md, anchors)[..n])
    requires end == BlockEnd(md, anchors, n)
    ensures anchors[n].start <= end <= |md|
    ensures OrderedMap.Put(reqs, md[anchors[n].idAt..anchors[n].idAt + 6], Strip(md[anchors[n].start..end]))
         == OrderedMap.FromPairs(SegmentsOf(md, anchors)[..n + 1])
  {
    OrderedMap.FromPairsSnoc(SegmentsOf(md, anchors), n);
  }

  function AnchorIds(md: string): seq<string> {
    OrderedMap.Keys(Segments(md))
  }

  lemma IdEndsNotSpace(md: string, j: nat)
    requires IdAt(md, j)
    ensures !IsSpace(md[j]) && !IsSpace(md[j + 5])
  {
  }

  /** A block cut from its anchor's line start to any point past the match contains the ID. */
  lemma BlockContainsId(md: string, a: Anchor, e: nat)
    requires a.start < a.idAt && IdAt(md, a.idAt) && a.idAt + 6 <= e <= |md|
    ensures Contains(Strip(md[a.start..e]), IdOf(md, a))
  {
    var x := md[a.start..e];
    var lo := a.idAt - a.start;
    IdEndsNotSpace(md, a.idAt);
    assert x[lo] == md[a.idAt] && x[lo + 5] == md[a.idAt + 5];
    StripKeepsCore(x, lo, lo + 6);
    SliceOfSlice(md, a.start, e, lo, lo + 6);
    assert x[lo..lo + 6] == md[a.idAt..a.idAt + 6];
  }

  lemma SegmentOfContainsId(md: string, anchors: seq<Anchor>, n: nat)
    requires Ordered(md, anchors) && n < |anchors|
    ensures Contains(Segment(md, anchors, n).1, Segment(md, anchors, n).0)
  {
    BlockContainsId(md, anchors[n], BlockEnd(md, anchors, n));
  }

  /** Every block contains the ID it was cut for. */
  lemma SegmentContainsId(md: string, n: nat)
    requires n < |Segments(md)|
    ensures Contains(Segments(md)[n].1, Segments(md)[n].0)
  {
    var anchors := Anchors(md);
    assert Segments(md)[n] == Segment(md, anchors, n);
    SegmentOfContainsId(md, anchors, n);
  }

  /**
   * `parse_requirements_by_id`: no anchor is an error; otherwise the dictionary built by
   * assigning each block to its ID in match order. Its keys are the distinct IDs in order of
   * first appearance, and every block contains its own ID.
   */
  method ParseRequirementsById(md: string) returns (r: Result<seq<(string, string)>, ParseError>)
    ensures r.Err? <==> Anchors(md) == []
    ensures r.Err? <==> forall i: nat, k: nat, j: nat :: IsLineStart(md, i) ==> !AnchorShape(md, i, k, j)
    ensures r.Ok? ==> r.value == OrderedMap.FromPairs(Segments(md))
    ensures r.Ok? ==> OrderedMap.Keys(r.value) == OrderedMap.Dedup(AnchorIds(md))
    ensures r.Ok? ==> forall n :: 0 <= n < |r.value| ==> Contains(r.value[n].1, r.value[n].0)
  {
    AnchorsEmptyIffNoShape(md);
    var matches := Anchors(md);
    if |matches| == 0 {
      return Err(NoRequirementIds);
    }
    var reqs := AssignBlocks(md, matches);
    assert SegmentsOf(md, matches) == Segments(md);
    ParsedDictionary(md, reqs);
    return Ok(reqs);
  }

  /** The loop of `parse_requirements_by_id`: each block assigned to its ID, in match order. */
  method AssignBlocks(md: string, matches: seq<Anchor>) returns (reqs: seq<(string, string)>)
    requires Ordered(md, matches)
    ensures reqs == OrderedMap.FromPairs(SegmentsOf(md, matches))
  {
    reqs := [];
    for idx := 0 to |matches|
      invariant reqs == OrderedMap.FromPairs(SegmentsOf(md, matches)[..idx])
    {
      var m := matches[idx];
      var reqId := md[m.idAt..m.idAt + 6];
      var end := if idx + 1 < |matches| then matches[idx + 1].start else |md|;
      SegmentStep(md, matches, idx, reqs, end);
      reqs := OrderedMap.Put(reqs, reqId, Strip(md[m.start..end]));
    }
    assert SegmentsOf(md, matches)[..|matches|] == SegmentsOf(md, matches);
  }

  /**
   * The dictionary of a document has the distinct IDs as keys, in order of first appearance,
   * and every block in it contains its own ID.
   */
  lemma ParsedDictionary(md: string, reqs: seq<(string, string)>)
    requires reqs == OrderedMap.FromPairs(Segments(md))
    ensures OrderedMap.Keys(reqs) == OrderedMap.Dedup(AnchorIds(md))
    ensures forall n :: 0 <= n < |reqs| ==> Contains(reqs[n].1, reqs[n].0)
  {
    OrderedMap.FromPairsKeys(Segments(md));
    forall n | 0 <= n < |reqs| ensures Contains(reqs[n].1, reqs[n].0) {
      ResultEntryContainsId(md, reqs, n);
    }
  }

  lemma ResultEntryContainsId(md: string, reqs: seq<(string, string)>, n: nat)
    requires reqs == OrderedMap.FromPairs(Segments(md)) && n < |reqs|
    ensures Contains(reqs[n].1, reqs[n].0)
  {
    var ps := Segments(md);
    var k := reqs[n].0;
    OrderedMap.GetEntry(reqs, n);
    assert k in OrderedMap.Keys(reqs);
    OrderedMap.FromPairsKeys(ps);
    OrderedMap.DedupMembers(OrderedMap.Keys(ps));
    OrderedMap.FromPairsGet(ps, k);
    var last := OrderedMap.LastIndex(ps, k);
    SegmentContainsId(md, last);
  }

  /**
   * For a repeated ID the dictionary keeps the block of its last anchor; an ID without an
   * anchor is absent.
   */
  lemma DuplicateIdKeepsLastBlock(md: string, id: string)
    ensures id !in AnchorIds(md) ==> OrderedMap.Get(OrderedMap.FromPairs(Segments(md)), id) == None
    ensures id in AnchorIds(md) ==>
      var n := OrderedMap.LastIndex(Segments(md), id);
      && Segments(md)[n].0 == id
      && (forall m :: n < m < |Segments(md)| ==> Segments(md)[m].0 != id)
      && OrderedMap.Get(OrderedMap.FromPairs(Segments(md)), id) == Some(Segments(md)[n].1)
  {
    OrderedMap.FromPairsGet(Segments(md), id);
  }
}
