/**
 * A Python `dict`: a sequence of (key, value) entries kept in insertion order. Assigning to a
 * present key replaces its value where it stands; assigning to a new key appends it; `pop`
 * removes it. `FromPairs` is the dictionary a loop of assignments `d[k] = v` builds.
 */
module OrderedMap {
  import opened Wrappers

  function Keys<V>(m: seq<(string, V)>): (ks: seq<string>)
    ensures |ks| == |m|
  {
    seq(|m|, i requires 0 <= i < |m| => m[i].0)
  }

  predicate Distinct(ks: seq<string>) {
    forall i, j :: 0 <= i < j < |ks| ==> ks[i] != ks[j]
  }

  /** `d.get(k)`: the value of the first entry with key `k`. */
  function Get<V>(m: seq<(string, V)>, k: string): (r: Option<V>)
    ensures r.None? <==> k !in Keys(m)
    ensures r.Some? ==> (k, r.value) in m
  {
    if m == [] then None
    else if m[0].0 == k then
      assert Keys(m)[0] == k;
      Some(m[0].1)
    else
      assert Keys(m) == [m[0].0] + Keys(m[1..]);
      Get(m[1..], k)
  }

  /** With distinct keys, looking up the key of an entry finds that entry's value. */
  lemma {:induction false} GetEntry<V>(m: seq<(string, V)>, i: nat)
    requires i < |m| && Distinct(Keys(m))
    ensures Get(m, m[i].0) == Some(m[i].1)
  {
    if i > 0 {
      assert m[0].0 != m[i].0 by { assert Keys(m)[0] != Keys(m)[i]; }
      assert Keys(m[1..]) == Keys(m)[1..];
      GetEntry(m[1..], i - 1);
    }
  }

  /** `d[k] = v`. */
  function Put<V>(m: seq<(string, V)>, k: string, v: V): (r: seq<(string, V)>)
    ensures Keys(r) == if k in Keys(m) then Keys(m) else Keys(m) + [k]
  {
    if m == [] then [(k, v)]
    else if m[0].0 == k then
      assert Keys(m)[0] == k;
      assert Keys([(k, v)] + m[1..]) == Keys(m);
      [(k, v)] + m[1..]
    else
      var rest := Put(m[1..], k, v);
      var r := [m[0]] + rest;
      assert r[1..] == rest;
      assert Keys(m) == [m[0].0] + Keys(m[1..]);
      assert Keys(r) == [m[0].0] + Keys(rest);
      r
  }

  /** After `d[k] = v`, `d.get(k)` is `v` and every other key keeps its value. */
  lemma {:induction false} PutGet<V>(m: seq<(string, V)>, k: string, v: V, x: string)
    ensures Get(Put(m, k, v), x) == if x == k then Some(v) else Get(m, x)
  {
    if m != [] && m[0].0 != k {
      PutGet(m[1..], k, v, x);
      assert Put(m, k, v)[1..] == Put(m[1..], k, v);
    }
  }

  /** Assignment keeps the keys distinct. */
  lemma PutDistinct<V>(m: seq<(string, V)>, k: string, v: V)
    requires Distinct(Keys(m))
    ensures Distinct(Keys(Put(m, k, v)))
  {
    var ks := Keys(m);
    if k !in ks {
      forall i, j | 0 <= i < j < |ks| + 1 ensures (ks + [k])[i] != (ks + [k])[j] {
        if j == |ks| {
          assert (ks + [k])[i] == ks[i];
        }
      }
    }
  }

  /** Assigning a key the value it already has leaves the dictionary as it is. */
  lemma {:induction false} PutPresent<V>(m: seq<(string, V)>, k: string, v: V)
    requires Get(m, k) == Some(v)
    ensures Put(m, k, v) == m
  {
    if m != [] && m[0].0 != k {
      PutPresent(m[1..], k, v);
    }
  }

  /** Two assignments to the same key: the second wins, in the first one's place. */
  lemma {:induction false} PutPut<V>(m: seq<(string, V)>, k: string, v: V, w: V)
    ensures Put(Put(m, k, v), k, w) == Put(m, k, w)
  {
    if m != [] && m[0].0 != k {
      PutPut(m[1..], k, v, w);
    }
  }

  /** `d.pop(k, None)`. */
  function Remove<V>(m: seq<(string, V)>, k: string): (r: seq<(string, V)>)
    ensures Get(r, k) == None
    ensures forall k' :: k' != k ==> Get(r, k') == Get(m, k')
    ensures Distinct(Keys(m)) ==> Distinct(Keys(r))
    ensures forall x :: x in Keys(r) <==> x in Keys(m) && x != k
  {
    if m == [] then []
    else
      var rest := Remove(m[1..], k);
      assert Keys(m) == [m[0].0] + Keys(m[1..]);
      assert Keys(m[1..]) == Keys(m)[1..];
      if m[0].0 == k then rest
      else
        var r := [m[0]] + rest;
        assert r[1..] == rest;
        assert Keys(r) == [m[0].0] + Keys(rest);
        assert Distinct(Keys(m)) ==> m[0].0 !in Keys(m[1..]) by {
          if Distinct(Keys(m)) {
            forall j | 0 <= j < |m| - 1 ensures Keys(m[1..])[j] != m[0].0 {
              assert Keys(m[1..])[j] == Keys(m)[j + 1];
              assert Keys(m)[0] == m[0].0 && Keys(m)[0] != Keys(m)[j + 1];
            }
          }
        }
        r
  }

  /** The dictionary built by assigning each pair in turn, starting from `{}`. */
  function FromPairs<V>(ps: seq<(string, V)>): (m: seq<(string, V)>)
    ensures Distinct(Keys(m))
  {
    if ps == [] then []
    else
      var pre := FromPairs(ps[..|ps| - 1]);
      PutDistinct(pre, ps[|ps| - 1].0, ps[|ps| - 1].1);
      Put(pre, ps[|ps| - 1].0, ps[|ps| - 1].1)
  }

  /** One more assignment extends the loop by one step. */
  lemma FromPairsSnoc<V>(ps: seq<(string, V)>, i: nat)
    requires i < |ps|
    ensures FromPairs(ps[..i + 1]) == Put(FromPairs(ps[..i]), ps[i].0, ps[i].1)
  {
    assert ps[..i + 1][..i] == ps[..i];
  }

  /** Index of the first occurrence of `x`. */
  function FirstIndex(ks: seq<string>, x: string): (i: nat)
    requires x in ks
    ensures i < |ks| && ks[i] == x && forall j :: 0 <= j < i ==> ks[j] != x
  {
    if ks[0] == x then 0 else 1 + FirstIndex(ks[1..], x)
  }

  /** Index of the last pair whose key is `k`. */
  function LastIndex<V>(ps: seq<(string, V)>, k: string): (i: nat)
    requires k in Keys(ps)
    ensures i < |ps| && ps[i].0 == k && forall j :: i < j < |ps| ==> ps[j].0 != k
  {
    if ps[|ps| - 1].0 == k then |ps| - 1
    else
      assert Keys(ps[..|ps| - 1]) == Keys(ps)[..|ps| - 1];
      LastIndex(ps[..|ps| - 1], k)
  }

  /** The keys of `ks`, each once, at its first appearance. */
  function Dedup(ks: seq<string>): seq<string> {
    if ks == [] then []
    else
      var d := Dedup(ks[..|ks| - 1]);
      if ks[|ks| - 1] in d then d else d + [ks[|ks| - 1]]
  }

  /** `Dedup` lists every key of `ks`, each exactly once. */
  lemma {:induction false} DedupMembers(ks: seq<string>)
    ensures Distinct(Dedup(ks))
    ensures forall x :: x in Dedup(ks) <==> x in ks
  {
    if ks != [] {
      var n := |ks|;
      var pre, x := ks[..n - 1], ks[n - 1];
      assert ks == pre + [x];
      DedupMembers(pre);
      var d := Dedup(pre);
      if x !in d {
        forall i, j | 0 <= i < j < |d| + 1 ensures (d + [x])[i] != (d + [x])[j] {
          assert (d + [x])[i] == d[i];
        }
      }
    }
  }

  lemma FirstIndexSnoc(pre: seq<string>, x: string, y: string)
    requires y in pre
    ensures FirstIndex(pre + [x], y) == FirstIndex(pre, y)
  {
    var a, b := FirstIndex(pre + [x], y), FirstIndex(pre, y);
    assert (pre + [x])[b] == y;
    assert (pre + [x])[a] == pre[a];
  }

  /**
   * `Dedup` keeps the order of first appearance: of two listed keys, the one listed earlier
   * appears earlier in `ks`.
   */
  lemma {:induction false} DedupOrder(ks: seq<string>)
    ensures forall x :: x in Dedup(ks) ==> x in ks
    ensures forall i, j :: 0 <= i < j < |Dedup(ks)| ==>
              FirstIndex(ks, Dedup(ks)[i]) < FirstIndex(ks, Dedup(ks)[j])
  {
    DedupMembers(ks);
    if ks != [] {
      var n := |ks|;
      var pre, x := ks[..n - 1], ks[n - 1];
      assert ks == pre + [x];
      DedupOrder(pre);
      DedupMembers(pre);
      var d := Dedup(pre);
      forall y | y in d ensures FirstIndex(ks, y) == FirstIndex(pre, y) {
        FirstIndexSnoc(pre, x, y);
      }
      if x !in d {
        assert FirstIndex(ks, x) == n - 1;
      }
    }
  }

  /** A loop of assignments leaves exactly the distinct keys, in first-appearance order. */
  lemma {:induction false} FromPairsKeys<V>(ps: seq<(string, V)>)
    ensures Keys(FromPairs(ps)) == Dedup(Keys(ps))
  {
    if ps != [] {
      var pre := ps[..|ps| - 1];
      assert Keys(pre) == Keys(ps)[..|ps| - 1];
      FromPairsKeys(pre);
    }
  }

  /** After a loop of assignments each key holds the value of its last assignment. */
  lemma {:induction false} FromPairsGet<V>(ps: seq<(string, V)>, k: string)
    ensures k !in Keys(ps) ==> Get(FromPairs(ps), k) == None
    ensures k in Keys(ps) ==> Get(FromPairs(ps), k) == Some(ps[LastIndex(ps, k)].1)
  {
    if ps != [] {
      var n := |ps|;
      var pre := ps[..n - 1];
      assert Keys(ps) == Keys(pre) + [ps[n - 1].0];
      FromPairsGet(pre, k);
      PutGet(FromPairs(pre), ps[n - 1].0, ps[n - 1].1, k);
      if ps[n - 1].0 != k {
        assert k in Keys(ps) <==> k in Keys(pre);
      }
    }
  }
}
