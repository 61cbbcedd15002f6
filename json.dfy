/**
 * The values `yaml.safe_load` and `json.loads` produce, with the Python behaviour the scripts
 * rely on: truthiness, `x or y`, `type(x).__name__`, `d.get(k)`, `str(x)` and `==`.
 * A mapping keeps its keys in insertion order, as a Python `dict` does.
 */
module Json {
  import opened Wrappers
  import opened Text
  import OrderedMap

  datatype Value =
    | Null
    | Bool(b: bool)
    | Int(i: int)
    | Float(r: real)
    | Str(s: string)
    | List(items: seq<Value>)
    | Object(fields: seq<(string, Value)>)

  type Fields = seq<(string, Value)>

  /** Python truthiness: `None`, `False`, zero and empty containers are false. */
  predicate Truthy(v: Value) {
    match v
    case Null => false
    case Bool(b) => b
    case Int(i) => i != 0
    case Float(r) => r != 0.0
    case Str(s) => s != []
    case List(xs) => xs != []
    case Object(fs) => fs != []
  }

  /** Python's `x or y`. */
  function Or(x: Value, y: Value): Value {
    if Truthy(x) then x else y
  }

  /** Python's `type(v).__name__`. */
  function TypeName(v: Value): string {
    match v
    case Null => "NoneType"
    case Bool(_) => "bool"
    case Int(_) => "int"
    case Float(_) => "float"
    case Str(_) => "str"
    case List(_) => "list"
    case Object(_) => "dict"
  }

  /** `d.get(k)` on a mapping: `None` when the key is missing. */
  function Lookup(fs: Fields, k: string): Value {
    OrderedMap.Get(fs, k).GetOr(Null)
  }

  /** The entry at index `i` is the one `d.get` finds when no earlier entry has its key. */
  lemma {:induction false} LookupFirst(fs: Fields, i: nat)
    requires i < |fs|
    requires forall j :: 0 <= j < i ==> fs[j].0 != fs[i].0
    ensures Lookup(fs, fs[i].0) == fs[i].1
  {
    if i > 0 {
      assert fs[1..][i - 1] == fs[i];
      LookupFirst(fs[1..], i - 1);
    }
  }

  /** Appending an entry with another key leaves `d.get(k)` as it was. */
  lemma {:induction false} LookupAppend(fs: Fields, e: (string, Value), k: string)
    requires k != e.0
    ensures Lookup(fs + [e], k) == Lookup(fs, k)
  {
    if fs != [] {
      assert (fs + [e])[1..] == fs[1..] + [e];
      LookupAppend(fs[1..], e, k);
    }
  }

  /** `k in d` on a mapping. */
  predicate HasKey(fs: Fields, k: string) {
    k in OrderedMap.Keys(fs)
  }

  /**
   * Python's `str(v)`. Strings, `None`, booleans and integers are rendered here; the rendering
   * of floats, lists and dicts (Python's shortest round-trip float repr and container repr) is
   * the parameter `repr`.
   */
  function AsText(v: Value, repr: Value -> string): string {
    match v
    case Str(s) => s
    case Null => "None"
    case Bool(b) => if b then "True" else "False"
    case Int(i) => IntToDecimal(i)
    case _ => repr(v)
  }

  function NumberValue(v: Value): real
    requires v.Bool? || v.Int? || v.Float?
  {
    match v
    case Bool(b) => if b then 1.0 else 0.0
    case Int(i) => i as real
    case Float(r) => r
  }

  /**
   * Python's `a == b`: booleans, integers and floats compare as numbers, lists element-wise,
   * dicts as unordered mappings.
   */
  predicate PyEquals(a: Value, b: Value) {
    if (a.Bool? || a.Int? || a.Float?) && (b.Bool? || b.Int? || b.Float?) then
      NumberValue(a) == NumberValue(b)
    else if a.Null? || b.Null? then a.Null? && b.Null?
    else if a.Str? && b.Str? then a.s == b.s
    else if a.List? && b.List? then
      |a.items| == |b.items| && forall i :: 0 <= i < |a.items| ==> PyEquals(a.items[i], b.items[i])
    else if a.Object? && b.Object? then
      |a.fields| == |b.fields| &&
      forall i :: 0 <= i < |a.fields| ==>
        HasKey(b.fields, a.fields[i].0) && PyEquals(a.fields[i].1, Lookup(b.fields, a.fields[i].0))
    else false
  }

  /** Descending through mappings by successive keys; `None` as soon as a step is impossible. */
  function Dig(v: Value, keys: seq<string>): (r: Option<Value>)
    ensures keys == [] ==> r == Some(v)
  {
    if keys == [] then Some(v)
    else if v.Object? && HasKey(v.fields, keys[0]) then Dig(Lookup(v.fields, keys[0]), keys[1..])
    else None
  }

  /** Descending by `a + b` is descending by `a` and then by `b`. */
  lemma {:induction false} DigAppend(v: Value, a: seq<string>, b: seq<string>)
    ensures Dig(v, a + b) == match Dig(v, a) case Some(w) => Dig(w, b) case None => None
  {
    if a == [] {
      assert a + b == b;
    } else {
      assert (a + b)[0] == a[0] && (a + b)[1..] == a[1..] + b;
      if v.Object? && HasKey(v.fields, a[0]) {
        DigAppend(Lookup(v.fields, a[0]), a[1..], b);
      }
    }
  }

  /** A position inside a value: the i-th entry of a mapping or the i-th element of a list. */
  datatype Pos = Field(i: nat) | Elem(i: nat)

  /** The value found by following `path` from `v`, if every step exists. */
  function Subterm(v: Value, path: seq<Pos>): Option<Value>
    decreases |path|
  {
    if path == [] then Some(v)
    else
      match (v, path[0])
      case (Object(fs), Field(i)) => if i < |fs| then Subterm(fs[i].1, path[1..]) else None
      case (List(xs), Elem(i)) => if i < |xs| then Subterm(xs[i], path[1..]) else None
      case _ => None
  }
}
