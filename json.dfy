/** The decoded JSON value the record flattener walks, and the few Python
    operations it applies to it: `dict.get`, `d[k]`, `k in d`, `d.pop`,
    `d[k] = v`, `for x in v`, `v.copy()` and truth testing. Each operation that
    Python refuses on a value of the wrong type returns the exception it raises. */
module JsonData {
  import opened Wrappers
  import opened Text

  /** A decoded JSON document; an object is a list of (key, value) bindings in
      insertion order, as a Python `dict` keeps them. */
  datatype Json =
    | Null
    | Bool(b: bool)
    | Num(r: real)
    | Str(s: string)
    | Arr(items: seq<Json>)
    | Obj(fields: seq<Field>)

  datatype Field = Field(key: string, val: Json)

  /** A Python `dict` with string keys. */
  type Dict = seq<Field>

  /** The exceptions the flattener can raise on a document of an unexpected shape. */
  datatype Fault = TypeError | AttributeError | IndexError | KeyError

  /** The index of the binding of `k` in `d`, if any (the first one, were a key bound twice). */
  function Position(d: Dict, k: string): (r: Option<nat>)
    ensures r.Some? ==> r.value < |d| && d[r.value].key == k
    ensures r.Some? ==> forall j :: 0 <= j < r.value ==> d[j].key != k
    ensures r.None? ==> forall j :: 0 <= j < |d| ==> d[j].key != k
  {
    if d == [] then None
    else if d[0].key == k then Some(0)
    else match Position(d[1..], k)
      case None => None
      case Some(p) => Some(p + 1)
  }

  /** `k in d`. */
  predicate HasKey(d: Dict, k: string) {
    Position(d, k).Some?
  }

  /** The value bound to `k`, or `None` when `d` has no such key. */
  function Get(d: Dict, k: string): (r: Option<Json>)
    ensures r.Some? <==> HasKey(d, k)
  {
    match Position(d, k)
    case None => None
    case Some(p) => Some(d[p].val)
  }

  /** Python's `d.get(k)`: a missing key and a JSON `null` both read as `None`. */
  function PyGet(d: Dict, k: string): Json {
    match Get(d, k)
    case None => Null
    case Some(v) => v
  }

  /** The keys of `d`, in insertion order. */
  function Keys(d: Dict): (ks: seq<string>)
    ensures |ks| == |d|
  {
    seq(|d|, i requires 0 <= i < |d| => d[i].key)
  }

  /** `del d[k]`: `d` without its binding of `k`. */
  function Remove(d: Dict, k: string): (r: Dict)
    ensures forall k' {:trigger Get(r, k')} :: Get(r, k') == if k' == k then None else Get(d, k')
    ensures forall j :: 0 <= j < |r| ==> r[j].key != k
  {
    if d == [] then []
    else if d[0].key == k then Remove(d[1..], k)
    else
      var rest := Remove(d[1..], k);
      assert forall k' :: k' != d[0].key ==> Get([d[0]] + rest, k') == Get(rest, k') by {
        forall k' | k' != d[0].key ensures Get([d[0]] + rest, k') == Get(rest, k') {
          assert ([d[0]] + rest)[1..] == rest;
        }
      }
      [d[0]] + rest
  }

  /** `d[k] = v`: an existing binding keeps its place and takes the new value, a
      new key goes to the end. */
  function Set(d: Dict, k: string, v: Json): (r: Dict)
    ensures Get(r, k) == Some(v)
    ensures forall k' {:trigger Get(r, k')} :: k' != k ==> Get(r, k') == Get(d, k')
  {
    match Position(d, k)
    case None =>
      SetAppend(d, k, v);
      d + [Field(k, v)]
    case Some(p) =>
      SetReplace(d, k, v, p);
      d[p := Field(k, v)]
  }

  /** Python keeps a dict's insertion order: a write to an existing key leaves
      the order of the keys as it was, a new key comes last. */
  lemma SetKeys(d: Dict, k: string, v: Json)
    ensures HasKey(d, k) ==> Keys(Set(d, k, v)) == Keys(d)
    ensures !HasKey(d, k) ==> Keys(Set(d, k, v)) == Keys(d) + [k]
  {
  }

  lemma {:induction false} SetAppend(d: Dict, k: string, v: Json)
    requires forall j :: 0 <= j < |d| ==> d[j].key != k
    ensures Position(d + [Field(k, v)], k) == Some(|d|)
    ensures forall k' {:trigger Position(d + [Field(k, v)], k')} :: k' != k ==> Position(d + [Field(k, v)], k') == Position(d, k')
  {
    if d != [] {
      assert (d + [Field(k, v)])[1..] == d[1..] + [Field(k, v)];
      SetAppend(d[1..], k, v);
    }
  }

  lemma {:induction false} SetReplace(d: Dict, k: string, v: Json, p: nat)
    requires Position(d, k) == Some(p)
    ensures Position(d[p := Field(k, v)], k) == Some(p)
    ensures forall k' {:trigger Position(d[p := Field(k, v)], k')} :: k' != k ==> Position(d[p := Field(k, v)], k') == Position(d, k')
  {
    if p > 0 {
      assert d[p := Field(k, v)][1..] == d[1..][p - 1 := Field(k, v)];
      SetReplace(d[1..], k, v, p - 1);
    }
  }

  /** `d.pop(k, default)`: the value bound to `k` (or `default`) and `d` without `k`. */
  function Pop(d: Dict, k: string, default: Json): (r: (Json, Dict))
    ensures HasKey(d, k) ==> Get(d, k) == Some(r.0)
    ensures !HasKey(d, k) ==> r.0 == default
    ensures !HasKey(r.1, k)
    ensures forall k' {:trigger Get(r.1, k')} :: k' != k ==> Get(r.1, k') == Get(d, k')
  {
    (match Get(d, k) case None => default case Some(v) => v, Remove(d, k))
  }

  /** Python's `k in container`: a key of a dict, an element of a list, a
      substring of a string; `None`, numbers and booleans raise `TypeError`. */
  function Member(container: Json, k: string): Result<bool, Fault> {
    match container
    case Obj(d) => Ok(HasKey(d, k))
    case Arr(items) => Ok(Str(k) in items)
    case Str(s) => Ok(Contains(s, k))
    case _ => Err(TypeError)
  }

  /** Python's `container[k]` with a string `k`: only a dict can be indexed by
      it, and a missing key raises `KeyError`. */
  function Index(container: Json, k: string): (r: Result<Json, Fault>)
    ensures r.Ok? <==> container.Obj? && HasKey(container.fields, k)
    ensures r.Ok? ==> Get(container.fields, k) == Some(r.value)
    ensures container.Obj? && !HasKey(container.fields, k) ==> r == Err(KeyError)
    ensures !container.Obj? ==> r == Err(TypeError)
  {
    match container
    case Obj(d) => (match Get(d, k) case None => Err(KeyError) case Some(v) => Ok(v))
    case _ => Err(TypeError)
  }

  /** Python's truth value of a decoded JSON value. */
  predicate Truthy(v: Json) {
    match v
    case Null => false
    case Bool(b) => b
    case Num(r) => r != 0.0
    case Str(s) => s != []
    case Arr(items) => items != []
    case Obj(d) => d != []
  }

  /** What `for x in v` visits: the elements of a list, the keys of a dict, the
      one-character strings of a string; other values raise `TypeError`. */
  function Iterate(v: Json): (r: Result<seq<Json>, Fault>)
    ensures v.Arr? ==> r == Ok(v.items)
    ensures v.Obj? ==> r.Ok? && |r.value| == |v.fields| && forall i :: 0 <= i < |v.fields| ==> r.value[i] == Str(v.fields[i].key)
    ensures v.Str? ==> r.Ok? && |r.value| == |v.s| && forall i :: 0 <= i < |v.s| ==> r.value[i] == Str([v.s[i]])
    ensures r.Err? <==> v.Null? || v.Bool? || v.Num?
  {
    match v
    case Arr(items) => Ok(items)
    case Obj(d) => Ok(seq(|d|, i requires 0 <= i < |d| => Str(d[i].key)))
    case Str(s) => Ok(seq(|s|, i requires 0 <= i < |s| => Str([s[i]])))
    case _ => Err(TypeError)
  }

  /** `x.copy()` followed by string-keyed updates: only a dict gets through. A
      list copies, but its first string-keyed `pop` or assignment raises
      `TypeError`; strings, numbers, booleans and `None` have no `copy`. */
  function CopyRecord(v: Json): (r: Result<Dict, Fault>)
    ensures r.Ok? <==> v.Obj?
    ensures r.Ok? ==> r.value == v.fields
  {
    match v
    case Obj(d) => Ok(d)
    case Arr(_) => Err(TypeError)
    case _ => Err(AttributeError)
  }
}
