/** A JavaScript plain object as the store forms use it for their draft: a
    dictionary whose keys remember the order in which they were first added,
    which is the order `Object.keys` reports. Writing an existing key keeps its
    place; writing a new key (`{ ...prev, [name]: value }`) adds it at the end. */
module Objects {
  import opened Options

  /** A value that can sit in a draft field. `Num` is an integer and
      `NotANumber` is `NaN`; `File` stands for a browser File object, known
      only by its identity. `Other` is any other value a stored record can
      hold (a number with a fraction, an array, a nested object), known only
      by the text `String(v)` gives it; none of those is falsy. */
  datatype Value =
    | Str(s: string)
    | Num(n: int)
    | NotANumber
    | Bool(b: bool)
    | Null
    | Undefined
    | File(id: nat)
    | Other(text: string)

  /** JavaScript falsiness, as `!v` tests it. */
  predicate Falsy(v: Value) {
    match v
    case Str(s) => s == ""
    case Num(n) => n == 0
    case NotANumber => true
    case Bool(b) => !b
    case Null => true
    case Undefined => true
    case File(_) => false
    case Other(_) => false
  }

  predicate Distinct(ks: seq<string>) {
    forall i, j :: 0 <= i < j < |ks| ==> ks[i] != ks[j]
  }

  /** `keys` is the `Object.keys` order; `vals` the key-to-value mapping. */
  datatype Object = Object(keys: seq<string>, vals: map<string, Value>) {
    ghost predicate Valid() {
      Distinct(keys) && forall k :: k in vals <==> k in keys
    }
  }

  /** The objects that can exist: each key once, and exactly the mapped keys. */
  type Obj = o: Object | o.Valid() witness Object([], map[])

  /** `o[k]`, with `None` for a key the object does not have. */
  function Get(o: Object, k: string): Option<Value> {
    if k in o.vals then Some(o.vals[k]) else None
  }

  /** `{ ...o, [k]: v }`: key `k` now holds `v`, every other key keeps its
      value, and the key order is kept, with `k` appended when it is new. */
  function Set(o: Obj, k: string, v: Value): (r: Obj)
    ensures Get(r, k) == Some(v)
    ensures forall k' :: k' != k ==> Get(r, k') == Get(o, k')
    ensures r.keys == if k in o.keys then o.keys else o.keys + [k]
  {
    if k in o.vals then Object(o.keys, o.vals[k := v])
    else Object(o.keys + [k], o.vals[k := v])
  }

  /** A second write to the same key replaces the first: only the last
      value written is kept, at the place the key already had. */
  lemma SetOverwrite(o: Obj, k: string, v: Value, w: Value)
    ensures Set(Set(o, k, v), k, w) == Set(o, k, w)
  {
  }

  /** Writing the value a key already holds changes nothing. */
  lemma SetSame(o: Obj, k: string, v: Value)
    requires Get(o, k) == Some(v)
    ensures Set(o, k, v) == o
  {
    assert o.vals[k := v] == o.vals;
  }

  /** `ks` with every occurrence of `k` filtered out, order kept. */
  function Without(ks: seq<string>, k: string): (r: seq<string>)
    ensures forall x :: x in r <==> x in ks && x != k
    ensures |r| <= |ks|
  {
    if ks == [] then []
    else Without(ks[..|ks| - 1], k) + (if ks[|ks| - 1] == k then [] else [ks[|ks| - 1]])
  }

  /** Filtering one more element: it is dropped if it is `k`, kept otherwise. */
  lemma WithoutSnoc(ks: seq<string>, x: string, k: string)
    ensures Without(ks + [x], k) == Without(ks, k) + (if x == k then [] else [x])
  {
    assert (ks + [x])[..|ks|] == ks;
  }

  /** Filtering out a key that sits at position `i` of a duplicate-free key
      list is the same as cutting that one position out. */
  lemma {:induction false} WithoutAt(ks: seq<string>, k: string, i: nat)
    requires Distinct(ks) && i < |ks| && ks[i] == k
    ensures Without(ks, k) == ks[..i] + ks[i + 1..]
    decreases |ks|
  {
    var n := |ks| - 1;
    if i == n {
      WithoutAbsent(ks[..n], k);
      assert ks[..n] == ks[..i] + ks[i + 1..];
    } else {
      assert Distinct(ks[..n]);
      WithoutAt(ks[..n], k, i);
      assert ks[..n][..i] == ks[..i];
      assert ks[..n][i + 1..] + [ks[n]] == ks[i + 1..];
    }
  }

  /** Filtering out a key that is not there changes nothing. */
  lemma {:induction false} WithoutAbsent(ks: seq<string>, k: string)
    requires k !in ks
    ensures Without(ks, k) == ks
    decreases |ks|
  {
    if ks != [] {
      var n := |ks| - 1;
      assert k !in ks[..n];
      WithoutAbsent(ks[..n], k);
      assert ks[..n] + [ks[n]] == ks;
    }
  }

  lemma {:induction false} WithoutDistinct(ks: seq<string>, k: string)
    requires Distinct(ks)
    ensures Distinct(Without(ks, k))
    decreases |ks|
  {
    if ks != [] {
      var n := |ks| - 1;
      assert Distinct(ks[..n]);
      WithoutDistinct(ks[..n], k);
      assert ks[n] !in ks[..n];
    }
  }

  /** The object rest `const { k, ...rest } = o`: `rest` lacks `k`, keeps
      every other key with its value, and keeps the key order. */
  function Delete(o: Obj, k: string): (r: Obj)
    ensures Get(r, k) == None
    ensures forall k' :: k' != k ==> Get(r, k') == Get(o, k')
    ensures r.keys == Without(o.keys, k)
  {
    WithoutDistinct(o.keys, k);
    Object(Without(o.keys, k), o.vals - {k})
  }
}
