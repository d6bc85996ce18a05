/**
 The JavaScript values the print-form handler works on: the records the
 inspection-lot services return are plain objects, and the document it builds
 from them is a tree of objects, arrays and scalars.

 An object is a sequence of (key, value) entries rather than a map, because
 `Object.entries` and `Object.fromEntries` preserve the order of the keys and
 the order decides the order of the XML elements rendered from it.
 */
module Json {

  datatype Option<+T> = None | Some(value: T)

  datatype Json =
    | Null
    | Str(s: string)
    | Num(n: int)
    | Bool(b: bool)
    | Arr(items: seq<Json>)
    | Obj(entries: seq<(string, Json)>)

  /** The own properties of an object, in insertion order. */
  type Fields = seq<(string, Json)>

  /** Neither an array nor an object (`typeof v !== 'object'`, or `null`). */
  predicate IsScalar(v: Json) {
    !v.Arr? && !v.Obj?
  }

  function Keys(fs: Fields): seq<string> {
    seq(|fs|, i requires 0 <= i < |fs| => fs[i].0)
  }

  lemma KeysCons(e: (string, Json), fs: Fields)
    ensures Keys([e] + fs) == [e.0] + Keys(fs)
  {
  }

  /** Property read `obj[k]`; `None` stands for `undefined`. */
  function Get(fs: Fields, k: string): (r: Option<Json>)
    ensures r.None? <==> k !in Keys(fs)
    ensures r.Some? ==> (k, r.value) in fs
  {
    if |fs| == 0 then None
    else if fs[0].0 == k then assert Keys(fs)[0] == k; Some(fs[0].1)
    else
      assert Keys(fs) == [fs[0].0] + Keys(fs[1..]);
      Get(fs[1..], k)
  }

  /**
   The object literal `{...fs, [k]: v}`: the spread copies the entries in
   order, then the property k is overwritten where it already stands, or
   appended after the copied entries when it is new.
   */
  function Set(fs: Fields, k: string, v: Json): (r: Fields)
    ensures Get(r, k) == Some(v)
    ensures forall j :: j != k ==> Get(r, j) == Get(fs, j)
    ensures Keys(r) == if k in Keys(fs) then Keys(fs) else Keys(fs) + [k]
  {
    if |fs| == 0 then [(k, v)]
    else
      KeysCons(fs[0], fs[1..]);
      assert fs == [fs[0]] + fs[1..];
      if fs[0].0 == k then
        KeysCons((k, v), fs[1..]);
        [(k, v)] + fs[1..]
      else
        var rest := Set(fs[1..], k, v);
        KeysCons(fs[0], rest);
        [fs[0]] + rest
  }

  /** Property read along a path of object keys, `v[path[0]][path[1]]...`. */
  function At(v: Json, path: seq<string>): Option<Json>
    decreases |path|
  {
    if |path| == 0 then Some(v)
    else if !v.Obj? then None
    else
      match Get(v.entries, path[0])
      case None => None
      case Some(child) => At(child, path[1..])
  }

  /** The object literal `{...fs, [k]: v}` lists the keys of fs first, in their order. */
  lemma SetKeepsKeyOrder(fs: Fields, k: string, v: Json)
    ensures Keys(fs) <= Keys(Set(fs, k, v))
  {
  }

  /** Four properties set in turn, none of them present before, are appended in that order. */
  lemma SetFourNewKeys(fs: Fields, k1: string, v1: Json, k2: string, v2: Json,
                       k3: string, v3: Json, k4: string, v4: Json)
    requires k1 !in Keys(fs) && k2 !in Keys(fs) && k3 !in Keys(fs) && k4 !in Keys(fs)
    requires k1 != k2 && k1 != k3 && k1 != k4 && k2 != k3 && k2 != k4 && k3 != k4
    ensures Keys(Set(Set(Set(Set(fs, k1, v1), k2, v2), k3, v3), k4, v4)) == Keys(fs) + [k1, k2, k3, k4]
  {
    var ks := Keys(fs);
    var f1 := Set(fs, k1, v1);
    var f2 := Set(f1, k2, v2);
    var f3 := Set(f2, k3, v3);
    SetAppendsNewKey(fs, k1, v1);
    NotInAppend(ks, k1, k2);
    SetAppendsNewKey(f1, k2, v2);
    NotInAppend(ks, k1, k3);
    NotInAppend(ks + [k1], k2, k3);
    SetAppendsNewKey(f2, k3, v3);
    NotInAppend(ks, k1, k4);
    NotInAppend(ks + [k1], k2, k4);
    NotInAppend(ks + [k1] + [k2], k3, k4);
    SetAppendsNewKey(f3, k4, v4);
    AppendFour(ks, k1, k2, k3, k4);
  }

  lemma AppendFour(ks: seq<string>, k1: string, k2: string, k3: string, k4: string)
    ensures ks + [k1] + [k2] + [k3] + [k4] == ks + [k1, k2, k3, k4]
  {
  }

  lemma SetAppendsNewKey(fs: Fields, k: string, v: Json)
    requires k !in Keys(fs)
    ensures Keys(Set(fs, k, v)) == Keys(fs) + [k]
  {
  }

  lemma NotInAppend(ks: seq<string>, x: string, k: string)
    requires k !in ks && k != x
    ensures k !in ks + [x]
  {
  }

  lemma PrefixTransitive(a: seq<string>, b: seq<string>, c: seq<string>)
    requires a <= b && b <= c
    ensures a <= c
  {
  }

  /** Reading two keys deep, through the object held under the first key. */
  lemma AtTwoKeys(v: Json, a: string, b: string)
    requires v.Obj? && Get(v.entries, a).Some? && Get(v.entries, a).value.Obj?
    ensures At(v, [a, b]) == Get(Get(v.entries, a).value.entries, b)
  {
    var c := Get(v.entries, a).value;
    assert [a, b][1..] == [b];
    assert At(v, [a, b]) == At(c, [b]);
    if Get(c.entries, b).Some? {
      assert [b][1..] == [];
    }
  }

  /** An array of records: each field list becomes an object. */
  function Objects(rs: seq<Fields>): (r: seq<Json>)
    ensures |r| == |rs|
    ensures forall i :: 0 <= i < |rs| ==> r[i].Obj? && r[i].entries == rs[i]
  {
    seq(|rs|, i requires 0 <= i < |rs| => Obj(rs[i]))
  }

  /**
   Strict equality `a === b` between two property reads of records that were
   fetched separately: `undefined === undefined`, scalars compare by value,
   and two arrays or objects are never the same reference.
   */
  function StrictEquals(a: Option<Json>, b: Option<Json>): (r: bool)
    ensures r ==> a == b
    ensures a == b && (a.None? || IsScalar(a.value)) ==> r
  {
    match (a, b)
    case (None, None) => true
    case (Some(x), Some(y)) => IsScalar(x) && x == y
    case _ => false
  }

  /** JavaScript truthiness, which decides `x || ''`: arrays and objects are truthy, even empty ones. */
  predicate Truthy(v: Json): (b: bool)
    ensures b <==> v !in {Null, Bool(false), Num(0), Str("")}
  {
    match v
    case Null => false
    case Bool(b) => b
    case Num(n) => n != 0
    case Str(s) => s != ""
    case _ => true
  }
}
