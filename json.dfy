/**
 * JSON values as `JSON.parse` produces them and `JSON.stringify` writes them.
 * An object is an ordered list of members, because JavaScript keeps the
 * insertion order of keys and the written file follows it. A key that is
 * absent reads as `undefined`, here `None`.
 */
module JsonValues {
  import opened Wrappers

  datatype Json =
    | JNull
    | JBool(b: bool)
    | JNum(n: int)
    | JStr(s: string)
    | JArr(items: seq<Json>)
    | JObj(members: seq<(string, Json)>)

  type Fields = seq<(string, Json)>

  /** The keys of an object in order (`Object.keys`). */
  function Keys(f: Fields): (r: seq<string>)
    ensures |r| == |f|
    ensures forall i :: 0 <= i < |f| ==> r[i] == f[i].0
  {
    if f == [] then [] else [f[0].0] + Keys(f[1..])
  }

  /** `obj[k]`: the member's value, or `undefined` when the key is absent. */
  function Lookup(f: Fields, k: string): (r: Option<Json>)
    ensures r.Some? <==> k in Keys(f)
  {
    if f == [] then None
    else if f[0].0 == k then Some(f[0].1)
    else Lookup(f[1..], k)
  }

  /** `obj[k] = v`: an existing member keeps its place, a new key goes last. */
  function Put(f: Fields, k: string, v: Json): (r: Fields)
    ensures Keys(r) == if k in Keys(f) then Keys(f) else Keys(f) + [k]
    ensures Lookup(r, k) == Some(v)
    ensures forall k' :: k' != k ==> Lookup(r, k') == Lookup(f, k')
  {
    if f == [] then [(k, v)]
    else if f[0].0 == k then [(k, v)] + f[1..]
    else [f[0]] + Put(f[1..], k, v)
  }

  /** What `JSON.parse` guarantees: no key occurs twice. */
  predicate UniqueKeys(f: Fields)
  {
    forall i, j :: 0 <= i < j < |Keys(f)| ==> Keys(f)[i] != Keys(f)[j]
  }

  /** JavaScript truthiness of a value read from an object. */
  predicate Truthy(v: Option<Json>)
  {
    match v
    case None => false
    case Some(JNull) => false
    case Some(JBool(b)) => b
    case Some(JNum(n)) => n != 0
    case Some(JStr(s)) => s != ""
    case Some(_) => true
  }

  /** The value of the last member with key `k`: the one a run of assignments leaves behind. */
  function LastValue(f: Fields, k: string): Json
    requires k in Keys(f)
    decreases |f|
  {
    var n := |f| - 1;
    KeysAppend(f[..n], [f[n]]);
    assert f[..n] + [f[n]] == f;
    if f[n].0 == k then f[n].1 else LastValue(f[..n], k)
  }

  /** `for (k of keys(source)) target[k] = source[k]`, one assignment after another. */
  function MergeFields(target: Fields, source: Fields): Fields
    decreases |source|
  {
    if source == [] then target
    else
      var n := |source| - 1;
      Put(MergeFields(target, source[..n]), source[n].0, source[n].1)
  }

  lemma KeysAppend(a: Fields, b: Fields)
    ensures Keys(a + b) == Keys(a) + Keys(b)
  {
    forall i | 0 <= i < |a + b|
      ensures Keys(a + b)[i] == (Keys(a) + Keys(b))[i]
    {
      if i >= |a| {
        assert (a + b)[i] == b[i - |a|];
      }
    }
  }

  lemma {:induction false} LookupAppend(a: Fields, b: Fields, k: string)
    ensures Lookup(a + b, k) == if k in Keys(a) then Lookup(a, k) else Lookup(b, k)
    decreases |a|
  {
    if a != [] {
      assert (a + b)[0] == a[0];
      if a[0].0 != k {
        assert (a + b)[1..] == a[1..] + b;
        assert Keys(a) == [a[0].0] + Keys(a[1..]);
        LookupAppend(a[1..], b, k);
      }
    } else {
      assert a + b == b;
    }
  }

  /** A second assignment to the same key overrides the first without moving it. */
  lemma {:induction false} PutPut(f: Fields, k: string, x: Json, y: Json)
    ensures Put(Put(f, k, x), k, y) == Put(f, k, y)
    decreases |f|
  {
    if f != [] && f[0].0 != k {
      PutPut(f[1..], k, x, y);
    }
  }

  /** Assigning keeps the keys distinct. */
  lemma PutUnique(f: Fields, k: string, v: Json)
    requires UniqueKeys(f)
    ensures UniqueKeys(Put(f, k, v))
  {
  }

  lemma UniquePrefix(f: Fields, n: nat)
    requires UniqueKeys(f) && n <= |f|
    ensures UniqueKeys(f[..n])
  {
    forall i, j | 0 <= i < j < |Keys(f[..n])|
      ensures Keys(f[..n])[i] != Keys(f[..n])[j]
    {
      assert Keys(f)[i] == Keys(f[..n])[i] && Keys(f)[j] == Keys(f[..n])[j];
    }
  }

  /** With distinct keys, the member `obj[k]` finds is the last one with that key. */
  lemma {:induction false} UniqueLast(f: Fields, k: string)
    requires UniqueKeys(f)
    requires k in Keys(f)
    ensures Lookup(f, k) == Some(LastValue(f, k))
    decreases |f|
  {
    var n := |f| - 1;
    var init := f[..n];
    assert init + [f[n]] == f;
    KeysAppend(init, [f[n]]);
    LookupAppend(init, [f[n]], k);
    assert Keys([f[n]]) == [f[n].0];
    if f[n].0 == k {
      forall i | 0 <= i < |Keys(init)|
        ensures Keys(init)[i] != k
      {
        assert Keys(f)[i] == Keys(init)[i] && Keys(f)[n] == k;
      }
    } else {
      UniquePrefix(f, n);
      UniqueLast(init, k);
    }
  }

  /**
   * Copying `source` onto `target`: every key of `source` ends up holding its
   * last value there, every other key keeps its value in `target`.
   */
  lemma {:induction false} MergeLookup(target: Fields, source: Fields, k: string)
    ensures Lookup(MergeFields(target, source), k)
         == if k in Keys(source) then Some(LastValue(source, k)) else Lookup(target, k)
    decreases |source|
  {
    if source != [] {
      var n := |source| - 1;
      var init := source[..n];
      assert init + [source[n]] == source;
      KeysAppend(init, [source[n]]);
      assert Keys([source[n]]) == [source[n].0];
      MergeLookup(target, init, k);
    }
  }

  /** Copying keeps the keys of `target` first and in order, and adds exactly the new keys of `source`. */
  lemma {:induction false} MergeKeys(target: Fields, source: Fields)
    ensures Keys(target) <= Keys(MergeFields(target, source))
    ensures forall k :: k in Keys(MergeFields(target, source)) <==> k in Keys(target) || k in Keys(source)
    decreases |source|
  {
    if source != [] {
      var n := |source| - 1;
      var init := source[..n];
      assert init + [source[n]] == source;
      KeysAppend(init, [source[n]]);
      assert Keys([source[n]]) == [source[n].0];
      MergeKeys(target, init);
    }
  }
}
