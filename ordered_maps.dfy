/**
 * Insertion-ordered string-keyed dictionaries, as Python's `dict` behaves:
 * an entry list in insertion order, keys unique, and `d[k] = v` that
 * overwrites in place when `k` is present and appends otherwise.
 */
module OrderedMaps {
  import opened Wrappers

  type OMap<V> = seq<(string, V)>

  function Keys<V>(m: OMap<V>): seq<string>
  {
    seq(|m|, i requires 0 <= i < |m| => m[i].0)
  }

  lemma InKeys<V>(m: OMap<V>, k: string)
    ensures k in Keys(m) <==> exists i :: 0 <= i < |m| && m[i].0 == k
  {
    if k in Keys(m) {
      var i :| 0 <= i < |m| && Keys(m)[i] == k;
    }
    if exists i :: 0 <= i < |m| && m[i].0 == k {
      var i :| 0 <= i < |m| && m[i].0 == k;
      assert Keys(m)[i] == k;
    }
  }

  ghost predicate UniqueKeys<V>(m: OMap<V>)
  {
    forall i, j :: 0 <= i < j < |m| ==> m[i].0 != m[j].0
  }

  /** Position of `k` in `m`, searching from the front. */
  function Find<V>(m: OMap<V>, k: string): (r: Option<nat>)
    ensures r.None? <==> k !in Keys(m)
    ensures r.Some? ==> r.value < |m| && m[r.value].0 == k
    ensures r.Some? ==> forall j :: 0 <= j < r.value ==> m[j].0 != k
  {
    InKeys(m, k);
    if m == [] then None
    else if m[0].0 == k then Some(0)
    else
      assert Keys(m) == [m[0].0] + Keys(m[1..]);
      match Find(m[1..], k)
      case None => None
      case Some(i) => Some(i + 1)
  }

  /** `d.get(k)`: the value stored under `k`, if any. */
  function Get<V>(m: OMap<V>, k: string): (r: Option<V>)
  {
    match Find(m, k)
    case None => None
    case Some(i) => Some(m[i].1)
  }

  /** `d[k] = v`: overwrite in place when `k` is present, append otherwise. */
  function Set<V>(m: OMap<V>, k: string, v: V): (r: OMap<V>)
  {
    match Find(m, k)
    case Some(i) => m[i := (k, v)]
    case None => m + [(k, v)]
  }

  lemma SetNew<V>(m: OMap<V>, k: string, v: V)
    requires k !in Keys(m)
    ensures Set(m, k, v) == m + [(k, v)]
  {
  }

  /** Assigning every item of `u` into `m`, one after another in `u`'s order. */
  function SetAll<V>(m: OMap<V>, u: OMap<V>): OMap<V>
  {
    if u == [] then m else Set(SetAll(m, u[..|u| - 1]), u[|u| - 1].0, u[|u| - 1].1)
  }

  /** The keys of `ks` that are not in `existing`, in order. */
  function NewKeys(ks: seq<string>, existing: seq<string>): (r: seq<string>)
  {
    if ks == [] then []
    else NewKeys(ks[..|ks| - 1], existing) + (if ks[|ks| - 1] in existing then [] else [ks[|ks| - 1]])
  }

  /** Setting a key keeps every other key's value and position, and stores `v` under `k`. */
  lemma SetSpec<V>(m: OMap<V>, k: string, v: V)
    requires UniqueKeys(m)
    ensures UniqueKeys(Set(m, k, v))
    ensures Keys(Set(m, k, v)) == if k in Keys(m) then Keys(m) else Keys(m) + [k]
    ensures Get(Set(m, k, v), k) == Some(v)
    ensures forall j :: j != k ==> Get(Set(m, k, v), j) == Get(m, j)
  {
    var r := Set(m, k, v);
    InKeys(m, k);
    match Find(m, k)
    case Some(i) =>
      assert Keys(r) == Keys(m);
      forall j | j != k ensures Get(r, j) == Get(m, j) {
        GetUnique(m, j);
        GetUnique(r, j);
      }
      GetUnique(r, k);
    case None =>
      assert Keys(r) == Keys(m) + [k];
      forall j | j != k ensures Get(r, j) == Get(m, j) {
        GetUnique(m, j);
        GetUnique(r, j);
      }
      GetUnique(r, k);
  }

  /** In a map with unique keys, `Get` finds the one entry holding the key. */
  lemma GetUnique<V>(m: OMap<V>, k: string)
    requires UniqueKeys(m)
    ensures Get(m, k).None? <==> k !in Keys(m)
    ensures forall i :: 0 <= i < |m| && m[i].0 == k ==> Get(m, k) == Some(m[i].1)
  {
    InKeys(m, k);
  }

  /**
   * Merging `u` into `m` key by key: every key of `u` ends with `u`'s
   * value (the last writer wins), every other key keeps `m`'s value,
   * the keys of `m` keep their positions, and the new keys of `u` are
   * appended in `u`'s order.
   */
  lemma {:induction false} SetAllSpec<V>(m: OMap<V>, u: OMap<V>)
    requires UniqueKeys(m) && UniqueKeys(u)
    ensures UniqueKeys(SetAll(m, u))
    ensures Keys(SetAll(m, u)) == Keys(m) + NewKeys(Keys(u), Keys(m))
    ensures forall k :: Get(SetAll(m, u), k) == if k in Keys(u) then Get(u, k) else Get(m, k)
  {
    if u != [] {
      var u' := u[..|u| - 1];
      var (k, v) := u[|u| - 1];
      var s := SetAll(m, u');
      LastEntry(u);
      SetAllSpec(m, u');
      SetAllKeysStep(m, u);
      forall j ensures Get(SetAll(m, u), j) == if j in Keys(u) then Get(u, j) else Get(m, j) {
        SetAllGetStep(m, u, j);
      }
    }
  }

  /** Uniqueness and key order of `SetAllSpec` for `u`, from those for `u` without its last entry. */
  lemma SetAllKeysStep<V>(m: OMap<V>, u: OMap<V>)
    requires UniqueKeys(u) && u != []
    requires UniqueKeys(SetAll(m, u[..|u| - 1]))
    requires Keys(SetAll(m, u[..|u| - 1])) == Keys(m) + NewKeys(Keys(u[..|u| - 1]), Keys(m))
    ensures UniqueKeys(SetAll(m, u))
    ensures Keys(SetAll(m, u)) == Keys(m) + NewKeys(Keys(u), Keys(m))
  {
    var u' := u[..|u| - 1];
    var s := SetAll(m, u');
    var k := u[|u| - 1].0;
    var v := u[|u| - 1].1;
    assert SetAll(m, u) == Set(s, k, v);
    LastEntry(u);
    SetSpec(s, k, v);
    assert Keys(u)[..|Keys(u)| - 1] == Keys(u');
    assert k !in NewKeys(Keys(u'), Keys(m)) by {
      NewKeysSub(Keys(u'), Keys(m));
    }
    assert k in Keys(s) <==> k in Keys(m);
  }

  lemma {:induction false} NewKeysSub(ks: seq<string>, existing: seq<string>)
    ensures forall x :: x in NewKeys(ks, existing) ==> x in ks
  {
    if ks != [] {
      NewKeysSub(ks[..|ks| - 1], existing);
      assert forall x :: x in ks[..|ks| - 1] ==> x in ks;
    }
  }

  /** The lookup law of `SetAllSpec` at one key for `u`, from the one for `u` without its last entry. */
  lemma SetAllGetStep<V>(m: OMap<V>, u: OMap<V>, j: string)
    requires UniqueKeys(u) && u != []
    requires UniqueKeys(SetAll(m, u[..|u| - 1]))
    requires Get(SetAll(m, u[..|u| - 1]), j) ==
               if j in Keys(u[..|u| - 1]) then Get(u[..|u| - 1], j) else Get(m, j)
    ensures Get(SetAll(m, u), j) == if j in Keys(u) then Get(u, j) else Get(m, j)
  {
    var u' := u[..|u| - 1];
    var s := SetAll(m, u');
    var k := u[|u| - 1].0;
    var v := u[|u| - 1].1;
    assert SetAll(m, u) == Set(s, k, v);
    LastEntry(u);
    SetSpec(s, k, v);
  }

  /** Splitting off the last entry of a map with unique keys. */
  lemma LastEntry<V>(u: OMap<V>)
    requires UniqueKeys(u) && u != []
    ensures UniqueKeys(u[..|u| - 1])
    ensures Keys(u) == Keys(u[..|u| - 1]) + [u[|u| - 1].0]
    ensures u[|u| - 1].0 !in Keys(u[..|u| - 1])
    ensures Get(u, u[|u| - 1].0) == Some(u[|u| - 1].1)
    ensures forall j :: j != u[|u| - 1].0 ==> Get(u, j) == Get(u[..|u| - 1], j)
  {
    var u' := u[..|u| - 1];
    var k := u[|u| - 1].0;
    assert Keys(u) == Keys(u') + [k];
    InKeys(u', k);
    GetUnique(u, k);
    forall j | j != k ensures Get(u, j) == Get(u', j) {
      GetUnique(u, j);
      GetUnique(u', j);
      InKeys(u', j);
      if j in Keys(u') {
        var i :| 0 <= i < |u'| && u'[i].0 == j;
        assert u[i] == u'[i];
      }
    }
  }

  /** Looking up in a concatenation: the front part answers first. */
  lemma {:induction false} GetAppend<V>(a: OMap<V>, b: OMap<V>, k: string)
    ensures Get(a + b, k) == if k in Keys(a) then Get(a, k) else Get(b, k)
  {
    InKeys(a, k);
    if a != [] {
      assert (a + b)[0] == a[0] && (a + b)[1..] == a[1..] + b;
      assert Keys(a) == [a[0].0] + Keys(a[1..]);
      GetAppend(a[1..], b, k);
    } else {
      assert a + b == b;
    }
  }
}
