/** Python dictionaries keep their keys in insertion order, and several
    results of the components (topic lists, study plans, hour tallies) show
    that order. A dictionary is modelled as a list of key/value pairs whose
    keys are distinct. */
module Dict {
  import opened Wrappers
  import opened Seqs

  type Dict<K, V> = seq<(K, V)>

  /** The keys, in insertion order (`d.keys()`). */
  function Keys<K, V>(d: Dict<K, V>): (ks: seq<K>)
    ensures |ks| == |d|
    ensures forall i :: 0 <= i < |d| ==> ks[i] == d[i].0
  {
    seq(|d|, i requires 0 <= i < |d| => d[i].0)
  }

  /** Distinct keys: what every Python dict satisfies. */
  predicate Valid<K(==), V>(d: Dict<K, V>)
  {
    NoDup(Keys(d))
  }

  /** Position of `k`, if present. */
  function IndexOf<K(==), V>(d: Dict<K, V>, k: K): (r: Option<nat>)
    ensures r.Some? ==> r.value < |d| && d[r.value].0 == k
    ensures r.Some? ==> forall j :: 0 <= j < r.value ==> d[j].0 != k
    ensures r.None? <==> k !in Keys(d)
    decreases |d|
  {
    if d == [] then None
    else if d[0].0 == k then Some(0)
    else match IndexOf(d[1..], k)
      case Some(i) => Some(i + 1)
      case None => None
  }

  /** `d.get(k)`: the value stored under `k`. */
  function Get<K(==), V>(d: Dict<K, V>, k: K): (r: Option<V>)
    ensures r.Some? <==> k in Keys(d)
  {
    match IndexOf(d, k)
    case Some(i) => Some(d[i].1)
    case None => None
  }

  /** `d[k] = v`: overwrite in place when `k` is present, otherwise append. */
  function Put<K(==), V>(d: Dict<K, V>, k: K, v: V): (r: Dict<K, V>)
    ensures k in Keys(d) ==> Keys(r) == Keys(d)
    ensures k !in Keys(d) ==> Keys(r) == Keys(d) + [k]
  {
    match IndexOf(d, k)
    case Some(i) => d[i := (k, v)]
    case None => d + [(k, v)]
  }

  /** After `d[k] = v`, `d[k]` is `v`. */
  lemma GetPutSame<K, V>(d: Dict<K, V>, k: K, v: V)
    ensures Get(Put(d, k, v), k) == Some(v)
  {
    var r := Put(d, k, v);
    match IndexOf(d, k)
    case Some(i) =>
      assert IndexOf(r, k) == Some(i) by {
        IndexOfAgrees(d, r, k, i);
      }
    case None =>
      IndexOfLast(d, k, v);
  }

  /** After `d[k] = v`, every other key maps to what it did before. */
  lemma GetPutOther<K, V>(d: Dict<K, V>, k: K, v: V, k': K)
    requires k' != k
    ensures Get(Put(d, k, v), k') == Get(d, k')
  {
    var r := Put(d, k, v);
    assert forall j :: 0 <= j < |d| ==> r[j].0 == d[j].0 && (d[j].0 != k ==> r[j] == d[j]);
    IndexOfOther(d, r, k, k');
  }

  /** Writing a key keeps the keys distinct. */
  lemma PutValid<K, V>(d: Dict<K, V>, k: K, v: V)
    requires Valid(d)
    ensures Valid(Put(d, k, v))
  {
    if k !in Keys(d) {
      NoDupAppend(Keys(d), k);
    }
  }

  /** The values, in insertion order (`d.values()`). */
  function Values<K, V>(d: Dict<K, V>): (vs: seq<V>)
    ensures |vs| == |d|
    ensures forall i :: 0 <= i < |d| ==> vs[i] == d[i].1
  {
    seq(|d|, i requires 0 <= i < |d| => d[i].1)
  }

  /** Writing the same value twice is writing it once. */
  lemma PutPut<K, V>(d: Dict<K, V>, k: K, v: V)
    ensures Put(Put(d, k, v), k, v) == Put(d, k, v)
  {
    var r := Put(d, k, v);
    match IndexOf(d, k)
    case Some(i) =>
      IndexOfAgrees(d, r, k, i);
      assert r[i := (k, v)] == r;
    case None =>
      IndexOfLast(d, k, v);
      assert r[|d| := (k, v)] == r;
  }

  lemma {:induction false} IndexOfAgrees<K, V>(d: Dict<K, V>, r: Dict<K, V>, k: K, i: nat)
    requires |r| == |d| && IndexOf(d, k) == Some(i)
    requires forall j :: 0 <= j < |d| ==> r[j].0 == d[j].0
    ensures IndexOf(r, k) == Some(i)
    decreases |d|
  {
    if d[0].0 != k {
      assert IndexOf(d[1..], k) == Some(i - 1);
      forall j | 0 <= j < |d[1..]| ensures r[1..][j].0 == d[1..][j].0 {
        assert r[1..][j] == r[j + 1] && d[1..][j] == d[j + 1];
      }
      IndexOfAgrees(d[1..], r[1..], k, i - 1);
      assert r[0].0 != k;
    }
  }

  lemma {:induction false} IndexOfLast<K, V>(d: Dict<K, V>, k: K, v: V)
    requires IndexOf(d, k).None?
    ensures IndexOf(d + [(k, v)], k) == Some(|d|)
    decreases |d|
  {
    if d != [] {
      assert (d + [(k, v)])[1..] == d[1..] + [(k, v)];
      IndexOfLast(d[1..], k, v);
    }
  }

  lemma {:induction false} IndexOfOther<K, V>(d: Dict<K, V>, r: Dict<K, V>, k: K, k': K)
    requires k' != k
    requires |r| == |d| || (|r| == |d| + 1 && r[|d|].0 == k)
    requires forall j :: 0 <= j < |d| ==> r[j].0 == d[j].0 && (d[j].0 != k ==> r[j] == d[j])
    ensures match IndexOf(d, k')
            case Some(i) => IndexOf(r, k') == Some(i) && r[i] == d[i]
            case None => IndexOf(r, k').None?
    decreases |d|
  {
    if d == [] {
      if r != [] {
        assert r[1..] == [];
      }
    } else if d[0].0 != k' {
      IndexOfOther(d[1..], r[1..], k, k');
    }
  }

  /** In a dictionary with distinct keys, looking up an entry's key finds that entry. */
  lemma GetEntry<K, V>(d: Dict<K, V>, i: nat)
    requires Valid(d) && i < |d|
    ensures Get(d, d[i].0) == Some(d[i].1)
  {
    var j := IndexOf(d, d[i].0).value;
    assert Keys(d)[j] == Keys(d)[i];
  }
}
