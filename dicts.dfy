/** Python's insertion-ordered `dict` with text keys: the keys in the order
    they were first inserted, and the value of each. Iteration order is observable in the
    log model (keys are listed file by file), so a plain map is not enough. */
module Dicts {

  datatype RawDict<V> = RawDict(keys: seq<string>, entries: map<string, V>)

  /** Every key is listed exactly once, and exactly the listed keys have a value. */
  ghost predicate WellFormed<V>(d: RawDict<V>) {
    && (forall i, j :: 0 <= i < j < |d.keys| ==> d.keys[i] != d.keys[j])
    && (forall k :: k in d.entries <==> k in d.keys)
  }

  type Dict<V> = d: RawDict<V> | WellFormed(d) witness RawDict([], map[])

  /** `{}`. */
  function Empty<V>(): (d: Dict<V>)
    ensures d.keys == [] && d.entries == map[]
  {
    RawDict([], map[])
  }

  /** `d.get(k, default)`. */
  function GetOr<V>(d: Dict<V>, k: string, default: V): V
  {
    if k in d.entries then d.entries[k] else default
  }

  /** `d[k] = v`: an existing key keeps its place, a new key goes last. */
  function Put<V>(d: Dict<V>, k: string, v: V): (r: Dict<V>)
    ensures r.entries == d.entries[k := v]
    ensures r.keys == if k in d.entries then d.keys else d.keys + [k]
  {
    if k in d.entries then RawDict(d.keys, d.entries[k := v])
    else RawDict(d.keys + [k], d.entries[k := v])
  }

  /** The keys of `s` other than `k`, in order. */
  function Without(s: seq<string>, k: string): (r: seq<string>)
    ensures forall x :: x in r <==> x in s && x != k
    ensures |r| <= |s|
  {
    if s == [] then []
    else if s[0] == k then Without(s[1..], k)
    else [s[0]] + Without(s[1..], k)
  }

  lemma {:induction false} WithoutDistinct(s: seq<string>, k: string)
    requires forall i, j :: 0 <= i < j < |s| ==> s[i] != s[j]
    ensures forall i, j :: 0 <= i < j < |Without(s, k)| ==> Without(s, k)[i] != Without(s, k)[j]
  {
    if s != [] {
      WithoutDistinct(s[1..], k);
      assert s[0] !in s[1..];
    }
  }

  /** `del d[k]`, for a key that is present; the other keys keep their order. */
  function Remove<V>(d: Dict<V>, k: string): (r: Dict<V>)
    requires k in d.entries
    ensures r.entries == d.entries - {k}
    ensures r.keys == Without(d.keys, k)
  {
    WithoutDistinct(d.keys, k);
    RawDict(Without(d.keys, k), d.entries - {k})
  }

  /** Writing the same key twice leaves only the second value. */
  lemma PutPut<V>(d: Dict<V>, k: string, v: V, w: V)
    ensures Put(Put(d, k, v), k, w) == Put(d, k, w)
  {
  }

  /** Two dictionaries with the same key order and the same values are equal. */
  lemma Extensional<V>(d: Dict<V>, e: Dict<V>)
    requires d.keys == e.keys
    requires forall k :: k in d.entries ==> d.entries[k] == e.entries[k]
    ensures d == e
  {
    assert d.entries.Keys == e.entries.Keys;
  }
}
