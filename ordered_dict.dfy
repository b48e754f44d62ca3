/** Python's `dict` with string keys, as far as the time-series stores use
    it: assignment (which keeps an existing key in place and appends a new
    one), `del`, membership, lookup and iteration in insertion order. */
module OrderedDict {

  datatype Dict<V> = Dict(keys: seq<string>, values: map<string, V>)

  /** The keys are listed once each, and they are exactly the domain. */
  ghost predicate Valid<V>(d: Dict<V>)
  {
    && (forall i, j :: 0 <= i < j < |d.keys| ==> d.keys[i] != d.keys[j])
    && (forall k :: k in d.values <==> k in d.keys)
  }

  /** `{}` */
  function Empty<V>(): (d: Dict<V>)
    ensures Valid(d) && d.values == map[] && d.keys == []
  {
    Dict([], map[])
  }

  /** `d[k] = v`: the value under k is replaced (or added); an existing key
      keeps its position and a new key goes last. */
  function Assign<V>(d: Dict<V>, k: string, v: V): (r: Dict<V>)
    requires Valid(d)
    ensures Valid(r)
    ensures r.values == d.values[k := v]
    ensures k in d.values ==> r.keys == d.keys
    ensures k !in d.values ==> r.keys == d.keys + [k]
  {
    if k in d.values then Dict(d.keys, d.values[k := v])
    else Dict(d.keys + [k], d.values[k := v])
  }

  /** Index of a key in the key list. */
  function IndexOf(keys: seq<string>, k: string): (i: nat)
    requires k in keys
    ensures i < |keys| && keys[i] == k
    ensures forall j :: 0 <= j < i ==> keys[j] != k
  {
    if keys[0] == k then 0 else 1 + IndexOf(keys[1..], k)
  }

  /** `del d[k]` for a present key: k leaves the key list and the others
      keep their order. */
  function Remove<V>(d: Dict<V>, k: string): (r: Dict<V>)
    requires Valid(d) && k in d.values
    ensures Valid(r)
    ensures r.values == d.values - {k}
    ensures var i := IndexOf(d.keys, k); r.keys == d.keys[..i] + d.keys[i + 1..]
  {
    var i := IndexOf(d.keys, k);
    DropAt(d.keys, i);
    Dict(d.keys[..i] + d.keys[i + 1..], d.values - {k})
  }

  /** Dropping position i of a duplicate-free list leaves a duplicate-free
      list of the other keys. */
  lemma DropAt(keys: seq<string>, i: nat)
    requires i < |keys|
    requires forall a, b :: 0 <= a < b < |keys| ==> keys[a] != keys[b]
    ensures var r := keys[..i] + keys[i + 1..];
      && (forall a, b :: 0 <= a < b < |r| ==> r[a] != r[b])
      && (forall x :: x in r <==> x in keys && x != keys[i])
  {
    var r := keys[..i] + keys[i + 1..];
    assert forall a :: 0 <= a < |r| ==> r[a] == keys[if a < i then a else a + 1];
    forall x | x in keys && x != keys[i]
      ensures x in r
    {
      var j :| 0 <= j < |keys| && keys[j] == x;
      assert r[if j < i then j else j - 1] == x;
    }
  }

  /** Assigning the same key twice keeps only the later value: an upsert is a
      full replacement. */
  lemma AssignTwice<V>(d: Dict<V>, k: string, v1: V, v2: V)
    requires Valid(d)
    ensures Assign(Assign(d, k, v1), k, v2) == Assign(d, k, v2)
  {
  }

  /** Lookup after assignment sees the new value under k and the old value
      under every other key. */
  lemma AssignLookup<V>(d: Dict<V>, k: string, v: V, other: string)
    requires Valid(d)
    ensures Assign(d, k, v).values[k] == v
    ensures other != k ==> (other in Assign(d, k, v).values <==> other in d.values)
    ensures other != k && other in d.values ==> Assign(d, k, v).values[other] == d.values[other]
  {
  }

  /** Removing a key just added restores the dict. */
  lemma RemoveUndoesAdd<V>(d: Dict<V>, k: string, v: V)
    requires Valid(d) && k !in d.values
    ensures Remove(Assign(d, k, v), k) == d
  {
    var a := Assign(d, k, v);
    IndexOfAppended(d.keys, k);
    assert a.keys[..|d.keys|] == d.keys;
    assert a.values - {k} == d.values;
  }

  /** A key appended to a list it was not in is found at the end. */
  lemma {:induction false} IndexOfAppended(keys: seq<string>, k: string)
    requires k !in keys
    ensures IndexOf(keys + [k], k) == |keys|
  {
    if |keys| > 0 {
      assert (keys + [k])[1..] == keys[1..] + [k];
      IndexOfAppended(keys[1..], k);
    }
  }
}
