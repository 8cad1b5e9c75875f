/**
 * A JavaScript plain object used as a dictionary, modelled as an ordered
 * association list: keys are distinct and enumerate in insertion order.
 * Assigning to an existing key keeps its position; assigning a new key
 * appends it; `delete` removes the entry.
 */
module Dict {
  import opened Lists

  predicate DistinctKeys<K(==, !new), V(!new)>(c: seq<(K, V)>) {
    forall i, j :: 0 <= i < j < |c| ==> c[i].0 != c[j].0
  }

  type Dict<K(==, !new), V(!new)> = c: seq<(K, V)> | DistinctKeys(c) witness []

  /** `Object.keys(c)`. */
  function Keys<K(==, !new), V(!new)>(c: Dict<K, V>): (ks: seq<K>)
    ensures |ks| == |c| && forall i :: 0 <= i < |c| ==> ks[i] == c[i].0
  {
    seq(|c|, i requires 0 <= i < |c| => c[i].0)
  }

  /** The position of key `k`, or -1 when it is absent. */
  function IndexOf<K(==, !new), V(!new)>(c: seq<(K, V)>, k: K): (r: int)
    ensures -1 <= r < |c|
    ensures r >= 0 ==> c[r].0 == k
    ensures r < 0 <==> forall i :: 0 <= i < |c| ==> c[i].0 != k
    ensures forall i :: 0 <= i < r ==> c[i].0 != k
    decreases |c|
  {
    if c == [] then -1
    else if c[0].0 == k then 0
    else
      var r := IndexOf(c[1..], k);
      assert forall i :: 1 <= i < |c| ==> c[i] == c[1..][i - 1];
      if r < 0 then -1 else r + 1
  }

  /** With distinct keys, the position of a key is the only one holding it. */
  lemma IndexOfUnique<K(!new), V(!new)>(c: Dict<K, V>, i: int)
    requires 0 <= i < |c|
    ensures IndexOf(c, c[i].0) == i
  {
  }

  /** `c[k]`: the value stored under `k`, if any. */
  function Lookup<K(==, !new), V(!new)>(c: Dict<K, V>, k: K): (r: Option<V>)
    ensures r.Some? <==> k in Keys(c)
  {
    var i := IndexOf(c, k);
    if i < 0 then None else Some(c[i].1)
  }

  /** `c[k] = v`. */
  function Assign<K(==, !new), V(!new)>(c: Dict<K, V>, k: K, v: V): (r: Dict<K, V>)
    ensures Lookup(r, k) == Some(v)
    ensures forall k' :: k' != k ==> Lookup(r, k') == Lookup(c, k')
    ensures Keys(r) == if k in Keys(c) then Keys(c) else Keys(c) + [k]
  {
    var i := IndexOf(c, k);
    var r: Dict<K, V> := if i < 0 then c + [(k, v)] else c[i := (k, v)];
    IndexOfUnique(r, if i < 0 then |c| else i);
    forall k' | k' != k ensures Lookup(r, k') == Lookup(c, k') {
      var j := IndexOf(c, k');
      if j >= 0 {
        IndexOfUnique(r, j);
      }
    }
    r
  }

  /** `delete c[k]`. */
  function Remove<K(==, !new), V(!new)>(c: Dict<K, V>, k: K): (r: Dict<K, V>)
    ensures Lookup(r, k) == None
    ensures forall k' :: k' != k ==> Lookup(r, k') == Lookup(c, k')
    ensures k in Keys(c) ==> |r| == |c| - 1
    ensures k !in Keys(c) ==> r == c
    ensures k in Keys(c) ==> Keys(r) == Keys(c)[..IndexOf(c, k)] + Keys(c)[IndexOf(c, k) + 1..]
    ensures forall e :: e in r <==> e in c && e.0 != k
  {
    var i := IndexOf(c, k);
    if i < 0 then c
    else
      RemoveAtShape(c, i);
      var r: Dict<K, V> := c[..i] + c[i + 1..];
      RemoveAtLookup(c, i);
      RemoveAtKeys(c, i);
      r
  }

  /** Cutting one entry out keeps the keys distinct and shifts the later entries down by one. */
  lemma RemoveAtShape<K(!new), V(!new)>(c: Dict<K, V>, i: int)
    requires 0 <= i < |c|
    ensures |c[..i] + c[i + 1..]| == |c| - 1
    ensures forall j :: 0 <= j < |c| - 1 ==> (c[..i] + c[i + 1..])[j] == if j < i then c[j] else c[j + 1]
    ensures DistinctKeys(c[..i] + c[i + 1..])
  {
    var r := c[..i] + c[i + 1..];
    assert forall j :: 0 <= j < |r| ==> r[j] == if j < i then c[j] else c[j + 1];
  }

  /** Cutting one entry out keeps the other keys in their order. */
  lemma RemoveAtKeys<K(!new), V(!new)>(c: Dict<K, V>, i: int)
    requires 0 <= i < |c|
    ensures DistinctKeys(c[..i] + c[i + 1..])
    ensures Keys(c[..i] + c[i + 1..]) == Keys(c)[..i] + Keys(c)[i + 1..]
  {
    RemoveAtShape(c, i);
    var r: Dict<K, V> := c[..i] + c[i + 1..];
    var ks := Keys(c)[..i] + Keys(c)[i + 1..];
    assert |Keys(r)| == |ks|;
    forall j | 0 <= j < |ks| ensures Keys(r)[j] == ks[j] {
      assert ks[j] == Keys(c)[if j < i then j else j + 1];
    }
  }

  /** Cutting one entry out changes the lookup of no other key, and loses the one it cut. */
  lemma RemoveAtLookup<K(!new), V(!new)>(c: Dict<K, V>, i: int)
    requires 0 <= i < |c|
    ensures DistinctKeys(c[..i] + c[i + 1..])
    ensures Lookup(c[..i] + c[i + 1..], c[i].0) == None
    ensures forall k' :: k' != c[i].0 ==> Lookup(c[..i] + c[i + 1..], k') == Lookup(c, k')
    ensures forall e :: e in c[..i] + c[i + 1..] <==> e in c && e.0 != c[i].0
  {
    RemoveAtShape(c, i);
    var r: Dict<K, V> := c[..i] + c[i + 1..];
    assert forall m :: 0 <= m < |r| ==> r[m].0 != c[i].0;
    forall k' | k' != c[i].0 ensures Lookup(r, k') == Lookup(c, k') {
      var j := IndexOf(c, k');
      if j >= 0 {
        var j' := if j < i then j else j - 1;
        assert r[j'] == c[j];
        IndexOfUnique(r, j');
      } else {
        assert forall m :: 0 <= m < |r| ==> r[m].0 != k';
      }
    }
    RemoveAtMembers(c, i);
  }

  /** Cutting one entry out keeps exactly the entries under the other keys. */
  lemma RemoveAtMembers<K(!new), V(!new)>(c: Dict<K, V>, i: int)
    requires 0 <= i < |c|
    ensures forall e :: e in c[..i] + c[i + 1..] <==> e in c && e.0 != c[i].0
  {
    RemoveAtShape(c, i);
    var r := c[..i] + c[i + 1..];
    forall e ensures e in r <==> e in c && e.0 != c[i].0 {
      if e in c && e.0 != c[i].0 {
        var j :| 0 <= j < |c| && c[j] == e;
        assert r[if j < i then j else j - 1] == e;
      }
      if e in r {
        var m :| 0 <= m < |r| && r[m] == e;
        assert e == if m < i then c[m] else c[m + 1];
      }
    }
  }

  /** Deleting the key of the last entry drops that entry. */
  lemma RemoveLast<K(!new), V(!new)>(c: Dict<K, V>)
    requires |c| > 0
    ensures Remove(c, c[|c| - 1].0) == c[..|c| - 1]
  {
    IndexOfUnique(c, |c| - 1);
    assert c[..|c| - 1] + c[|c|..] == c[..|c| - 1];
  }

  /** Deleting a key that was just added gives back the dictionary as it was. */
  lemma RemoveUndoesAssign<K(!new), V(!new)>(c: Dict<K, V>, k: K, v: V)
    requires k !in Keys(c)
    ensures Remove(Assign(c, k, v), k) == c
  {
    var a := Assign(c, k, v);
    assert a == c + [(k, v)];
    RemoveLast(a);
    assert a[..|a| - 1] == c;
  }
}
