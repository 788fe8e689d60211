/** Python's insertion-ordered `dict` with string keys, as a sequence of
    key/value entries. */
module Dicts {
  import opened Basics

  type Dict<V> = seq<(string, V)>

  /** The keys, in insertion order (`list(d.keys())`). */
  function Keys<V>(d: Dict<V>): (ks: seq<string>)
    ensures |ks| == |d|
    ensures forall i :: 0 <= i < |d| ==> ks[i] == d[i].0
  {
    if |d| == 0 then [] else [d[0].0] + Keys(d[1..])
  }

  /** The values, in insertion order (`list(d.values())`). */
  function Values<V>(d: Dict<V>): (vs: seq<V>)
    ensures |vs| == |d|
    ensures forall i :: 0 <= i < |d| ==> vs[i] == d[i].1
  {
    if |d| == 0 then [] else [d[0].1] + Values(d[1..])
  }

  /** No key occurs twice. */
  predicate UniqueKeys<V>(d: Dict<V>)
  {
    forall i, j :: 0 <= i < j < |d| ==> d[i].0 != d[j].0
  }

  /** `k in d` */
  predicate HasKey<V>(d: Dict<V>, k: string)
  {
    k in Keys(d)
  }

  /** `d.get(k)`: the value of the first entry with key `k`. */
  function Get<V>(d: Dict<V>, k: string): (r: Option<V>)
    ensures r.Some? <==> HasKey(d, k)
  {
    if |d| == 0 then None
    else if d[0].0 == k then Some(d[0].1)
    else
      assert Keys(d) == [d[0].0] + Keys(d[1..]);
      Get(d[1..], k)
  }

  /** `d[k] = v`: an existing key keeps its position, a new key goes last. */
  function Put<V>(d: Dict<V>, k: string, v: V): (r: Dict<V>)
    ensures HasKey(d, k) ==> Keys(r) == Keys(d)
    ensures !HasKey(d, k) ==> Keys(r) == Keys(d) + [k]
    ensures Get(r, k) == Some(v)
  {
    if |d| == 0 then [(k, v)]
    else if d[0].0 == k then
      assert Keys([(k, v)] + d[1..]) == [k] + Keys(d[1..]);
      [(k, v)] + d[1..]
    else
      var r := [d[0]] + Put(d[1..], k, v);
      assert Keys(r) == [d[0].0] + Keys(Put(d[1..], k, v));
      assert Keys(d) == [d[0].0] + Keys(d[1..]);
      r
  }

  /** `d.pop(k)` when `k` is present; nothing otherwise. */
  function Remove<V>(d: Dict<V>, k: string): (r: Dict<V>)
    ensures !HasKey(r, k)
    ensures !HasKey(d, k) ==> r == d
    ensures |r| <= |d|
  {
    if |d| == 0 then []
    else if d[0].0 == k then Remove(d[1..], k)
    else
      assert Keys(d) == [d[0].0] + Keys(d[1..]);
      var r := [d[0]] + Remove(d[1..], k);
      assert Keys(r) == [d[0].0] + Keys(Remove(d[1..], k));
      r
  }

  /** Assigning one key leaves every other key's value alone. */
  lemma {:induction false} GetPutOther<V>(d: Dict<V>, k: string, v: V, k': string)
    requires k' != k
    ensures Get(Put(d, k, v), k') == Get(d, k')
  {
    if |d| == 0 {
    } else if d[0].0 == k {
      assert ([(k, v)] + d[1..])[1..] == d[1..];
    } else {
      GetPutOther(d[1..], k, v, k');
      assert ([d[0]] + Put(d[1..], k, v))[1..] == Put(d[1..], k, v);
    }
  }

  /** Removing one key leaves every other key's value alone. */
  lemma {:induction false} GetRemoveOther<V>(d: Dict<V>, k: string, k': string)
    requires k' != k
    ensures Get(Remove(d, k), k') == Get(d, k')
  {
    if |d| == 0 {
    } else if d[0].0 == k {
      GetRemoveOther(d[1..], k, k');
    } else {
      GetRemoveOther(d[1..], k, k');
      assert ([d[0]] + Remove(d[1..], k))[1..] == Remove(d[1..], k);
    }
  }

  /** Assignment keeps the keys distinct. */
  lemma {:induction false} PutUnique<V>(d: Dict<V>, k: string, v: V)
    requires UniqueKeys(d)
    ensures UniqueKeys(Put(d, k, v))
  {
    var r := Put(d, k, v);
    var kr := Keys(r);
    var kd := Keys(d);
    forall i, j | 0 <= i < j < |r|
      ensures r[i].0 != r[j].0
    {
      assert r[i].0 == kr[i] && r[j].0 == kr[j];
      assert kr[i] == kd[i] && kd[i] == d[i].0;
      if j < |d| {
        assert kr[j] == kd[j] && kd[j] == d[j].0;
      } else {
        assert kr[j] == k && kd[i] in kd;
      }
    }
  }

  /** After `d[k] = v` the keys are the old ones plus `k`. */
  lemma PutHasKey<V>(d: Dict<V>, k: string, v: V, k': string)
    ensures HasKey(Put(d, k, v), k') <==> HasKey(d, k') || k' == k
  {
    if !HasKey(d, k) {
      assert Keys(Put(d, k, v)) == Keys(d) + [k];
    }
  }

  /** The same, for every key at once. */
  lemma PutKeys<V>(d: Dict<V>, k: string, v: V)
    ensures forall k' :: HasKey(Put(d, k, v), k') <==> HasKey(d, k') || k' == k
  {
    forall k' ensures HasKey(Put(d, k, v), k') <==> HasKey(d, k') || k' == k {
      PutHasKey(d, k, v, k');
    }
  }

  /** A dict built by assigning the pairs in order (`{k: v for k, v in pairs}`). */
  function FromPairs<V>(pairs: seq<(string, V)>): (r: Dict<V>)
    ensures UniqueKeys(r)
    decreases |pairs|
  {
    if |pairs| == 0 then []
    else
      var init := FromPairs(pairs[..|pairs| - 1]);
      var last := pairs[|pairs| - 1];
      PutUnique(init, last.0, last.1);
      Put(init, last.0, last.1)
  }

  /** The keys of a dict built from pairs are exactly the pairs' keys. */
  lemma {:induction false} FromPairsKeys<V>(pairs: seq<(string, V)>, k: string)
    ensures HasKey(FromPairs(pairs), k) <==> exists i :: 0 <= i < |pairs| && pairs[i].0 == k
    decreases |pairs|
  {
    if |pairs| == 0 {
    } else {
      var init := pairs[..|pairs| - 1];
      var last := pairs[|pairs| - 1];
      FromPairsKeys(init, k);
      PutHasKey(FromPairs(init), last.0, last.1, k);
      if exists i :: 0 <= i < |init| && init[i].0 == k {
        var i :| 0 <= i < |init| && init[i].0 == k;
        assert pairs[i].0 == k;
      }
      if exists i :: 0 <= i < |pairs| && pairs[i].0 == k {
        var i :| 0 <= i < |pairs| && pairs[i].0 == k;
        if i < |pairs| - 1 {
          assert init[i].0 == k;
        }
      }
    }
  }

  /** In a dict with distinct keys, each entry is what its key looks up. */
  lemma {:induction false} GetAt<V>(d: Dict<V>, i: int)
    requires UniqueKeys(d) && 0 <= i < |d|
    ensures Get(d, d[i].0) == Some(d[i].1)
  {
    if i > 0 {
      assert d[0].0 != d[i].0;
      assert d[1..][i - 1] == d[i];
      GetAt(d[1..], i - 1);
    }
  }

  /** Every entry of `d[k] = v` is an entry of `d` or the new `(k, v)`. */
  lemma {:induction false} PutEntries<V>(d: Dict<V>, k: string, v: V)
    ensures forall e :: e in Put(d, k, v) ==> e in d || e == (k, v)
  {
    if |d| == 0 {
    } else if d[0].0 == k {
      assert forall e :: e in d[1..] ==> e in d;
    } else {
      PutEntries(d[1..], k, v);
      assert forall e :: e in d[1..] ==> e in d;
    }
  }

  /** Every entry of a dict built from pairs is one of the pairs. */
  lemma {:induction false} FromPairsEntries<V>(pairs: seq<(string, V)>)
    ensures forall e :: e in FromPairs(pairs) ==> e in pairs
    decreases |pairs|
  {
    if |pairs| > 0 {
      var init := pairs[..|pairs| - 1];
      FromPairsEntries(init);
      PutEntries(FromPairs(init), pairs[|pairs| - 1].0, pairs[|pairs| - 1].1);
      assert forall e :: e in init ==> e in pairs;
    }
  }

  /** With no `k` present, `d[k] = v` appends one entry. */
  lemma {:induction false} PutAbsent<V>(d: Dict<V>, k: string, v: V)
    requires !HasKey(d, k)
    ensures Put(d, k, v) == d + [(k, v)]
  {
    if |d| > 0 {
      assert Keys(d) == [d[0].0] + Keys(d[1..]);
      assert d[0].0 != k;
      PutAbsent(d[1..], k, v);
      assert Put(d, k, v) == [d[0]] + (d[1..] + [(k, v)]);
      assert [d[0]] + (d[1..] + [(k, v)]) == d + [(k, v)];
    }
  }

  /** A successful lookup finds an entry of the dict. */
  lemma {:induction false} GetIn<V>(d: Dict<V>, k: string)
    requires HasKey(d, k)
    ensures (k, Get(d, k).value) in d
  {
    if d[0].0 != k {
      assert Keys(d) == [d[0].0] + Keys(d[1..]);
      GetIn(d[1..], k);
    }
  }

  /** `d.update(pairs)`: each pair assigned in turn. */
  function Update<V>(d: Dict<V>, pairs: seq<(string, V)>): (r: Dict<V>)
    ensures forall k :: HasKey(r, k) <==> HasKey(d, k) || HasKey(pairs, k)
    ensures forall k :: !HasKey(pairs, k) ==> Get(r, k) == Get(d, k)
    ensures UniqueKeys(pairs) ==> forall k :: HasKey(pairs, k) ==> Get(r, k) == Get(pairs, k)
    decreases |pairs|
  {
    if |pairs| == 0 then d
    else
      var k0 := pairs[0].0;
      var v0 := pairs[0].1;
      assert Keys(pairs) == [k0] + Keys(pairs[1..]);
      assert UniqueKeys(pairs) ==> UniqueKeys(pairs[1..]) && !HasKey(pairs[1..], k0);
      PutKeys(d, k0, v0);
      UpdateGet(d, k0, v0);
      Update(Put(d, k0, v0), pairs[1..])
  }

  lemma UpdateGet<V>(d: Dict<V>, k0: string, v0: V)
    ensures Get(Put(d, k0, v0), k0) == Some(v0)
    ensures forall k :: k != k0 ==> Get(Put(d, k0, v0), k) == Get(d, k)
  {
    forall k | k != k0 ensures Get(Put(d, k0, v0), k) == Get(d, k) {
      GetPutOther(d, k0, v0, k);
    }
  }
}
