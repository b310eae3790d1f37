/**
 The shard of basket::unordered_map.  The hash table is a map; its iteration order is not fixed.
 */
module HashShard {
  import opened Ordering
  import opened MapService

  class Shard<K(==, !new), V(!new)> {
    const noKey: K
    const noValue: V
    var myHashMap: map<K, V>

    ghost predicate Step(o: Op<K, V>, pre: map<K, V>, post: map<K, V>, r: Reply<K, V>) {
      Body(Hashed, noKey, noValue, o, pre, post, r)
    }

    constructor (noKey: K, noValue: V)
      ensures this.noKey == noKey && this.noValue == noValue && myHashMap == map[]
    {
      this.noKey, this.noValue := noKey, noValue;
      myHashMap := map[];
    }

    method LocalPut(key: K, data: V) returns (ok: bool)
      modifies this
      ensures Step(Put(key, data), old(myHashMap), myHashMap, Flag(ok))
    {
      myHashMap := myHashMap[key := data];
      ok := true;
    }

    method LocalGet(key: K) returns (found: bool, value: V)
      ensures Step(Get(key), myHashMap, myHashMap, Pair(found, value))
    {
      if key in myHashMap {
        found, value := true, myHashMap[key];
      } else {
        found, value := false, noValue;
      }
    }

    method LocalErase(key: K) returns (found: bool, value: V)
      modifies this
      ensures Step(Erase(key), old(myHashMap), myHashMap, Pair(found, value))
    {
      found, value := key in myHashMap, noValue;
      myHashMap := myHashMap - {key};
    }

    /** Whatever order the iterator takes, the answer lists every entry once. */
    method LocalGetAllDataInServer() returns (finalValues: seq<(K, V)>)
      ensures Step(GetAllData, myHashMap, myHashMap, Listed(finalValues))
    {
      finalValues := [];
      if |myHashMap| > 0 {
        var rest := myHashMap;
        while rest != map[]
          invariant rest.Keys <= myHashMap.Keys && forall k :: k in rest ==> rest[k] == myHashMap[k]
          invariant Listing(finalValues, myHashMap - rest.Keys)
          decreases |rest|
        {
          var k :| k in rest;
          AppendListing(finalValues, myHashMap, rest, k);
          finalValues := finalValues + [(k, rest[k])];
          SmallerWithout(rest, k);
          rest := rest - {k};
        }
        assert myHashMap - rest.Keys == myHashMap;
      }
    }
  }

  lemma AppendListing<K(!new), V>(xs: seq<(K, V)>, m: map<K, V>, rest: map<K, V>, k: K)
    requires rest.Keys <= m.Keys && k in rest && rest[k] == m[k]
    requires Listing(xs, m - rest.Keys)
    ensures Listing(xs + [(k, rest[k])], m - (rest - {k}).Keys)
  {
    var ys := xs + [(k, rest[k])];
    var shown := m - (rest - {k}).Keys;
    forall j | j in shown ensures HasKey(ys, j) {
      if j == k {
        assert ys[|xs|].0 == j;
      } else {
        assert HasKey(xs, j);
        var i :| 0 <= i < |xs| && xs[i].0 == j;
        assert ys[i].0 == j;
      }
    }
  }
}
