/**
 * PHP's associative arrays with string keys: ordered maps. Entries keep the
 * order in which their keys were first written; `foreach` visits them in
 * that order. An array is modelled as its list of entries, and `$a[$k] = $v`
 * as `Put`: the value of an existing key is replaced where it stands, a new
 * key is appended at the end.
 */
module PhpArrays {
  import opened Wrappers

  datatype Entry<V> = Entry(key: string, value: V)

  type Assoc<V> = seq<Entry<V>>

  /** The keys, in iteration order. */
  function Keys<V>(a: Assoc<V>): (ks: seq<string>)
    ensures |ks| == |a|
    ensures forall i :: 0 <= i < |a| ==> ks[i] == a[i].key
  {
    if a == [] then [] else [a[0].key] + Keys(a[1..])
  }

  /** What a real PHP array always satisfies: no key occurs twice. */
  predicate UniqueKeys<V>(a: Assoc<V>) {
    forall i, j :: 0 <= i < j < |a| ==> a[i].key != a[j].key
  }

  /** `$a[$k]`, or `None` when the key is absent. */
  function Lookup<V>(a: Assoc<V>, k: string): (r: Option<V>)
    ensures r.Some? <==> k in Keys(a)
  {
    if a == [] then None
    else if a[0].key == k then Some(a[0].value)
    else Lookup(a[1..], k)
  }

  /** `$a[$k] = $v`. */
  function Put<V>(a: Assoc<V>, k: string, v: V): (r: Assoc<V>)
    ensures Lookup(r, k) == Some(v)
  {
    if a == [] then [Entry(k, v)]
    else if a[0].key == k then [Entry(k, v)] + a[1..]
    else [a[0]] + Put(a[1..], k, v)
  }

  /** The write keeps the keys and their order; a new key comes last. */
  lemma {:induction false} PutKeys<V>(a: Assoc<V>, k: string, v: V)
    ensures Keys(Put(a, k, v)) == if k in Keys(a) then Keys(a) else Keys(a) + [k]
  {
    if a != [] {
      var rest := Keys(a[1..]);
      assert Keys(a) == [a[0].key] + rest;
      if a[0].key == k {
        assert Keys(Put(a, k, v)) == [k] + rest;
      } else {
        PutKeys(a[1..], k, v);
        assert k in Keys(a) <==> k in rest;
        assert Keys(Put(a, k, v)) == [a[0].key] + Keys(Put(a[1..], k, v));
        if k !in rest {
          assert [a[0].key] + (rest + [k]) == Keys(a) + [k];
        }
      }
    }
  }

  /** The write leaves every other key's value as it was. */
  lemma {:induction false} PutKeepsOthers<V>(a: Assoc<V>, k: string, v: V, other: string)
    requires other != k
    ensures Lookup(Put(a, k, v), other) == Lookup(a, other)
  {
    if a != [] && a[0].key != k {
      PutKeepsOthers(a[1..], k, v, other);
    }
  }

  /** Every entry after the write was there before or is the written one. */
  lemma {:induction false} PutEntries<V>(a: Assoc<V>, k: string, v: V)
    ensures forall e :: e in Put(a, k, v) ==> e in a || e == Entry(k, v)
  {
    if a != [] && a[0].key != k {
      PutEntries(a[1..], k, v);
    }
  }

  /** The write never creates a second entry for a key. */
  lemma PutUnique<V>(a: Assoc<V>, k: string, v: V)
    requires UniqueKeys(a)
    ensures UniqueKeys(Put(a, k, v))
  {
    var r := Put(a, k, v);
    PutKeys(a, k, v);
    forall i, j | 0 <= i < j < |r|
      ensures r[i].key != r[j].key
    {
      assert Keys(r)[i] == r[i].key && Keys(r)[j] == r[j].key;
      if k !in Keys(a) && j == |a| {
        assert Keys(r)[i] == Keys(a)[i];
      } else {
        assert Keys(r)[i] == Keys(a)[i] && Keys(r)[j] == Keys(a)[j];
      }
    }
  }

  /** Writing a key that is not there yet appends one entry. */
  lemma {:induction false} PutFresh<V>(a: Assoc<V>, k: string, v: V)
    requires k !in Keys(a)
    ensures Put(a, k, v) == a + [Entry(k, v)]
  {
    if a != [] {
      assert a[0].key != k by { assert Keys(a)[0] == a[0].key; }
      assert k !in Keys(a[1..]) by { assert Keys(a) == [a[0].key] + Keys(a[1..]); }
      PutFresh(a[1..], k, v);
      calc {
        Put(a, k, v);
        [a[0]] + Put(a[1..], k, v);
        [a[0]] + (a[1..] + [Entry(k, v)]);
        { assert a == [a[0]] + a[1..]; }
        a + [Entry(k, v)];
      }
    }
  }

  /** Writing a key twice leaves the array as if only the second write
      had happened: the later value wins, in the same position. */
  lemma {:induction false} PutTwice<V>(a: Assoc<V>, k: string, v1: V, v2: V)
    ensures Put(Put(a, k, v1), k, v2) == Put(a, k, v2)
  {
    if a != [] && a[0].key != k {
      PutTwice(a[1..], k, v1, v2);
    }
  }
}
