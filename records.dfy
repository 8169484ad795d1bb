/**
 * A JavaScript object used as a string-keyed record: an association list
 * in property-insertion order. Assigning a property that exists replaces its
 * value where it stands; assigning a new one appends it.
 */
module Records {
  import opened Wrappers

  type Record<V> = seq<(string, V)>

  function Keys<V>(r: Record<V>): (ks: seq<string>)
    ensures |ks| == |r| && forall i :: 0 <= i < |r| ==> ks[i] == r[i].0
  {
    if r == [] then [] else [r[0].0] + Keys(r[1..])
  }

  predicate DistinctKeys<V>(r: Record<V>)
  {
    forall i, j :: 0 <= i < j < |r| ==> r[i].0 != r[j].0
  }

  /** `obj[k]`: the value stored under k, if any. */
  function Get<V>(r: Record<V>, k: string): Option<V>
  {
    if r == [] then None else if r[0].0 == k then Some(r[0].1) else Get(r[1..], k)
  }

  /** `obj[k] = v`. */
  function Put<V>(r: Record<V>, k: string, v: V): Record<V>
  {
    if r == [] then [(k, v)] else if r[0].0 == k then [(k, v)] + r[1..] else [r[0]] + Put(r[1..], k, v)
  }

  lemma {:induction false} GetPut<V>(r: Record<V>, k: string, v: V, k': string)
    ensures Get(Put(r, k, v), k') == if k' == k then Some(v) else Get(r, k')
  {
    if r != [] && r[0].0 != k {
      GetPut(r[1..], k, v, k');
    }
  }

  /** After `obj[k] = v` exactly k and the keys already there have a value. */
  lemma GetPutKeys<V>(r: Record<V>, k: string, v: V)
    ensures forall k' :: Get(Put(r, k, v), k').Some? <==> k' == k || Get(r, k').Some?
  {
    forall k' ensures Get(Put(r, k, v), k').Some? <==> k' == k || Get(r, k').Some? {
      GetPut(r, k, v, k');
    }
  }

  /** Assignment keeps existing keys in place and appends a new key at the end. */
  lemma {:induction false} KeysPut<V>(r: Record<V>, k: string, v: V)
    ensures Keys(Put(r, k, v)) == if k in Keys(r) then Keys(r) else Keys(r) + [k]
  {
    if r != [] && r[0].0 != k {
      KeysPut(r[1..], k, v);
      assert Keys(r) == [r[0].0] + Keys(r[1..]);
    }
  }

  /** Assigning a key the record does not have appends it. */
  lemma {:induction false} PutFresh<V>(r: Record<V>, k: string, v: V)
    requires k !in Keys(r)
    ensures Put(r, k, v) == r + [(k, v)]
  {
    if r != [] {
      assert Keys(r) == [r[0].0] + Keys(r[1..]);
      PutFresh(r[1..], k, v);
      AppendAfterHead(r, (k, v));
    }
  }

  /** Appending after the head and the tail is appending to the whole. */
  lemma AppendAfterHead<T>(r: seq<T>, x: T)
    requires r != []
    ensures [r[0]] + (r[1..] + [x]) == r + [x]
  {
    assert [r[0]] + r[1..] == r;
  }

  lemma {:induction false} PutDistinct<V>(r: Record<V>, k: string, v: V)
    requires DistinctKeys(r)
    ensures DistinctKeys(Put(r, k, v))
  {
    KeysPut(r, k, v);
    var p := Put(r, k, v);
    forall i, j | 0 <= i < j < |p| ensures p[i].0 != p[j].0 {
      assert Keys(p)[i] == p[i].0 && Keys(p)[j] == p[j].0;
      if k in Keys(r) {
        assert Keys(r)[i] == r[i].0 && Keys(r)[j] == r[j].0;
      } else if j < |r| {
        assert Keys(r)[i] == r[i].0 && Keys(r)[j] == r[j].0;
      } else {
        assert Keys(r)[i] == r[i].0;
      }
    }
  }

  /** `pairs.reduce((o, p) => ({...o, [p.key]: p.value}), {})`: assign every pair in order. */
  function FromPairs<V>(pairs: seq<(string, V)>): Record<V>
  {
    if pairs == [] then [] else Put(FromPairs(pairs[..|pairs| - 1]), pairs[|pairs| - 1].0, pairs[|pairs| - 1].1)
  }

  /** The value of the LAST pair with key k: the reference for "later duplicates win". */
  function LastValue<V>(pairs: seq<(string, V)>, k: string): Option<V>
  {
    if pairs == [] then None
    else if pairs[|pairs| - 1].0 == k then Some(pairs[|pairs| - 1].1)
    else LastValue(pairs[..|pairs| - 1], k)
  }

  /** Folding a list of pairs into a record: each key holds the value of its last pair. */
  lemma {:induction false} GetFromPairs<V>(pairs: seq<(string, V)>, k: string)
    ensures Get(FromPairs(pairs), k) == LastValue(pairs, k)
  {
    if pairs != [] {
      var init := pairs[..|pairs| - 1];
      GetPut(FromPairs(init), pairs[|pairs| - 1].0, pairs[|pairs| - 1].1, k);
      GetFromPairs(init, k);
    }
  }

  /** The folded record never holds a key twice. */
  lemma {:induction false} FromPairsDistinct<V>(pairs: seq<(string, V)>)
    ensures DistinctKeys(FromPairs(pairs))
  {
    if pairs != [] {
      FromPairsDistinct(pairs[..|pairs| - 1]);
      PutDistinct(FromPairs(pairs[..|pairs| - 1]), pairs[|pairs| - 1].0, pairs[|pairs| - 1].1);
    }
  }
}
