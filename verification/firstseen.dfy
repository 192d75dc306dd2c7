/** First-seen de-duplication: a loop that keeps a `seen` set and skips an
    element whose key is already in it, and pandas' `Series.unique()`,
    both keep the first occurrence of each key, in the order of the input. */
module FirstSeen {

  /** Whether position i holds the first occurrence of its key. */
  predicate IsFirst<K(==)>(keys: seq<K>, i: int)
    requires 0 <= i < |keys|
  {
    keys[i] !in keys[..i]
  }

  /** The keys in first-seen order, each once. */
  function Distinct<K(==,!new)>(keys: seq<K>): (r: seq<K>)
    ensures forall i, j :: 0 <= i < j < |r| ==> r[i] != r[j]
    ensures forall k :: k in r <==> k in keys
    ensures |r| <= |keys|
  {
    if |keys| == 0 then [] else
    var init := keys[..|keys| - 1];
    var k := keys[|keys| - 1];
    assert keys == init + [k];
    var p := Distinct(init);
    if k in p then p else p + [k]
  }

  /** The positions holding first occurrences, in increasing order. */
  function FirstIndices<K(==)>(keys: seq<K>): (r: seq<nat>)
    ensures forall j :: 0 <= j < |r| ==> r[j] < |keys| && IsFirst(keys, r[j])
    ensures forall i :: 0 <= i < |keys| && IsFirst(keys, i) ==> i in r
    ensures forall j, j' :: 0 <= j < j' < |r| ==> r[j] < r[j']
  {
    if |keys| == 0 then [] else
    var init := keys[..|keys| - 1];
    var p := FirstIndices(init);
    assert forall i :: 0 <= i < |init| ==> init[..i] == keys[..i];
    if keys[|keys| - 1] in init then p else p + [|keys| - 1]
  }

  /** A key first seen at the end of the input is appended; a repeated one
      changes nothing. */
  lemma FirstIndicesSnoc<K>(keys: seq<K>, k: K)
    ensures FirstIndices(keys + [k]) == if k in keys then FirstIndices(keys) else FirstIndices(keys) + [|keys|]
  {
    assert (keys + [k])[..|keys|] == keys;
  }

  /** The values standing at the first occurrences of their keys, in order. */
  function AtFirst<K(==), T>(keys: seq<K>, vals: seq<T>): (r: seq<T>)
    requires |vals| == |keys|
    ensures |r| == |FirstIndices(keys)|
    ensures forall j :: 0 <= j < |r| ==> r[j] == vals[FirstIndices(keys)[j]]
  {
    var f := FirstIndices(keys);
    seq(|f|, j requires 0 <= j < |f| => vals[f[j]])
  }

  /** A value whose key is new is appended; one whose key repeats is dropped. */
  lemma AtFirstSnoc<K, T>(keys: seq<K>, vals: seq<T>, k: K, x: T)
    requires |vals| == |keys|
    ensures AtFirst(keys + [k], vals + [x]) == if k in keys then AtFirst(keys, vals) else AtFirst(keys, vals) + [x]
  {
    FirstIndicesSnoc(keys, k);
    var f := FirstIndices(keys);
    var before, after := AtFirst(keys, vals), AtFirst(keys + [k], vals + [x]);
    forall j | 0 <= j < |f| ensures after[j] == before[j] {
      assert f[j] < |vals| && (vals + [x])[f[j]] == vals[f[j]];
    }
    if k in keys {
      assert after == before;
    } else {
      assert after[|f|] == x;
      assert after == before + [x];
    }
  }

  /** Keys kept at two different first-occurrence positions differ. */
  lemma FirstKeysDiffer<K>(keys: seq<K>, j: nat, j': nat)
    requires j < j' < |FirstIndices(keys)|
    ensures keys[FirstIndices(keys)[j]] != keys[FirstIndices(keys)[j']]
  {
    var f := FirstIndices(keys);
    assert IsFirst(keys, f[j']);
    assert keys[f[j]] == keys[..f[j']][f[j]];
  }

  lemma DistinctSnoc<K(!new)>(keys: seq<K>, k: K)
    ensures Distinct(keys + [k]) == if k in keys then Distinct(keys) else Distinct(keys) + [k]
  {
    assert (keys + [k])[..|keys|] == keys;
  }

  /** The distinct keys are exactly the keys at the first-occurrence
      positions, in the same order. */
  lemma {:induction false} DistinctAtFirstIndices<K(!new)>(keys: seq<K>)
    ensures |Distinct(keys)| == |FirstIndices(keys)|
    ensures forall j :: 0 <= j < |Distinct(keys)| ==> Distinct(keys)[j] == keys[FirstIndices(keys)[j]]
  {
    if |keys| > 0 {
      var init := keys[..|keys| - 1];
      var k := keys[|keys| - 1];
      assert keys == init + [k];
      DistinctAtFirstIndices(init);
      DistinctSnoc(init, k);
      FirstIndicesSnoc(init, k);
    }
  }

  /** The set of keys a sequence holds. */
  function Elements<K(!new)>(keys: seq<K>): set<K> {
    set k | k in keys
  }

  /** Every key's first occurrence is kept: the number of kept positions is
      the number of distinct keys. */
  lemma DistinctCount<K(!new)>(keys: seq<K>)
    ensures |FirstIndices(keys)| == |Distinct(keys)| == |Elements(keys)|
  {
    DistinctAtFirstIndices(keys);
    var d := Distinct(keys);
    assert Elements(keys) == Elements(d);
    DistinctCard(d);
  }

  /** A sequence without repeats has as many elements as its set. */
  lemma {:induction false} DistinctCard<K(!new)>(d: seq<K>)
    requires forall i, j :: 0 <= i < j < |d| ==> d[i] != d[j]
    ensures |Elements(d)| == |d|
  {
    if |d| > 0 {
      var init := d[..|d| - 1];
      DistinctCard(init);
      assert d == init + [d[|d| - 1]];
      assert Elements(d) == Elements(init) + {d[|d| - 1]};
      assert d[|d| - 1] !in Elements(init);
    }
  }
}
