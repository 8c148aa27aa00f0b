/** `OrderedDict(pairs)` built from an iterable of (key, value) pairs: a
    key seen again keeps its first position and takes the later value. The
    dictionary is a sequence of entries with distinct keys. */
module OrderedDicts {
  import opened Wrappers

  function KeysOf<V>(d: seq<(string, V)>): (r: seq<string>)
    ensures |r| == |d|
    ensures forall i :: 0 <= i < |d| ==> r[i] == d[i].0
  {
    seq(|d|, i requires 0 <= i < |d| => d[i].0)
  }

  function ValuesOf<V>(d: seq<(string, V)>): (r: seq<V>)
    ensures |r| == |d|
    ensures forall i :: 0 <= i < |d| ==> r[i] == d[i].1
  {
    seq(|d|, i requires 0 <= i < |d| => d[i].1)
  }

  predicate DistinctKeys<V>(d: seq<(string, V)>) {
    forall i, j :: 0 <= i < j < |d| ==> d[i].0 != d[j].0
  }

  /** The keys in order of first occurrence. */
  function FirstOccurrences(s: seq<string>): (r: seq<string>)
    ensures forall x :: x in r <==> x in s
    ensures forall i, j :: 0 <= i < j < |r| ==> r[i] != r[j]
  {
    if s == [] then []
    else
      var init := FirstOccurrences(s[..|s| - 1]);
      assert forall x :: x in s <==> x in s[..|s| - 1] || x == s[|s| - 1];
      if s[|s| - 1] in init then init else init + [s[|s| - 1]]
  }

  /** The value of the last pair whose key is `k`. */
  function LastValue<V>(pairs: seq<(string, V)>, k: string): Option<V> {
    if pairs == [] then None
    else if pairs[|pairs| - 1].0 == k then Some(pairs[|pairs| - 1].1)
    else LastValue(pairs[..|pairs| - 1], k)
  }

  /** The value stored under `k`. */
  function Lookup<V>(d: seq<(string, V)>, k: string): Option<V> {
    if d == [] then None
    else if d[0].0 == k then Some(d[0].1)
    else Lookup(d[1..], k)
  }

  /** `d[k] = v`. */
  function Put<V>(d: seq<(string, V)>, k: string, v: V): seq<(string, V)> {
    if d == [] then [(k, v)]
    else if d[0].0 == k then [(k, v)] + d[1..]
    else [d[0]] + Put(d[1..], k, v)
  }

  lemma KeysOfCons<V>(h: (string, V), t: seq<(string, V)>)
    ensures KeysOf([h] + t) == [h.0] + KeysOf(t)
  {
    var l, r := KeysOf([h] + t), [h.0] + KeysOf(t);
    assert |l| == |r|;
    forall i | 0 <= i < |l| ensures l[i] == r[i] {
      if i > 0 {
        assert ([h] + t)[i] == t[i - 1];
      }
    }
  }

  /** Assigning an existing key keeps the key order; a new key is appended. */
  lemma {:induction false} PutKeys<V>(d: seq<(string, V)>, k: string, v: V)
    ensures KeysOf(Put(d, k, v)) == if k in KeysOf(d) then KeysOf(d) else KeysOf(d) + [k]
  {
    if d == [] {
      assert KeysOf([(k, v)]) == [k];
    } else {
      var t := d[1..];
      assert d == [d[0]] + t;
      KeysOfCons(d[0], t);
      if d[0].0 == k {
        KeysOfCons((k, v), t);
        assert k in KeysOf(d);
      } else {
        var rest := Put(t, k, v);
        PutKeys(t, k, v);
        KeysOfCons(d[0], rest);
        assert (k in KeysOf(d)) == (k in KeysOf(t));
        if k in KeysOf(t) {
          assert KeysOf(rest) == KeysOf(t);
        } else {
          assert KeysOf(rest) == KeysOf(t) + [k];
          assert [d[0].0] + (KeysOf(t) + [k]) == ([d[0].0] + KeysOf(t)) + [k];
        }
      }
    }
  }

  /** After `d[k] = v`, `k` holds `v` and every other key is unchanged. */
  lemma {:induction false} PutLookup<V>(d: seq<(string, V)>, k: string, v: V)
    ensures Lookup(Put(d, k, v), k) == Some(v)
    ensures forall x :: x != k ==> Lookup(Put(d, k, v), x) == Lookup(d, x)
  {
    if d != [] {
      var r := Put(d, k, v);
      if d[0].0 == k {
        assert r[1..] == d[1..];
      } else {
        PutLookup(d[1..], k, v);
        assert r[1..] == Put(d[1..], k, v);
      }
    }
  }

  /** Every entry after `d[k] = v` is an old entry or the new one. */
  lemma {:induction false} PutEntries<V>(d: seq<(string, V)>, k: string, v: V)
    ensures forall i :: 0 <= i < |Put(d, k, v)| ==> Put(d, k, v)[i] in d || Put(d, k, v)[i] == (k, v)
  {
    if d != [] && d[0].0 != k {
      PutEntries(d[1..], k, v);
      var r := Put(d, k, v);
      forall i | 0 <= i < |r| ensures r[i] in d || r[i] == (k, v) {
        if i > 0 {
          assert r[i] == Put(d[1..], k, v)[i - 1];
        }
      }
    }
  }

  function OrderedDictOf<V>(pairs: seq<(string, V)>): (r: seq<(string, V)>)
    ensures forall i :: 0 <= i < |r| ==> r[i] in pairs
  {
    if pairs == [] then []
    else
      var last := pairs[|pairs| - 1];
      var init := OrderedDictOf(pairs[..|pairs| - 1]);
      assert forall p :: p in pairs[..|pairs| - 1] ==> p in pairs;
      PutEntries(init, last.0, last.1);
      Put(init, last.0, last.1)
  }

  /** The dictionary's keys are the pairs' keys in order of first occurrence
      (so they are distinct), and each key holds the value of its last pair. */
  lemma {:induction false} OrderedDictOfSpec<V>(pairs: seq<(string, V)>)
    ensures KeysOf(OrderedDictOf(pairs)) == FirstOccurrences(KeysOf(pairs))
    ensures forall k :: Lookup(OrderedDictOf(pairs), k) == LastValue(pairs, k)
  {
    if pairs != [] {
      var init := pairs[..|pairs| - 1];
      OrderedDictOfSpec(init);
      var last := pairs[|pairs| - 1];
      PutKeys(OrderedDictOf(init), last.0, last.1);
      PutLookup(OrderedDictOf(init), last.0, last.1);
      assert KeysOf(pairs)[..|pairs| - 1] == KeysOf(init);
    }
  }

  lemma {:induction false} KeysOfDistinct<V>(d: seq<(string, V)>)
    requires forall i, j :: 0 <= i < j < |KeysOf(d)| ==> KeysOf(d)[i] != KeysOf(d)[j]
    ensures DistinctKeys(d)
  {
    forall i, j | 0 <= i < j < |d| ensures d[i].0 != d[j].0 {
      assert KeysOf(d)[i] == d[i].0 && KeysOf(d)[j] == d[j].0;
    }
  }

  lemma {:induction false} FirstOccurrencesOfDistinct(s: seq<string>)
    requires forall i, j :: 0 <= i < j < |s| ==> s[i] != s[j]
    ensures FirstOccurrences(s) == s
  {
    if s != [] {
      FirstOccurrencesOfDistinct(s[..|s| - 1]);
      assert s[|s| - 1] !in s[..|s| - 1];
      assert s[..|s| - 1] + [s[|s| - 1]] == s;
    }
  }

  /** Dropping the last pair keeps the keys distinct, and the last key
      is not among the others. */
  lemma DistinctKeysInit<V>(pairs: seq<(string, V)>)
    requires pairs != [] && DistinctKeys(pairs)
    ensures DistinctKeys(pairs[..|pairs| - 1])
    ensures forall i :: 0 <= i < |pairs| - 1 ==> pairs[i].0 != pairs[|pairs| - 1].0
  {
    var init := pairs[..|pairs| - 1];
    forall i, j | 0 <= i < j < |init| ensures init[i].0 != init[j].0 {
      assert init[i] == pairs[i] && init[j] == pairs[j];
    }
  }

  /** Pairs with distinct keys are kept exactly, in order. */
  lemma {:induction false} OrderedDictOfDistinct<V>(pairs: seq<(string, V)>)
    requires DistinctKeys(pairs)
    ensures OrderedDictOf(pairs) == pairs
  {
    if pairs != [] {
      var init := pairs[..|pairs| - 1];
      var last := pairs[|pairs| - 1];
      DistinctKeysInit(pairs);
      OrderedDictOfDistinct(init);
      PutNew(init, last.0, last.1);
      assert init + [last] == pairs;
    }
  }

  lemma {:induction false} PutNew<V>(d: seq<(string, V)>, k: string, v: V)
    requires forall i :: 0 <= i < |d| ==> d[i].0 != k
    ensures Put(d, k, v) == d + [(k, v)]
  {
    if d != [] {
      PutNew(d[1..], k, v);
      assert [d[0]] + (d[1..] + [(k, v)]) == d + [(k, v)];
    }
  }
}
