/** Insertion-ordered dictionaries with string keys, as Python's `dict`:
    iteration follows first insertion, and assigning to an existing key
    replaces its value where it stands. */
module Dicts {
  import opened Tables
  import opened SeriesOps

  type Dict<V> = seq<(string, V)>

  function Keys<V>(d: Dict<V>): (ks: seq<string>)
    ensures |ks| == |d|
    ensures forall i :: 0 <= i < |d| ==> ks[i] == d[i].0
  {
    if d == [] then [] else [d[0].0] + Keys(d[1..])
  }

  lemma KeysAppend<V>(a: Dict<V>, b: Dict<V>)
    ensures Keys(a + b) == Keys(a) + Keys(b)
  {
  }

  /** `d.get(k)`: the value stored under `k`, if any. */
  function Lookup<V>(d: Dict<V>, k: string): (r: Option<V>)
    ensures r.Some? <==> k in Keys(d)
  {
    if d == [] then None
    else if d[0].0 == k then Some(d[0].1)
    else Lookup(d[1..], k)
  }

  lemma KeysCons<V>(p: (string, V), d: Dict<V>)
    ensures Keys([p] + d) == [p.0] + Keys(d)
  {
    assert ([p] + d)[1..] == d;
  }

  /** `d[k] = v`. */
  function Put<V>(d: Dict<V>, k: string, v: V): (r: Dict<V>)
    ensures Keys(r) == if k in Keys(d) then Keys(d) else Keys(d) + [k]
    ensures Lookup(r, k) == Some(v)
    ensures forall k' :: k' != k ==> Lookup(r, k') == Lookup(d, k')
  {
    if d == [] then [(k, v)]
    else if d[0].0 == k then
      KeysCons((k, v), d[1..]);
      KeysCons(d[0], d[1..]);
      [(k, v)] + d[1..]
    else
      var rest := Put(d[1..], k, v);
      KeysCons(d[0], rest);
      KeysCons(d[0], d[1..]);
      assert d == [d[0]] + d[1..];
      [d[0]] + rest
  }

  /** Keys stay distinct under assignment. */
  lemma PutNoDup<V>(d: Dict<V>, k: string, v: V)
    requires NoDup(Keys(d))
    ensures NoDup(Keys(Put(d, k, v)))
  {
  }

  /** Assigning twice to the same key leaves only the second value, in the
      same place: revisiting an entry replaces it, it does not accumulate. */
  lemma {:induction false} PutPut<V>(d: Dict<V>, k: string, a: V, b: V)
    ensures Put(Put(d, k, a), k, b) == Put(d, k, b)
  {
    if d != [] && d[0].0 != k {
      PutPut(d[1..], k, a, b);
    }
  }

  /** Assigning the value already stored changes nothing. */
  lemma {:induction false} PutSame<V>(d: Dict<V>, k: string)
    requires NoDup(Keys(d))
    requires k in Keys(d)
    ensures Put(d, k, Lookup(d, k).value) == d
  {
    if d[0].0 != k {
      NoDupTail(Keys(d));
      assert Keys(d)[1..] == Keys(d[1..]);
      PutSame(d[1..], k);
    }
  }

  /** A run of assignments `d[k] = v`, in order. */
  function PutAll<V>(d: Dict<V>, ps: seq<(string, V)>): Dict<V>
    decreases |ps|
  {
    if ps == [] then d
    else Put(PutAll(d, ps[..|ps| - 1]), ps[|ps| - 1].0, ps[|ps| - 1].1)
  }

  /** A run of assignments keeps the existing keys in place and in order. */
  lemma {:induction false} PutAllPrefix<V>(d: Dict<V>, ps: seq<(string, V)>)
    ensures Keys(d) <= Keys(PutAll(d, ps))
    decreases |ps|
  {
    if ps != [] {
      var n := |ps| - 1;
      var before := PutAll(d, ps[..n]);
      PutAllPrefix(d, ps[..n]);
      assert Keys(before) <= Keys(Put(before, ps[n].0, ps[n].1));
    }
  }

  /** After a run of assignments the keys are the old keys and the assigned ones. */
  lemma {:induction false} PutAllMembers<V>(d: Dict<V>, ps: seq<(string, V)>)
    ensures forall k :: k in Keys(PutAll(d, ps)) <==> k in Keys(d) || k in Keys(ps)
    decreases |ps|
  {
    if ps != [] {
      var n := |ps| - 1;
      var init := ps[..n];
      PutAllMembers(d, init);
      assert Keys(ps) == Keys(init) + [ps[n].0] by {
        assert ps == init + [ps[n]];
        KeysAppend(init, [ps[n]]);
      }
    }
  }

  /** Keys a run of assignments does not assign keep their values. */
  lemma {:induction false} PutAllOthers<V>(d: Dict<V>, ps: seq<(string, V)>, k: string)
    requires k !in Keys(ps)
    ensures Lookup(PutAll(d, ps), k) == Lookup(d, k)
    decreases |ps|
  {
    if ps != [] {
      var n := |ps| - 1;
      var init := ps[..n];
      assert Keys(ps) == Keys(init) + [ps[n].0] by {
        assert ps == init + [ps[n]];
        KeysAppend(init, [ps[n]]);
      }
      PutAllOthers(d, init, k);
    }
  }

  /** Keys stay distinct under a run of assignments. */
  lemma {:induction false} PutAllNoDup<V>(d: Dict<V>, ps: seq<(string, V)>)
    requires NoDup(Keys(d))
    ensures NoDup(Keys(PutAll(d, ps)))
    decreases |ps|
  {
    if ps != [] {
      var n := |ps| - 1;
      PutAllNoDup(d, ps[..n]);
      PutNoDup(PutAll(d, ps[..n]), ps[n].0, ps[n].1);
    }
  }

  /** A property of every entry survives assignments that have it. */
  lemma {:induction false} PutAllKeeps<V>(d: Dict<V>, ps: seq<(string, V)>, ok: ((string, V)) -> bool)
    requires forall k :: k in Keys(d) ==> ok((k, Lookup(d, k).value))
    requires forall i :: 0 <= i < |ps| ==> ok(ps[i])
    ensures forall k :: k in Keys(PutAll(d, ps)) ==> ok((k, Lookup(PutAll(d, ps), k).value))
    decreases |ps|
  {
    if ps != [] {
      var n := |ps| - 1;
      PutAllKeeps(d, ps[..n], ok);
    }
  }

  /** Two dictionaries with the same keys in the same order and the same
      values are the same dictionary. */
  lemma {:induction false} DictExt<V>(a: Dict<V>, b: Dict<V>)
    requires NoDup(Keys(a))
    requires Keys(a) == Keys(b)
    requires forall k :: Lookup(a, k) == Lookup(b, k)
    ensures a == b
  {
    if a != [] {
      assert |b| == |a|;
      assert Keys(a)[0] == a[0].0 && Keys(b)[0] == b[0].0;
      assert Lookup(a, a[0].0) == Some(a[0].1);
      assert Lookup(b, b[0].0) == Some(b[0].1);
      assert Keys(a[1..]) == Keys(a)[1..] && Keys(b[1..]) == Keys(b)[1..];
      NoDupTail(Keys(a));
      forall k
        ensures Lookup(a[1..], k) == Lookup(b[1..], k)
      {
        if k == a[0].0 {
          assert k !in Keys(a[1..]) && k !in Keys(b[1..]);
        } else {
          assert Lookup(a, k) == Lookup(a[1..], k);
          assert Lookup(b, k) == Lookup(b[1..], k);
        }
      }
      DictExt(a[1..], b[1..]);
      assert a == [a[0]] + a[1..] && b == [b[0]] + b[1..];
    }
  }

  /** Assigning only keys that are already present keeps the key order. */
  lemma {:induction false} PutAllKeysSame<V>(d: Dict<V>, ps: seq<(string, V)>)
    requires forall k :: k in Keys(ps) ==> k in Keys(d)
    ensures Keys(PutAll(d, ps)) == Keys(d)
    decreases |ps|
  {
    if ps != [] {
      var n := |ps| - 1;
      var init := ps[..n];
      assert Keys(ps) == Keys(init) + [ps[n].0] by {
        assert ps == init + [ps[n]];
        KeysAppend(init, [ps[n]]);
      }
      PutAllKeysSame(d, init);
    }
  }

  /** The value a run of assignments leaves under one of its keys is the last
      one assigned, whatever the dictionary it started from. */
  lemma {:induction false} PutAllLast<V>(x: Dict<V>, y: Dict<V>, ps: seq<(string, V)>, k: string)
    requires k in Keys(ps)
    ensures Lookup(PutAll(x, ps), k) == Lookup(PutAll(y, ps), k)
    decreases |ps|
  {
    var n := |ps| - 1;
    if ps[n].0 != k {
      var init := ps[..n];
      assert Keys(ps) == Keys(init) + [ps[n].0] by {
        assert ps == init + [ps[n]];
        KeysAppend(init, [ps[n]]);
      }
      PutAllLast(x, y, init, k);
    }
  }

  /** Repeating a run of assignments changes nothing: entries are replaced
      where they stand, never accumulated. */
  lemma PutAllTwice<V>(d: Dict<V>, ps: seq<(string, V)>)
    requires NoDup(Keys(d))
    ensures PutAll(PutAll(d, ps), ps) == PutAll(d, ps)
  {
    var e := PutAll(d, ps);
    var f := PutAll(e, ps);
    PutAllMembers(d, ps);
    PutAllKeysSame(e, ps);
    PutAllNoDup(d, ps);
    PutAllNoDup(e, ps);
    forall k
      ensures Lookup(f, k) == Lookup(e, k)
    {
      if k in Keys(ps) {
        PutAllLast(e, d, ps, k);
      } else {
        PutAllOthers(e, ps, k);
      }
    }
    DictExt(f, e);
  }

  /** No key occurs twice, stated entry by entry. */
  predicate UniqueKeys<V>(d: Dict<V>)
    decreases |d|
  {
    d == [] || (d[0].0 !in Keys(d[1..]) && UniqueKeys(d[1..]))
  }

  lemma {:induction false} UniqueKeysIff<V>(d: Dict<V>)
    ensures UniqueKeys(d) <==> NoDup(Keys(d))
    decreases |d|
  {
    if d != [] {
      UniqueKeysIff(d[1..]);
      var ks := Keys(d);
      assert ks == [d[0].0] + Keys(d[1..]) by {
        KeysCons(d[0], d[1..]);
        assert d == [d[0]] + d[1..];
      }
      if NoDup(ks) {
        NoDupTail(ks);
      }
      if UniqueKeys(d) {
        forall i, j | 0 <= i < j < |ks|
          ensures ks[i] != ks[j]
        {
          if i == 0 {
            assert ks[j] == Keys(d[1..])[j - 1];
          } else {
            assert ks[i] == Keys(d[1..])[i - 1] && ks[j] == Keys(d[1..])[j - 1];
          }
        }
      }
    }
  }

  /** Every entry has the property. */
  predicate Every<V>(d: Dict<V>, ok: ((string, V)) -> bool)
    decreases |d|
  {
    d == [] || (ok(d[0]) && Every(d[1..], ok))
  }

  lemma {:induction false} EveryAt<V>(d: Dict<V>, ok: ((string, V)) -> bool)
    ensures Every(d, ok) <==> forall i :: 0 <= i < |d| ==> ok(d[i])
    decreases |d|
  {
    if d != [] {
      EveryAt(d[1..], ok);
      assert forall i :: 1 <= i < |d| ==> d[i] == d[1..][i - 1];
    }
  }

  /** With distinct keys, every entry has the property exactly when the value
      looked up under every key does. */
  lemma {:induction false} EveryLookup<V>(d: Dict<V>, ok: ((string, V)) -> bool)
    requires NoDup(Keys(d))
    ensures Every(d, ok) <==> forall k :: k in Keys(d) ==> ok((k, Lookup(d, k).value))
    decreases |d|
  {
    if d != [] {
      NoDupTail(Keys(d));
      assert Keys(d)[1..] == Keys(d[1..]);
      EveryLookup(d[1..], ok);
      assert Keys(d) == [d[0].0] + Keys(d[1..]);
      assert Lookup(d, d[0].0) == Some(d[0].1);
      forall k | k in Keys(d[1..])
        ensures Lookup(d, k) == Lookup(d[1..], k)
      {
        assert k != d[0].0;
      }
      var all := forall k :: k in Keys(d) ==> ok((k, Lookup(d, k).value));
      var rest := forall k :: k in Keys(d[1..]) ==> ok((k, Lookup(d[1..], k).value));
      assert all <==> ok(d[0]) && rest;
    }
  }
}
