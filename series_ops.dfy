/** The primitives of the data-frame library that the analysis relies on,
    stated over plain sequences: counting, `unique()`, boolean-mask selection,
    `value_counts()` and `mode()`. */
module SeriesOps {

  /** Number of occurrences of `x` in `s`. */
  function Count<T(==)>(s: seq<T>, x: T): nat
  {
    multiset(s)[x]
  }

  predicate NoDup<T(==)>(s: seq<T>)
  {
    forall i, j :: 0 <= i < j < |s| ==> s[i] != s[j]
  }

  /** `a` is obtained from `b` by deleting elements, keeping the order of the rest. */
  predicate IsSubsequence<T(==)>(a: seq<T>, b: seq<T>)
    decreases |b|
  {
    if a == [] then true
    else if b == [] then false
    else (a[0] == b[0] && IsSubsequence(a[1..], b[1..])) || IsSubsequence(a, b[1..])
  }

  lemma SubsequenceSkip<T>(a: seq<T>, x: T, b: seq<T>)
    requires IsSubsequence(a, b)
    ensures IsSubsequence(a, [x] + b)
  {
    if a != [] { assert ([x] + b)[1..] == b; }
  }

  /** Extending a subsequence by an optional copy of the element put in front. */
  lemma SubsequenceStep<T>(k: seq<T>, x: T, a: seq<T>, b: seq<T>)
    requires k == [] || k == [x]
    requires IsSubsequence(a, b)
    ensures IsSubsequence(k + a, [x] + b)
  {
    if k == [] {
      assert k + a == a;
      SubsequenceSkip(a, x, b);
    } else {
      assert (k + a)[0] == x && (k + a)[1..] == a && ([x] + b)[1..] == b;
    }
  }

  /** Three optional pieces of distinct elements, in order, form a duplicate-free
      subsequence of the three. */
  lemma OptionalPieces<T>(ka: seq<T>, kb: seq<T>, kc: seq<T>, x: T, y: T, z: T)
    requires ka == [] || ka == [x]
    requires kb == [] || kb == [y]
    requires kc == [] || kc == [z]
    requires x != y && x != z && y != z
    ensures NoDup(ka + (kb + kc))
    ensures IsSubsequence(ka + (kb + kc), [x, y, z])
  {
    assert kc + [] == kc;
    SubsequenceStep(kc, z, [], []);
    SubsequenceStep(kb, y, kc, [z]);
    SubsequenceStep(ka, x, kb + kc, [y, z]);
    assert [x] + ([y] + [z]) == [x, y, z];
    NoDupAppend(kb, kc);
    NoDupAppend(ka, kb + kc);
  }

  lemma NoDupTail<T>(s: seq<T>)
    requires s != [] && NoDup(s)
    ensures NoDup(s[1..]) && s[0] !in s[1..]
  {
    forall i, j | 0 <= i < j < |s| - 1 ensures s[1..][i] != s[1..][j] {
      assert s[1..][i] == s[i + 1] && s[1..][j] == s[j + 1];
    }
  }

  lemma NoDupAppend<T>(a: seq<T>, b: seq<T>)
    requires NoDup(a) && NoDup(b)
    requires forall x :: x in a ==> x !in b
    ensures NoDup(a + b)
  {
    forall i, j | 0 <= i < j < |a + b| ensures (a + b)[i] != (a + b)[j] {
      if i >= |a| {
        assert (a + b)[i] == b[i - |a|] && (a + b)[j] == b[j - |a|];
      } else if j >= |a| {
        assert (a + b)[i] == a[i] && (a + b)[j] == b[j - |a|];
        assert a[i] in a;
      } else {
        assert (a + b)[i] == a[i] && (a + b)[j] == a[j];
      }
    }
  }

  /** `unique()`: the distinct elements, in order of first occurrence. */
  function Distinct<T(==,!new)>(s: seq<T>): (d: seq<T>)
    ensures NoDup(d)
    ensures forall x :: x in d <==> x in s
    decreases |s|
  {
    if s == [] then []
    else
      var d := Distinct(s[..|s| - 1]);
      var x := s[|s| - 1];
      assert s == s[..|s| - 1] + [x];
      if x in d then d else d + [x]
  }

  lemma Assoc<T>(a: seq<T>, b: seq<T>, c: seq<T>)
    ensures a + b + c == a + (b + c)
  {
  }

  /** Boolean-mask selection `s[mask]`: the elements satisfying `p`, in order. */
  function Keep<T(==,!new)>(s: seq<T>, p: T -> bool): (r: seq<T>)
    ensures |r| <= |s|
    ensures forall x :: x in r <==> x in s && p(x)
  {
    if s == [] then []
    else
      assert s == [s[0]] + s[1..];
      if p(s[0]) then [s[0]] + Keep(s[1..], p) else Keep(s[1..], p)
  }

  /** Selection keeps the order of what it keeps. */
  lemma {:induction false} KeepSubsequence<T(!new)>(s: seq<T>, p: T -> bool)
    ensures IsSubsequence(Keep(s, p), s)
  {
    if s != [] {
      KeepSubsequence(s[1..], p);
      var r := Keep(s, p);
      if p(s[0]) {
        assert r[0] == s[0] && r[1..] == Keep(s[1..], p);
      }
    }
  }

  /** A mask every element satisfies selects everything. */
  lemma {:induction false} KeepAll<T(!new)>(s: seq<T>, p: T -> bool)
    requires forall x :: x in s ==> p(x)
    ensures Keep(s, p) == s
  {
    if s != [] {
      assert s == [s[0]] + s[1..];
      assert forall x :: x in s[1..] ==> x in s;
      KeepAll(s[1..], p);
    }
  }

  /** Two masks applied one after the other select what their conjunction selects. */
  lemma {:induction false} KeepBoth<T(!new)>(s: seq<T>, p: T -> bool, q: T -> bool, pq: T -> bool)
    requires forall x :: x in s ==> pq(x) == (p(x) && q(x))
    ensures Keep(Keep(s, p), q) == Keep(s, pq)
  {
    if s != [] {
      assert forall x :: x in s[1..] ==> x in s;
      KeepBoth(s[1..], p, q, pq);
    }
  }

  /** Masks that agree on the elements select the same elements. */
  lemma {:induction false} KeepCongruent<T(!new)>(s: seq<T>, p: T -> bool, q: T -> bool)
    requires forall x :: x in s ==> p(x) == q(x)
    ensures Keep(s, p) == Keep(s, q)
  {
    if s != [] {
      assert forall x :: x in s[1..] ==> x in s;
      KeepCongruent(s[1..], p, q);
    }
  }

  /** Selection distributes over concatenation. */
  lemma {:induction false} KeepAppend<T(!new)>(a: seq<T>, b: seq<T>, p: T -> bool)
    ensures Keep(a + b, p) == Keep(a, p) + Keep(b, p)
  {
    if a != [] {
      assert (a + b)[0] == a[0];
      assert (a + b)[1..] == a[1..] + b;
      KeepAppend(a[1..], b, p);
    } else {
      assert a + b == b;
    }
  }

  lemma KeepSingle<T(!new)>(x: T, p: T -> bool)
    ensures Keep([x], p) == if p(x) then [x] else []
  {
    assert [x][1..] == [];
  }

  /** Nothing is selected when no element satisfies the mask. */
  lemma KeepNone<T(!new)>(s: seq<T>, p: T -> bool)
    requires forall x :: x in s ==> !p(x)
    ensures Keep(s, p) == []
  {
    var r := Keep(s, p);
    assert forall x :: x !in r;
  }

  /** A key with its number of occurrences: one row of a frequency table. */
  datatype Entry<K> = Entry(key: K, count: nat)

  function KeysOf<K>(es: seq<Entry<K>>): (ks: seq<K>)
    ensures |ks| == |es|
    ensures forall i :: 0 <= i < |es| ==> ks[i] == es[i].key
  {
    if es == [] then [] else [es[0].key] + KeysOf(es[1..])
  }

  /** Sum of the counts of a frequency table. */
  function Total<K>(es: seq<Entry<K>>): nat
  {
    if es == [] then 0 else es[0].count + Total(es[1..])
  }

  /** The frequency table of `s` over the keys `ks`, in the order of `ks`. */
  function Tally<K(==)>(ks: seq<K>, s: seq<K>): (es: seq<Entry<K>>)
    ensures |es| == |ks|
    ensures forall i :: 0 <= i < |ks| ==> es[i].key == ks[i] && es[i].count == Count(s, ks[i])
  {
    if ks == [] then [] else [Entry(ks[0], Count(s, ks[0]))] + Tally(ks[1..], s)
  }

  lemma TallyKeys<K>(ks: seq<K>, s: seq<K>)
    ensures KeysOf(Tally(ks, s)) == ks
  {
  }

  lemma {:induction false} TallyAppend<K>(ks: seq<K>, a: seq<K>, b: seq<K>)
    ensures Total(Tally(ks, a + b)) == Total(Tally(ks, a)) + Total(Tally(ks, b))
  {
    if ks != [] {
      assert multiset(a + b) == multiset(a) + multiset(b);
      TallyAppend(ks[1..], a, b);
    }
  }

  lemma {:induction false} TallySingle<K>(ks: seq<K>, x: K)
    requires NoDup(ks)
    ensures Total(Tally(ks, [x])) == if x in ks then 1 else 0
  {
    if ks != [] {
      NoDupTail(ks);
      TallySingle(ks[1..], x);
      assert x in ks <==> x == ks[0] || x in ks[1..];
    }
  }

  lemma {:induction false} TallyNothing<K>(ks: seq<K>)
    ensures Total(Tally(ks, [])) == 0
  {
    if ks != [] { TallyNothing(ks[1..]); }
  }

  /** Counting every element of `s` under keys that are distinct and cover `s`
      accounts for each element exactly once. */
  lemma {:induction false} TallyTotal<K>(ks: seq<K>, s: seq<K>)
    requires NoDup(ks)
    requires forall x :: x in s ==> x in ks
    ensures Total(Tally(ks, s)) == |s|
  {
    if s != [] {
      var n := |s| - 1;
      assert s == s[..n] + [s[n]];
      assert forall x :: x in s[..n] ==> x in s;
      assert s[n] in ks;
      TallyAppend(ks, s[..n], [s[n]]);
      TallySingle(ks, s[n]);
      TallyTotal(ks, s[..n]);
    } else {
      TallyNothing(ks);
    }
  }

  /** The keys are listed in non-increasing order of their count in `s`. */
  predicate ByCount<K(==)>(ks: seq<K>, s: seq<K>)
  {
    forall i, j :: 0 <= i < j < |ks| ==> Count(s, ks[i]) >= Count(s, ks[j])
  }

  predicate NonIncreasing<K>(es: seq<Entry<K>>)
  {
    forall i, j :: 0 <= i < j < |es| ==> es[i].count >= es[j].count
  }

  /** One step of the stable insertion sort by descending count. */
  function InsertByCount<K(==,!new)>(k: K, ks: seq<K>, s: seq<K>): (r: seq<K>)
    ensures |r| == |ks| + 1
    ensures multiset(r) == multiset(ks) + multiset{k}
    ensures forall x :: x in r <==> x == k || x in ks
    ensures NoDup(ks) && k !in ks ==> NoDup(r)
    ensures ByCount(ks, s) ==> ByCount(r, s)
  {
    if ks == [] || Count(s, k) >= Count(s, ks[0]) then
      InsertFront(k, ks, s);
      [k] + ks
    else
      var rest := InsertByCount(k, ks[1..], s);
      InsertBehind(k, ks, rest, s);
      [ks[0]] + rest
  }

  /** Placing a key at least as heavy as the first one in front of a list. */
  lemma InsertFront<K>(k: K, ks: seq<K>, s: seq<K>)
    requires ks == [] || Count(s, k) >= Count(s, ks[0])
    ensures multiset([k] + ks) == multiset(ks) + multiset{k}
    ensures forall x :: x in [k] + ks <==> x == k || x in ks
    ensures NoDup(ks) && k !in ks ==> NoDup([k] + ks)
    ensures ByCount(ks, s) ==> ByCount([k] + ks, s)
  {
    if NoDup(ks) && k !in ks { NoDupAppend([k], ks); }
    if ByCount(ks, s) {
      forall i, j | 0 <= i < j < |ks| + 1 ensures Count(s, ([k] + ks)[i]) >= Count(s, ([k] + ks)[j]) {
        assert ([k] + ks)[j] == ks[j - 1];
        if i > 0 { assert ([k] + ks)[i] == ks[i - 1]; }
      }
    }
  }

  /** Keeping the first key in front of its tail with a lighter key inserted. */
  lemma InsertBehind<K>(k: K, ks: seq<K>, rest: seq<K>, s: seq<K>)
    requires ks != [] && Count(s, k) < Count(s, ks[0])
    requires multiset(rest) == multiset(ks[1..]) + multiset{k}
    requires NoDup(ks[1..]) && k !in ks[1..] ==> NoDup(rest)
    requires ByCount(ks[1..], s) ==> ByCount(rest, s)
    ensures multiset([ks[0]] + rest) == multiset(ks) + multiset{k}
    ensures forall x :: x in [ks[0]] + rest <==> x == k || x in ks
    ensures NoDup(ks) && k !in ks ==> NoDup([ks[0]] + rest)
    ensures ByCount(ks, s) ==> ByCount([ks[0]] + rest, s)
  {
    assert multiset([ks[0]] + rest) == multiset(ks) + multiset{k} by {
      assert ks == [ks[0]] + ks[1..];
    }
    assert forall x :: x in [ks[0]] + rest <==> x == k || x in ks by {
      assert forall x :: x in [ks[0]] + rest <==> x in multiset([ks[0]] + rest);
      assert forall x :: x in ks <==> x in multiset(ks);
    }
    assert NoDup(ks) && k !in ks ==> NoDup([ks[0]] + rest) by {
      if NoDup(ks) && k !in ks {
        NoDupTail(ks);
        assert ks[0] !in rest by { assert ks[0] !in multiset(rest); }
        NoDupAppend([ks[0]], rest);
      }
    }
    assert ByCount(ks, s) ==> ByCount([ks[0]] + rest, s) by {
      if ByCount(ks, s) {
        ByCountTail(ks, s);
        assert forall x :: x in rest ==> x == k || x in ks[1..] by {
          assert forall x :: x in rest <==> x in multiset(rest);
        }
        HeadDominates(ks, k, rest, s);
      }
    }
  }

  lemma ByCountTail<K>(ks: seq<K>, s: seq<K>)
    requires ks != [] && ByCount(ks, s)
    ensures ByCount(ks[1..], s)
  {
    forall i, j | 0 <= i < j < |ks| - 1 ensures Count(s, ks[1..][i]) >= Count(s, ks[1..][j]) {
      assert ks[1..][i] == ks[i + 1] && ks[1..][j] == ks[j + 1];
    }
  }

  /** The first key of a list ordered by count stays first in front of its tail with a lighter key inserted. */
  lemma HeadDominates<K>(ks: seq<K>, k: K, rest: seq<K>, s: seq<K>)
    requires ks != [] && ByCount(ks, s) && Count(s, k) < Count(s, ks[0])
    requires forall x :: x in rest ==> x == k || x in ks[1..]
    requires ByCount(rest, s)
    ensures ByCount([ks[0]] + rest, s)
  {
    forall j | 0 <= j < |rest| ensures Count(s, ks[0]) >= Count(s, rest[j]) {
      assert rest[j] in rest;
      if rest[j] != k {
        var i :| 0 <= i < |ks[1..]| && ks[1..][i] == rest[j];
        assert ks[i + 1] == rest[j];
      }
    }
    forall i, j | 0 <= i < j < |rest| + 1 ensures Count(s, ([ks[0]] + rest)[i]) >= Count(s, ([ks[0]] + rest)[j]) {
      assert ([ks[0]] + rest)[j] == rest[j - 1];
      if i > 0 { assert ([ks[0]] + rest)[i] == rest[i - 1]; }
    }
  }

  /** Stable insertion sort of the keys by descending count in `s`. */
  function SortByCount<K(==,!new)>(ks: seq<K>, s: seq<K>): (r: seq<K>)
    ensures |r| == |ks|
    ensures multiset(r) == multiset(ks)
    ensures forall x :: x in r <==> x in ks
    ensures NoDup(ks) ==> NoDup(r)
    ensures ByCount(r, s)
  {
    if ks == [] then []
    else
      assert NoDup(ks) ==> NoDup(ks[1..]) && ks[0] !in ks[1..] by {
        if NoDup(ks) { NoDupTail(ks); }
      }
      assert ks == [ks[0]] + ks[1..];
      assert forall x :: x in ks <==> x == ks[0] || x in ks[1..];
      InsertByCount(ks[0], SortByCount(ks[1..], s), s)
  }

  /** `value_counts()`: each distinct value of `s` with its count, most frequent first. */
  function ValueCounts<T(==,!new)>(s: seq<T>): seq<Entry<T>>
  {
    Tally(SortByCount(Distinct(s), s), s)
  }

  /** What `value_counts()` promises: a frequency table keyed by the distinct
      values of the series, with their true counts, all positive, summing to
      the length of the series, listed in non-increasing count order. */
  lemma ValueCountsSpec<T(!new)>(s: seq<T>)
    ensures var vc := ValueCounts(s);
      && NoDup(KeysOf(vc))
      && (forall v :: v in KeysOf(vc) <==> v in s)
      && (forall i :: 0 <= i < |vc| ==> vc[i].count == Count(s, vc[i].key) && vc[i].count > 0)
      && Total(vc) == |s|
      && NonIncreasing(vc)
  {
    var ks := SortByCount(Distinct(s), s);
    var vc := ValueCounts(s);
    assert vc == Tally(ks, s);
    assert NoDup(ks) && (forall v :: v in ks <==> v in s) && ByCount(ks, s);
    assert KeysOf(vc) == ks by { TallyKeys(ks, s); }
    assert forall i :: 0 <= i < |vc| ==> vc[i].count == Count(s, vc[i].key) && vc[i].count > 0 by {
      forall i | 0 <= i < |vc| ensures vc[i].count == Count(s, vc[i].key) && vc[i].count > 0 {
        assert ks[i] in s;
      }
    }
    assert Total(vc) == |s| by { TallyTotal(ks, s); }
  }

  /** The first entry of the frequency table is a most frequent value. */
  lemma ModeFacts<T(!new)>(s: seq<T>)
    requires |s| > 0
    ensures |ValueCounts(s)| > 0
    ensures ValueCounts(s)[0].key in s
    ensures forall v :: Count(s, v) <= Count(s, ValueCounts(s)[0].key)
  {
    ValueCountsSpec(s);
    var vc := ValueCounts(s);
    var ks := KeysOf(vc);
    assert s[0] in ks;
    forall v ensures Count(s, v) <= Count(s, vc[0].key) {
      if v in s {
        assert v in ks;
        var i :| 0 <= i < |ks| && ks[i] == v;
        assert vc[i].key == v;
        assert i == 0 || vc[0].count >= vc[i].count;
      }
    }
  }

  /** `mode()[0]`: a most frequent value. Ties are broken by first occurrence. */
  function Mode<T(==,!new)>(s: seq<T>): (m: T)
    requires |s| > 0
    ensures m in s
    ensures forall v :: Count(s, v) <= Count(s, m)
  {
    ModeFacts(s);
    ValueCounts(s)[0].key
  }
}
