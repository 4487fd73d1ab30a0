/** Sums over groups: the dictionaries that collect totals by key, in insertion order. */
module Grouping {

  /** Each element once, in the order of first occurrence. */
  function FirstOccurrences<T(==)>(s: seq<T>): seq<T> {
    if s == [] then []
    else
      var before := FirstOccurrences(s[..|s| - 1]);
      if s[|s| - 1] in before then before else before + [s[|s| - 1]]
  }

  ghost predicate Distinct<T(!new)>(s: seq<T>) {
    forall i, j :: 0 <= i < j < |s| ==> s[i] != s[j]
  }

  lemma {:induction false} FirstOccurrencesOnce<T(!new)>(s: seq<T>)
    ensures Distinct(FirstOccurrences(s)) && forall x :: x in FirstOccurrences(s) <==> x in s
  {
    if s != [] {
      var init := s[..|s| - 1];
      FirstOccurrencesOnce(init);
      assert forall x :: x in s <==> x in init || x == s[|s| - 1];
    }
  }

  function Sum(w: seq<int>): int {
    if w == [] then 0 else Sum(w[..|w| - 1]) + w[|w| - 1]
  }

  /** The sum of the weights that stand at this key. */
  function SumAt<K(==)>(keys: seq<K>, w: seq<int>, key: K): int
    requires |keys| == |w|
  {
    if w == [] then 0
    else SumAt(keys[..|w| - 1], w[..|w| - 1], key) + (if keys[|w| - 1] == key then w[|w| - 1] else 0)
  }

  /** The sum for each of the given keys. */
  function SumsAt<K(==)>(keys: seq<K>, w: seq<int>, at: seq<K>): (r: seq<int>)
    requires |keys| == |w|
    ensures |r| == |at|
  {
    seq(|at|, i requires 0 <= i < |at| => SumAt(keys, w, at[i]))
  }

  lemma SumSnoc(w: seq<int>, x: int)
    ensures Sum(w + [x]) == Sum(w) + x
  {
    assert (w + [x])[..|w|] == w;
  }

  lemma SumAtSnoc<K>(keys: seq<K>, w: seq<int>, k: K, x: int, key: K)
    requires |keys| == |w|
    ensures SumAt(keys + [k], w + [x], key) == SumAt(keys, w, key) + (if k == key then x else 0)
  {
    assert (w + [x])[..|w|] == w && (keys + [k])[..|w|] == keys;
  }

  lemma FirstOccurrencesSnoc<T>(s: seq<T>, x: T)
    ensures FirstOccurrences(s + [x]) == if x in FirstOccurrences(s) then FirstOccurrences(s) else FirstOccurrences(s) + [x]
  {
    assert (s + [x])[..|s|] == s;
  }

  lemma {:induction false} SumAtAbsent<K>(keys: seq<K>, w: seq<int>, key: K)
    requires |keys| == |w| && key !in keys
    ensures SumAt(keys, w, key) == 0
  {
    if w != [] {
      SumAtAbsent(keys[..|w| - 1], w[..|w| - 1], key);
    }
  }

  /** One more weight changes the sum over distinct keys by that weight, if its key is among them. */
  lemma {:induction false} SumsAtSnoc<K(!new)>(keys: seq<K>, w: seq<int>, k: K, x: int, at: seq<K>)
    requires |keys| == |w| && Distinct(at)
    ensures Sum(SumsAt(keys + [k], w + [x], at)) == Sum(SumsAt(keys, w, at)) + (if k in at then x else 0)
  {
    if at != [] {
      var init, last := at[..|at| - 1], at[|at| - 1];
      SumsAtSnoc(keys, w, k, x, init);
      SumAtSnoc(keys, w, k, x, last);
      assert SumsAt(keys, w, at)[..|init|] == SumsAt(keys, w, init);
      assert SumsAt(keys + [k], w + [x], at)[..|init|] == SumsAt(keys + [k], w + [x], init);
      assert at == init + [last];
      assert last !in init;
    }
  }

  /** Grouping loses nothing: the sums by key add up to the sum of all weights. */
  lemma {:induction false} Partition<K(!new)>(keys: seq<K>, w: seq<int>)
    requires |keys| == |w|
    ensures Sum(SumsAt(keys, w, FirstOccurrences(keys))) == Sum(w)
  {
    if w == [] {
      assert FirstOccurrences(keys) == [];
      assert SumsAt(keys, w, []) == [];
    } else {
      var n := |w| - 1;
      var k, x, first := keys[n], w[n], FirstOccurrences(keys[..n]);
      Partition(keys[..n], w[..n]);
      FirstOccurrencesOnce(keys[..n]);
      SumsAtSnoc(keys[..n], w[..n], k, x, first);
      assert keys == keys[..n] + [k] && w == w[..n] + [x];
      if k !in first {
        SumAtAbsent(keys[..n], w[..n], k);
        SumAtSnoc(keys[..n], w[..n], k, x, k);
        assert SumsAt(keys, w, first + [k]) == SumsAt(keys, w, first) + [SumAt(keys, w, k)];
        SumSnoc(SumsAt(keys, w, first), SumAt(keys, w, k));
      }
    }
  }

  // ---------------------------------------------------------------- reordering

  /** The two lists hold the same pairs, in some order. */
  ghost predicate Reordered<A>(a: seq<A>, b: seq<A>) {
    multiset(a) == multiset(b)
  }

  lemma FindOccurrence<A>(x: A, s: seq<A>) returns (i: nat)
    requires x in s
    ensures i < |s| && s[i] == x
  {
    i :| i < |s| && s[i] == x;
  }

  lemma RemoveAt<A>(s: seq<A>, i: nat)
    requires i < |s|
    ensures multiset(s[..i] + s[i + 1..]) == multiset(s) - multiset{s[i]}
  {
    assert s == s[..i] + [s[i]] + s[i + 1..];
  }

  lemma {:induction false} SumRemove(w: seq<int>, i: nat)
    requires i < |w|
    ensures Sum(w) == Sum(w[..i] + w[i + 1..]) + w[i]
  {
    if i == |w| - 1 {
      assert w[..i] + w[i + 1..] == w[..i];
    } else {
      var init := w[..|w| - 1];
      SumRemove(init, i);
      assert (w[..i] + w[i + 1..])[..|w| - 2] == init[..i] + init[i + 1..];
    }
  }

  /** A sum does not depend on the order. */
  lemma {:induction false} SumReordered(a: seq<int>, b: seq<int>)
    requires Reordered(a, b)
    ensures Sum(a) == Sum(b)
  {
    assert |a| == |multiset(a)| && |b| == |multiset(b)|;
    if a != [] {
      var init, x := a[..|a| - 1], a[|a| - 1];
      assert a == init + [x];
      assert x in multiset(b);
      var i := FindOccurrence(x, b);
      RemoveAt(b, i);
      SumReordered(init, b[..i] + b[i + 1..]);
      SumRemove(b, i);
    }
  }

  /** The pairs (key, weight). */
  function Zip<K>(keys: seq<K>, w: seq<int>): (r: seq<(K, int)>)
    requires |keys| == |w|
    ensures |r| == |w|
  {
    seq(|w|, i requires 0 <= i < |w| => (keys[i], w[i]))
  }

  lemma RemoveSnoc<A>(s: seq<A>, x: A, i: nat)
    requires i < |s|
    ensures (s + [x])[..i] + (s + [x])[i + 1..] == (s[..i] + s[i + 1..]) + [x]
  {
  }

  lemma {:induction false} SumAtRemove<K>(keys: seq<K>, w: seq<int>, i: nat, key: K)
    requires |keys| == |w| && i < |w|
    ensures SumAt(keys, w, key)
            == SumAt(keys[..i] + keys[i + 1..], w[..i] + w[i + 1..], key) + (if keys[i] == key then w[i] else 0)
  {
    var n := |w| - 1;
    var k, v, lastKey, last := keys[..n], w[..n], keys[n], w[n];
    assert keys == k + [lastKey] && w == v + [last];
    SumAtSnoc(k, v, lastKey, last, key);
    hide SumAt;
    if i == n {
      assert w[..i] + w[i + 1..] == v && keys[..i] + keys[i + 1..] == k;
    } else {
      SumAtRemove(k, v, i, key);
      RemoveSnoc(k, lastKey, i);
      RemoveSnoc(v, last, i);
      SumAtSnoc(k[..i] + k[i + 1..], v[..i] + v[i + 1..], lastKey, last, key);
    }
  }

  lemma {:induction false} SumAtReordered<K>(keys: seq<K>, w: seq<int>, keys2: seq<K>, w2: seq<int>, key: K)
    requires |keys| == |w| && |keys2| == |w2| && Reordered(Zip(keys, w), Zip(keys2, w2))
    ensures SumAt(keys, w, key) == SumAt(keys2, w2, key)
    decreases |w|
  {
    var a, b := Zip(keys, w), Zip(keys2, w2);
    assert |a| == |multiset(a)| && |b| == |multiset(b)|;
    if w != [] {
      var n := |w| - 1;
      assert a == Zip(keys[..n], w[..n]) + [(keys[n], w[n])];
      assert (keys[n], w[n]) in multiset(b);
      var i := FindOccurrence((keys[n], w[n]), b);
      RemoveAt(b, i);
      assert Zip(keys2[..i] + keys2[i + 1..], w2[..i] + w2[i + 1..]) == b[..i] + b[i + 1..];
      SumAtReordered(keys[..n], w[..n], keys2[..i] + keys2[i + 1..], w2[..i] + w2[i + 1..], key);
      SumAtRemove(keys2, w2, i, key);
    }
  }

  lemma {:induction false} DistinctOnce<T(!new)>(s: seq<T>, x: T)
    requires Distinct(s)
    ensures multiset(s)[x] == if x in s then 1 else 0
  {
    if s != [] {
      var init := s[..|s| - 1];
      DistinctOnce(init, x);
      assert s == init + [s[|s| - 1]];
      assert s[|s| - 1] !in init;
    }
  }

  /** Distinct lists of the same elements are reorderings of each other. */
  lemma SameElements<T(!new)>(a: seq<T>, b: seq<T>)
    requires Distinct(a) && Distinct(b) && forall x :: x in a <==> x in b
    ensures Reordered(a, b)
  {
    forall x ensures multiset(a)[x] == multiset(b)[x] {
      DistinctOnce(a, x);
      DistinctOnce(b, x);
    }
  }

  function Mapped<A, B>(f: A -> B, s: seq<A>): (r: seq<B>)
    ensures |r| == |s|
  {
    seq(|s|, i requires 0 <= i < |s| => f(s[i]))
  }

  /** What is computed element by element is reordered with the elements. */
  lemma {:induction false} MappedReordered<A, B>(f: A -> B, a: seq<A>, b: seq<A>)
    requires Reordered(a, b)
    ensures Reordered(Mapped(f, a), Mapped(f, b))
  {
    assert |a| == |multiset(a)| && |b| == |multiset(b)|;
    if a == [] {
      assert b == [];
      assert Mapped(f, a) == [] && Mapped(f, b) == [];
    } else {
      var init, x := a[..|a| - 1], a[|a| - 1];
      assert a == init + [x];
      assert x in multiset(b);
      var i := FindOccurrence(x, b);
      var rest := b[..i] + b[i + 1..];
      RemoveAt(b, i);
      MappedReordered(f, init, rest);
      MappedSnoc(f, init, x);
      MappedRemove(f, b, i);
      RemoveAt(Mapped(f, b), i);
      hide Mapped;
      assert f(x) in Mapped(f, b);
    }
  }

  lemma MappedSnoc<A, B>(f: A -> B, s: seq<A>, x: A)
    ensures Mapped(f, s + [x]) == Mapped(f, s) + [f(x)]
  {
  }

  lemma MappedRemove<A, B>(f: A -> B, s: seq<A>, i: nat)
    requires i < |s|
    ensures Mapped(f, s)[i] == f(s[i])
    ensures Mapped(f, s)[..i] + Mapped(f, s)[i + 1..] == Mapped(f, s[..i] + s[i + 1..])
  {
  }
}
