/** Order-free folds over finite maps. Hash-map iteration order is unspecified, so every total over a
    table is defined by removing keys in an arbitrary order and shown not to depend on it. */
module Finite {

  ghost function Pick<K, V>(m: map<K, V>): (k: K)
    requires |m| > 0
    ensures k in m
  {
    assert m.Keys != {};
    var k :| k in m.Keys;
    k
  }

  /** All values of the map, each as often as it occurs. */
  ghost function Bag<K, V>(m: map<K, V>): (b: multiset<V>)
    ensures |b| == |m|
    decreases |m|
  {
    if |m| == 0 then multiset{} else
    var k := Pick(m);
    assert (m - {k}).Keys == m.Keys - {k};
    Bag(m - {k}) + multiset{m[k]}
  }

  lemma {:induction false} BagRemove<K, V>(m: map<K, V>, k: K)
    requires k in m
    ensures Bag(m) == Bag(m - {k}) + multiset{m[k]}
    decreases |m|
  {
    var p := Pick(m);
    if p != k {
      assert (m - {p}).Keys == m.Keys - {p};
      assert (m - {k}).Keys == m.Keys - {k};
      assert (m - {p}) - {k} == (m - {k}) - {p};
      BagRemove(m - {p}, k);
      BagRemove(m - {k}, p);
    }
  }

  /** The sum of an integer-valued map. */
  ghost function Total<K>(m: map<K, int>): int
    decreases |m|
  {
    if |m| == 0 then 0 else
    var k := Pick(m);
    assert (m - {k}).Keys == m.Keys - {k};
    Total(m - {k}) + m[k]
  }

  lemma {:induction false} TotalRemove<K>(m: map<K, int>, k: K)
    requires k in m
    ensures Total(m) == Total(m - {k}) + m[k]
    decreases |m|
  {
    var p := Pick(m);
    if p != k {
      assert (m - {p}).Keys == m.Keys - {p};
      assert (m - {k}).Keys == m.Keys - {k};
      assert (m - {p}) - {k} == (m - {k}) - {p};
      TotalRemove(m - {p}, k);
      TotalRemove(m - {k}, p);
    }
  }

  // ---- Sequences as bags ----------------------------------------------------------------------

  function Without<T>(s: seq<T>, at: nat): seq<T>
    requires at < |s|
  {
    s[..at] + s[at + 1..]
  }

  lemma WithoutBag<T>(s: seq<T>, at: nat)
    requires at < |s|
    ensures multiset(s) == multiset(Without(s, at)) + multiset{s[at]}
  {
    assert s == s[..at] + [s[at]] + s[at + 1..];
  }

  lemma Cancel<T>(a: multiset<T>, b: multiset<T>, x: multiset<T>)
    requires a + x == b + x
    ensures a == b
  {
    forall v ensures a[v] == b[v] { assert (a + x)[v] == (b + x)[v]; }
  }

  lemma SameEntries<T>(a: seq<T>, b: seq<T>)
    requires multiset(a) == multiset(b)
    ensures |a| == |b|
    ensures forall x :: x in a <==> x in b
  {
    assert |multiset(a)| == |a| && |multiset(b)| == |b|;
    assert forall x :: x in multiset(a) <==> x in a;
    assert forall x :: x in multiset(b) <==> x in b;
  }

  /** Taking the same entry out of two permutations leaves permutations. */
  lemma WithoutSame<T>(a: seq<T>, i: nat, b: seq<T>, j: nat)
    requires multiset(a) == multiset(b) && i < |a| && j < |b| && a[i] == b[j]
    ensures multiset(Without(a, i)) == multiset(Without(b, j))
  {
    WithoutBag(a, i);
    WithoutBag(b, j);
    Cancel(multiset(Without(a, i)), multiset(Without(b, j)), multiset{a[i]});
  }

  ghost predicate NoRepeats<T>(s: seq<T>) {
    forall i, j | 0 <= i < j < |s| :: s[i] != s[j]
  }

  lemma {:induction false} CountOnce<T>(s: seq<T>, x: T)
    requires NoRepeats(s)
    ensures multiset(s)[x] == if x in s then 1 else 0
  {
    if |s| == 0 {
    } else {
      var n := |s| - 1;
      CountOnce(s[..n], x);
      assert s == s[..n] + [s[n]];
    }
  }

  /** Two listings of the same things, each once, are permutations of each other. */
  lemma SameListed<T>(a: seq<T>, b: seq<T>)
    requires NoRepeats(a) && NoRepeats(b) && forall x :: x in a <==> x in b
    ensures multiset(a) == multiset(b)
  {
    forall x ensures multiset(a)[x] == multiset(b)[x] {
      CountOnce(a, x);
      CountOnce(b, x);
    }
  }

  // ---- Sums -----------------------------------------------------------------------------------

  function Sum(xs: seq<int>): int {
    if |xs| == 0 then 0 else xs[0] + Sum(xs[1..])
  }

  lemma {:induction false} SumConcat(a: seq<int>, b: seq<int>)
    ensures Sum(a + b) == Sum(a) + Sum(b)
    decreases |a|
  {
    if |a| == 0 {
      assert a + b == b;
    } else {
      SumConcat(a[1..], b);
      assert (a + b)[1..] == a[1..] + b;
    }
  }

  lemma SumSnoc(xs: seq<int>)
    requires |xs| > 0
    ensures Sum(xs) == Sum(xs[..|xs| - 1]) + xs[|xs| - 1]
  {
    var n := |xs| - 1;
    assert xs == xs[..n] + [xs[n]] && [xs[n]][1..] == [];
    SumConcat(xs[..n], [xs[n]]);
  }

  lemma {:induction false} SumZeros(xs: seq<int>)
    requires forall i | 0 <= i < |xs| :: xs[i] == 0
    ensures Sum(xs) == 0
  {
    if |xs| == 0 {
    } else {
      SumZeros(xs[1..]);
    }
  }

  /** A sum in which one term alone counts. */
  lemma SumOnly(xs: seq<int>, k: nat)
    requires k < |xs| && forall i | 0 <= i < |xs| && i != k :: xs[i] == 0
    ensures Sum(xs) == xs[k]
  {
    var a, b := xs[..k], xs[k + 1..];
    assert xs == a + ([xs[k]] + b) && ([xs[k]] + b)[1..] == b;
    SumConcat(a, [xs[k]] + b);
    SumZeros(a);
    SumZeros(b);
  }

  /** As many things as a listing without repetition names. */
  lemma {:induction false} ListedSize<T>(s: set<T>, listing: seq<T>)
    requires NoRepeats(listing) && forall x :: x in s <==> x in listing
    ensures |s| == |listing|
    decreases |listing|
  {
    if |listing| == 0 {
      assert s == {};
    } else {
      var n := |listing| - 1;
      var last, rest := listing[n], listing[..n];
      assert listing == rest + [last];
      assert forall x :: x in s - {last} <==> x in rest;
      ListedSize(s - {last}, rest);
    }
  }
}
