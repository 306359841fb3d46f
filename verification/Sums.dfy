/** Finite sums, and what a permutation leaves alone. */
module Sums {

  function Sum(s: seq<real>): real {
    if s == [] then 0.0 else Sum(s[..|s| - 1]) + s[|s| - 1]
  }

  function Total(s: seq<int>): int {
    if s == [] then 0 else Total(s[..|s| - 1]) + s[|s| - 1]
  }

  function Zeros(n: nat): (r: seq<int>)
    ensures |r| == n
  {
    seq(n, _ => 0)
  }

  function Ones(n: nat): seq<int> { seq(n, _ => 1) }

  lemma {:induction false} TotalOnes(n: nat)
    ensures Total(Ones(n)) == n
  {
    if n > 0 {
      TotalOnes(n - 1);
      assert Ones(n)[..n - 1] == Ones(n - 1);
    }
  }

  lemma {:induction false} SumSign(s: seq<real>)
    requires forall i :: 0 <= i < |s| ==> s[i] >= 0.0
    ensures Sum(s) >= 0.0
    ensures Sum(s) > 0.0 <==> exists i :: 0 <= i < |s| && s[i] > 0.0
  {
    if s != [] {
      var m := |s| - 1;
      SumSign(s[..m]);
      if i :| 0 <= i < |s| && s[i] > 0.0 && i < m { assert s[..m][i] > 0.0; }
      if i :| 0 <= i < m && s[..m][i] > 0.0 { assert s[i] > 0.0; }
    }
  }

  lemma EmptySum()
    ensures Sum([]) == 0.0
  {}

  lemma EmptyTotal()
    ensures Total([]) == 0
  {}

  lemma {:induction false} TotalZeros(n: nat)
    ensures Total(Zeros(n)) == 0
  {
    if n > 0 {
      TotalZeros(n - 1);
      assert Zeros(n)[..n - 1] == Zeros(n - 1);
    }
  }

  // Permutations.

  function Map<A, B>(f: A -> B, s: seq<A>): (r: seq<B>)
    ensures |r| == |s|
  {
    seq(|s|, i requires 0 <= i < |s| => f(s[i]))
  }

  /** Where a permutation put the last element, and what is left. */
  lemma Removal<T>(s: seq<T>, t: seq<T>) returns (i: nat)
    requires multiset(s) == multiset(t) && s != []
    ensures i < |t| && t[i] == s[|s| - 1]
    ensures multiset(s[..|s| - 1]) == multiset(t[..i] + t[i + 1..])
    ensures |t| == |s|
  {
    var last := s[|s| - 1];
    assert s == s[..|s| - 1] + [last];
    assert last in multiset(t);
    i :| 0 <= i < |t| && t[i] == last;
    assert t == t[..i] + ([last] + t[i + 1..]);
    assert multiset(t) == multiset(t[..i]) + (multiset{last} + multiset(t[i + 1..]));
    assert multiset(t[..i] + t[i + 1..]) == multiset(t[..i]) + multiset(t[i + 1..]);
    assert multiset(s) == multiset(s[..|s| - 1]) + multiset{last};
    assert multiset(s[..|s| - 1]) == multiset(s) - multiset{last};
    assert |multiset(s)| == |multiset(t)|;
  }

  lemma {:induction false} TotalAppend(a: seq<int>, b: seq<int>)
    ensures Total(a + b) == Total(a) + Total(b)
  {
    if b == [] {
      assert a + b == a;
    } else {
      assert (a + b)[..|a + b| - 1] == a + b[..|b| - 1];
      TotalAppend(a, b[..|b| - 1]);
    }
  }

  lemma {:induction false} TotalPermutes(s: seq<int>, t: seq<int>)
    requires multiset(s) == multiset(t)
    ensures Total(s) == Total(t)
    decreases |s|
  {
    if s == [] {
      assert |multiset(t)| == 0;
    } else {
      var i := Removal(s, t);
      TotalPermutes(s[..|s| - 1], t[..i] + t[i + 1..]);
      TotalAppend(t[..i], t[i + 1..]);
      TotalAppend(t[..i], [t[i]]);
      TotalAppend(t[..i + 1], t[i + 1..]);
      assert t[..i] + [t[i]] == t[..i + 1] && t[..i + 1] + t[i + 1..] == t;
      assert Total([t[i]]) == Total([]) + t[i];
    }
  }

  lemma {:induction false} SumAppend(a: seq<real>, b: seq<real>)
    ensures Sum(a + b) == Sum(a) + Sum(b)
  {
    if b == [] {
      assert a + b == a;
    } else {
      assert (a + b)[..|a + b| - 1] == a + b[..|b| - 1];
      SumAppend(a, b[..|b| - 1]);
    }
  }

  lemma {:induction false} SumPermutes(s: seq<real>, t: seq<real>)
    requires multiset(s) == multiset(t)
    ensures Sum(s) == Sum(t)
    decreases |s|
  {
    if s == [] {
      assert |multiset(t)| == 0;
    } else {
      var i := Removal(s, t);
      SumPermutes(s[..|s| - 1], t[..i] + t[i + 1..]);
      SumAppend(t[..i], t[i + 1..]);
      SumAppend(t[..i], [t[i]]);
      SumAppend(t[..i + 1], t[i + 1..]);
      assert t[..i] + [t[i]] == t[..i + 1] && t[..i + 1] + t[i + 1..] == t;
      assert Sum([t[i]]) == Sum([]) + t[i];
    }
  }

  lemma {:induction false} MapPermutes<A, B>(f: A -> B, s: seq<A>, t: seq<A>)
    requires multiset(s) == multiset(t)
    ensures multiset(Map(f, s)) == multiset(Map(f, t))
    decreases |s|
  {
    if s == [] {
      assert |multiset(t)| == 0;
    } else {
      var i := Removal(s, t);
      MapPermutes(f, s[..|s| - 1], t[..i] + t[i + 1..]);
      assert Map(f, s) == Map(f, s[..|s| - 1]) + [f(t[i])];
      assert Map(f, t) == Map(f, t[..i]) + ([f(t[i])] + Map(f, t[i + 1..]));
      assert Map(f, t[..i] + t[i + 1..]) == Map(f, t[..i]) + Map(f, t[i + 1..]);
    }
  }

  /** Whole numbers each at most, and less than one below, given quantities. */
  lemma {:induction false} TotalWithinSum(a: seq<int>, d: seq<real>)
    requires |a| == |d|
    ensures (forall i :: 0 <= i < |a| ==> a[i] as real <= d[i]) ==> Total(a) as real <= Sum(d)
    ensures a != [] && (forall i :: 0 <= i < |a| ==> d[i] < a[i] as real + 1.0) ==> Sum(d) < (Total(a) + |a|) as real
  {
    if a != [] {
      var m := |a| - 1;
      TotalWithinSum(a[..m], d[..m]);
    }
  }

  // Sums over a dictionary.

  ghost function TotalOver<K>(m: map<K, int>, keys: set<K>): int
    requires keys <= m.Keys
  {
    if keys == {} then 0
    else
      var k :| k in keys;
      m[k] + TotalOver(m, keys - {k})
  }

  lemma {:induction false} TotalOverStep<K>(m: map<K, int>, keys: set<K>, k: K)
    requires keys <= m.Keys && k in keys
    ensures TotalOver(m, keys) == m[k] + TotalOver(m, keys - {k})
    decreases |keys|
  {
    var c :| c in keys && TotalOver(m, keys) == m[c] + TotalOver(m, keys - {c});
    if c != k {
      TotalOverStep(m, keys - {c}, k);
      TotalOverStep(m, keys - {k}, c);
      assert keys - {c} - {k} == keys - {k} - {c};
    }
  }

  lemma {:induction false} TotalOverAgree<K>(m: map<K, int>, n: map<K, int>, keys: set<K>)
    requires keys <= m.Keys && keys <= n.Keys && forall k :: k in keys ==> m[k] == n[k]
    ensures TotalOver(m, keys) == TotalOver(n, keys)
    decreases |keys|
  {
    if keys != {} {
      var k :| k in keys;
      TotalOverStep(m, keys, k);
      TotalOverStep(n, keys, k);
      TotalOverAgree(m, n, keys - {k});
    }
  }
}
