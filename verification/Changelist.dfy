/** DataLayer changelists: what a batch update does to the store, and what is read back from it
    (orchard_chia/datalayer/confirm.py). Inserting a key that exists overwrites it. */
module Changelist {
  import opened Ordering

  datatype Change<K, V> = Delete(key: K) | Insert(key: K, value: V)

  function Get<K, V>(store: map<K, V>, key: K): Option<V> { if key in store then Some(store[key]) else None }

  function Apply<K, V>(store: map<K, V>, c: Change<K, V>): map<K, V> {
    match c
    case Delete(key) => store - {key}
    case Insert(key, value) => store[key := value]
  }

  function ApplyAll<K, V>(store: map<K, V>, changes: seq<Change<K, V>>): map<K, V> {
    if changes == [] then store else Apply(ApplyAll(store, changes[..|changes| - 1]), changes[|changes| - 1])
  }

  lemma {:induction false} ApplyAppend<K, V>(store: map<K, V>, a: seq<Change<K, V>>, b: seq<Change<K, V>>)
    ensures ApplyAll(store, a + b) == ApplyAll(ApplyAll(store, a), b)
  {
    hide Apply;
    if b == [] {
      assert a + b == a;
    } else {
      assert (a + b)[..|a + b| - 1] == a + b[..|b| - 1];
      ApplyAppend(store, a, b[..|b| - 1]);
    }
  }

  lemma ApplyOne<K, V>(s: map<K, V>, c: Change<K, V>)
    ensures ApplyAll(s, [c]) == Apply(s, c)
  {
    hide Apply;
    assert [c][..0] == [];
  }

  lemma ApplyTwo<K, V>(s: map<K, V>, c: Change<K, V>, d: Change<K, V>)
    ensures ApplyAll(s, [c, d]) == Apply(Apply(s, c), d)
  {
    hide Apply;
    assert [c, d][..1] == [c];
    ApplyOne(s, c);
  }

  /** `inserts_from_changelist`: the pairs that are left after every delete. */
  function InsertsOf<K, V>(changes: seq<Change<K, V>>): map<K, V> {
    if changes == [] then map[]
    else
      match changes[|changes| - 1]
      case Delete(key) => InsertsOf(changes[..|changes| - 1]) - {key}
      case Insert(key, value) => InsertsOf(changes[..|changes| - 1])[key := value]
  }

  method InsertsFromChangelist<K(==), V>(changes: seq<Change<K, V>>) returns (final: map<K, V>)
    ensures final == InsertsOf(changes)
  {
    final := map[];
    for i := 0 to |changes|
      invariant final == InsertsOf(changes[..i])
    {
      assert changes[..i + 1][..i] == changes[..i];
      match changes[i] {
        case Delete(key) => final := final - {key};
        case Insert(key, value) => final := final[key := value];
      }
    }
    assert changes[..|changes|] == changes;
  }

  ghost function Touched<K, V>(changes: seq<Change<K, V>>): set<K> { set c | c in changes :: c.key }

  /** What is to be confirmed is what the store holds: the untouched part of the store before, and the
      inserts. */
  lemma {:induction false} InsertsAreTheContents<K, V>(store: map<K, V>, changes: seq<Change<K, V>>)
    ensures ApplyAll(store, changes) == (store - Touched(changes)) + InsertsOf(changes)
  {
    if changes != [] {
      var front, c := changes[..|changes| - 1], changes[|changes| - 1];
      InsertsAreTheContents(store, front);
      assert Touched(changes) == Touched(front) + {c.key} by { assert changes == front + [c]; }
    }
  }
}
