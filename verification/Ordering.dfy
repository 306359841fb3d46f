/** Options, results and the built-in sort.

    Python's `sorted` is stable and takes a key; here it is an insertion sort over a total
    preorder, with the facts the rest of the project relies on: the result is sorted, it is a
    permutation of its input, sorting a sorted list changes nothing, and for an order without
    ties the result does not depend on the order of the input. */
module Ordering {

  datatype Option<+T> = None | Some(value: T)

  datatype Result<+T, +E> = Ok(value: T) | Err(error: E)

  ghost predicate TotalPreorder<T(!new)>(le: (T, T) -> bool) {
    && (forall x, y :: le(x, y) || le(y, x))
    && (forall x, y, z :: le(x, y) && le(y, z) ==> le(x, z))
  }

  ghost predicate TotalOrder<T(!new)>(le: (T, T) -> bool) {
    && TotalPreorder(le)
    && (forall x, y :: le(x, y) && le(y, x) ==> x == y)
  }

  ghost predicate Sorted<T>(le: (T, T) -> bool, s: seq<T>) {
    forall i, j :: 0 <= i < j < |s| ==> le(s[i], s[j])
  }

  function Insert<T>(le: (T, T) -> bool, x: T, s: seq<T>): seq<T> {
    if s == [] || le(x, s[0]) then [x] + s else [s[0]] + Insert(le, x, s[1..])
  }

  function Sort<T>(le: (T, T) -> bool, s: seq<T>): seq<T> {
    if s == [] then [] else Insert(le, s[0], Sort(le, s[1..]))
  }

  lemma {:induction false} InsertSorted<T(!new)>(le: (T, T) -> bool, x: T, s: seq<T>)
    requires TotalPreorder(le) && Sorted(le, s)
    ensures Sorted(le, Insert(le, x, s))
    ensures multiset(Insert(le, x, s)) == multiset{x} + multiset(s)
  {
    if s == [] || le(x, s[0]) {
      assert forall j :: 0 <= j < |s| ==> le(x, s[j]);
    } else {
      var rest := Insert(le, x, s[1..]);
      InsertSorted(le, x, s[1..]);
      assert s == [s[0]] + s[1..];
      forall j | 0 <= j < |rest| ensures le(s[0], rest[j]) {
        assert rest[j] in multiset(rest);
        assert rest[j] == x || rest[j] in s[1..];
      }
    }
  }

  lemma {:induction false} SortIsSortedPermutation<T(!new)>(le: (T, T) -> bool, s: seq<T>)
    requires TotalPreorder(le)
    ensures Sorted(le, Sort(le, s))
    ensures multiset(Sort(le, s)) == multiset(s)
    ensures |Sort(le, s)| == |s|
  {
    if s != [] {
      SortIsSortedPermutation(le, s[1..]);
      InsertSorted(le, s[0], Sort(le, s[1..]));
      assert s == [s[0]] + s[1..];
    }
    assert |multiset(Sort(le, s))| == |multiset(s)|;
  }

  lemma SortMembers<T(!new)>(le: (T, T) -> bool, s: seq<T>)
    requires TotalPreorder(le)
    ensures forall x :: x in s <==> x in Sort(le, s)
  {
    SortIsSortedPermutation(le, s);
    forall x ensures x in s <==> x in Sort(le, s) {
      assert x in s <==> x in multiset(s);
      assert x in Sort(le, s) <==> x in multiset(Sort(le, s));
    }
  }

  lemma {:induction false} SortedIsFixed<T>(le: (T, T) -> bool, s: seq<T>)
    requires Sorted(le, s)
    ensures Sort(le, s) == s
  {
    if s != [] {
      SortedIsFixed(le, s[1..]);
      assert s == [s[0]] + s[1..];
    }
  }

  /** No two different elements of s rank the same. */
  ghost predicate NoTies<T>(le: (T, T) -> bool, s: seq<T>) {
    forall i, j :: 0 <= i < |s| && 0 <= j < |s| && le(s[i], s[j]) && le(s[j], s[i]) ==> s[i] == s[j]
  }

  lemma {:induction false} SortedIsUnique<T(!new)>(le: (T, T) -> bool, a: seq<T>, b: seq<T>)
    requires TotalPreorder(le) && NoTies(le, a) && Sorted(le, a) && Sorted(le, b)
    requires multiset(a) == multiset(b)
    ensures a == b
  {
    assert |multiset(a)| == |multiset(b)|;
    if a != [] {
      SameHead(le, a, b);
      TailOf(le, a);
      TailOf(le, b);
      assert NoTies(le, a[1..]);
      hide Sorted, NoTies;
      SortedIsUnique(le, a[1..], b[1..]);
      assert a == [a[0]] + a[1..] && b == [b[0]] + b[1..];
    }
  }

  lemma TailOf<T>(le: (T, T) -> bool, a: seq<T>)
    requires Sorted(le, a) && a != []
    ensures Sorted(le, a[1..]) && multiset(a[1..]) == multiset(a) - multiset{a[0]}
  {
    assert a == [a[0]] + a[1..];
  }

  lemma SameHead<T(!new)>(le: (T, T) -> bool, a: seq<T>, b: seq<T>)
    requires TotalPreorder(le) && NoTies(le, a) && Sorted(le, a) && Sorted(le, b)
    requires multiset(a) == multiset(b) && a != [] && b != []
    ensures a[0] == b[0]
  {
    assert a[0] in multiset(b) && b[0] in multiset(a);
    var i :| 0 <= i < |b| && b[i] == a[0];
    var j :| 0 <= j < |a| && a[j] == b[0];
    if i > 0 && j > 0 {
      assert le(a[0], a[j]) && le(b[0], b[i]);
    }
  }

  /** Inserted one after the other, two elements that tie stay in the order of arrival. */
  lemma {:induction false} TiesKeepTheirOrder<T(!new)>(le: (T, T) -> bool, x: T, y: T, s: seq<T>)
    requires TotalPreorder(le) && le(x, y) && le(y, x) && x != y
    ensures Insert(le, x, Insert(le, y, s)) != Insert(le, y, Insert(le, x, s))
  {
    if s == [] || le(x, s[0]) {
      assert Insert(le, x, Insert(le, y, s))[0] == x && Insert(le, y, Insert(le, x, s))[0] == y;
    } else {
      TiesKeepTheirOrder(le, x, y, s[1..]);
      assert Insert(le, x, Insert(le, y, s)) == [s[0]] + Insert(le, x, Insert(le, y, s[1..]));
      assert Insert(le, y, Insert(le, x, s)) == [s[0]] + Insert(le, y, Insert(le, x, s[1..]));
      assert Insert(le, x, Insert(le, y, s))[1..] != Insert(le, y, Insert(le, x, s))[1..];
    }
  }

  /** A stable sort forgets the order of arrival exactly when no two different elements tie. */
  lemma SortForgetsOrderIff<T(!new)>(le: (T, T) -> bool, s: seq<T>)
    requires TotalPreorder(le)
    ensures (forall t: seq<T> :: multiset(t) == multiset(s) ==> Sort(le, t) == Sort(le, s)) <==> NoTies(le, s)
  {
    hide Sort, NoTies;
    if NoTies(le, s) {
      forall t: seq<T> | multiset(t) == multiset(s) ensures Sort(le, t) == Sort(le, s) {
        SortIsSortedPermutation(le, s);
        SortIsSortedPermutation(le, t);
        SameElementsNoTies(le, s, Sort(le, s));
        SortedIsUnique(le, Sort(le, s), Sort(le, t));
      }
    } else {
      var a, b := TiedArrivals(le, s);
      assert !(Sort(le, a) == Sort(le, s) == Sort(le, b));
    }
  }

  /** A tie can arrive in two orders. */
  lemma TiedArrivals<T(!new)>(le: (T, T) -> bool, s: seq<T>) returns (a: seq<T>, b: seq<T>)
    requires TotalPreorder(le) && !NoTies(le, s)
    ensures multiset(a) == multiset(s) == multiset(b) && Sort(le, a) != Sort(le, b)
  {
    hide Sort;
    var i, j :| 0 <= i < |s| && 0 <= j < |s| && le(s[i], s[j]) && le(s[j], s[i]) && s[i] != s[j];
    if i < j { a, b := BothArrivals(le, s, i, j); } else { a, b := BothArrivals(le, s, j, i); }
  }

  lemma BothArrivals<T(!new)>(le: (T, T) -> bool, s: seq<T>, i: nat, j: nat) returns (a: seq<T>, b: seq<T>)
    requires TotalPreorder(le) && i < j < |s| && le(s[i], s[j]) && le(s[j], s[i]) && s[i] != s[j]
    ensures multiset(a) == multiset(s) == multiset(b) && Sort(le, a) != Sort(le, b)
  {
    hide Sort, Without, Insert, NoTies;
    var rest := Without(s, i, j);
    a, b := [s[i], s[j]] + rest, [s[j], s[i]] + rest;
    TwoInFront(s[i], s[j], rest);
    TwoInFront(s[j], s[i], rest);
    SortOfTwo(le, s[i], s[j], rest);
    SortOfTwo(le, s[j], s[i], rest);
    TiesKeepTheirOrder(le, s[i], s[j], Sort(le, rest));
  }

  lemma TwoInFront<T>(x: T, y: T, rest: seq<T>)
    ensures multiset([x, y] + rest) == multiset(rest) + multiset{x, y}
  {}

  lemma SortOfTwo<T>(le: (T, T) -> bool, x: T, y: T, rest: seq<T>)
    ensures Sort(le, [x, y] + rest) == Insert(le, x, Insert(le, y, Sort(le, rest)))
  {
    assert ([x, y] + rest)[1..] == [y] + rest && ([y] + rest)[1..] == rest;
  }

  lemma SameElementsNoTies<T>(le: (T, T) -> bool, s: seq<T>, t: seq<T>)
    requires NoTies(le, s) && multiset(s) == multiset(t)
    ensures NoTies(le, t)
  {
    forall i, j | 0 <= i < |t| && 0 <= j < |t| && le(t[i], t[j]) && le(t[j], t[i]) ensures t[i] == t[j] {
      assert t[i] in multiset(s) && t[j] in multiset(s);
      var p :| 0 <= p < |s| && s[p] == t[i];
      var q :| 0 <= q < |s| && s[q] == t[j];
    }
  }

  /** s without its elements i and j. */
  function Without<T>(s: seq<T>, i: nat, j: nat): (r: seq<T>)
    requires i < j < |s|
    ensures multiset(r) + multiset{s[i], s[j]} == multiset(s)
  {
    assert s == s[..i] + [s[i]] + s[i + 1..j] + [s[j]] + s[j + 1..];
    s[..i] + s[i + 1..j] + s[j + 1..]
  }

  ghost function Listing<T>(s: set<T>): (r: seq<T>)
    ensures multiset(r) == multiset(s)
  {
    if s == {} then [] else
    var x :| x in s;
    assert multiset(s) == multiset(s - {x}) + multiset{x};
    [x] + Listing(s - {x})
  }

  /** A set in ascending order. */
  ghost function Ascending<T(!new)>(le: (T, T) -> bool, s: set<T>): seq<T> {
    Sort(le, Listing(s))
  }

  ghost predicate Distinct<T>(r: seq<T>) {
    forall i, j :: 0 <= i < j < |r| ==> r[i] != r[j]
  }

  lemma {:induction false} MultisetOfSet<T>(r: seq<T>, s: set<T>)
    requires multiset(r) == multiset(s)
    ensures Distinct(r) && |r| == |s|
    ensures forall x :: x in s <==> x in r
  {
    forall x ensures x in s <==> x in r {
      assert x in multiset(r) <==> x in multiset(s);
    }
    forall i, j | 0 <= i < j < |r| ensures r[i] != r[j] {
      assert r == r[..j] + r[j..];
      assert multiset(r) == multiset(r[..j]) + multiset(r[j..]);
      assert r[..j][i] in multiset(r[..j]) && r[j..][0] in multiset(r[j..]);
      assert multiset(s)[r[i]] <= 1 && multiset(r)[r[i]] <= 1;
    }
    assert |r| == |multiset(r)| == |multiset(s)| == |s|;
  }

  lemma AscendingIsSortedListing<T(!new)>(le: (T, T) -> bool, s: set<T>)
    requires TotalPreorder(le)
    ensures Sorted(le, Ascending(le, s)) && Distinct(Ascending(le, s)) && |Ascending(le, s)| == |s|
    ensures multiset(Ascending(le, s)) == multiset(s)
    ensures forall x :: x in s <==> x in Ascending(le, s)
  {
    SortIsSortedPermutation(le, Listing(s));
    MultisetOfSet(Ascending(le, s), s);
  }

  lemma {:induction false} DistinctListing<T>(r: seq<T>, s: set<T>)
    requires Distinct(r) && forall x :: x in s <==> x in r
    ensures multiset(r) == multiset(s)
  {
    if r == [] {
      assert s == {};
    } else {
      var rest := s - {r[0]};
      forall x ensures x in rest <==> x in r[1..] {
        assert x in s <==> x == r[0] || x in r[1..];
      }
      DistinctListing(r[1..], rest);
      assert r == [r[0]] + r[1..];
      assert multiset(s) == multiset(rest) + multiset{r[0]};
    }
  }

  /** Any strictly ascending listing of a set is the one `Ascending` gives. */
  lemma AscendingUnique<T(!new)>(le: (T, T) -> bool, s: set<T>, r: seq<T>)
    requires TotalOrder(le) && Sorted(le, r) && Distinct(r)
    requires forall x :: x in s <==> x in r
    ensures r == Ascending(le, s)
  {
    AscendingIsSortedListing(le, s);
    DistinctListing(r, s);
    SortedIsUnique(le, r, Ascending(le, s));
  }

  lemma OneOf<T>(s: set<T>) returns (x: T)
    requires s != {}
    ensures x in s
  {
    x :| x in s;
  }

  method Pick<T>(s: set<T>) returns (x: T)
    requires s != {}
    ensures x in s
  {
    x :| x in s;
  }

  /** The keys of a dictionary sorted, from whatever order they come in. */
  method Ascend<T(!new,==)>(le: (T, T) -> bool, s: set<T>) returns (r: seq<T>)
    requires TotalOrder(le)
    ensures r == Ascending(le, s)
  {
    r := [];
    var todo := s;
    while todo != {}
      invariant todo <= s
      invariant Sorted(le, r) && multiset(r) == multiset(s - todo)
    {
      var x :| x in todo;
      InsertSorted(le, x, r);
      assert s - (todo - {x}) == (s - todo) + {x};
      r := Insert(le, x, r);
      todo := todo - {x};
    }
    assert s - todo == s;
    AscendingIsSortedListing(le, s);
    SortedIsUnique(le, r, Ascending(le, s));
  }

  // Text is ordered by code point, the way Python compares strings.

  predicate TextLe(a: string, b: string) {
    a == "" || (b != "" && (a[0] < b[0] || (a[0] == b[0] && TextLe(a[1..], b[1..]))))
  }

  lemma {:induction false} TextLePair(a: string, b: string)
    ensures TextLe(a, b) || TextLe(b, a)
    ensures TextLe(a, b) && TextLe(b, a) ==> a == b
  {
    if a != "" && b != "" && a[0] == b[0] {
      TextLePair(a[1..], b[1..]);
      assert a == [a[0]] + a[1..] && b == [b[0]] + b[1..];
    }
  }

  lemma {:induction false} TextLeTransitive(a: string, b: string, c: string)
    requires TextLe(a, b) && TextLe(b, c)
    ensures TextLe(a, c)
  {
    if a != "" && b != "" && c != "" && a[0] == b[0] && b[0] == c[0] {
      TextLeTransitive(a[1..], b[1..], c[1..]);
    }
  }

  lemma TextOrder()
    ensures TotalOrder(TextLe)
  {
    forall x, y ensures TextLe(x, y) || TextLe(y, x) { TextLePair(x, y); }
    forall x, y | TextLe(x, y) && TextLe(y, x) ensures x == y { TextLePair(x, y); }
    forall x, y, z | TextLe(x, y) && TextLe(y, z) ensures TextLe(x, z) { TextLeTransitive(x, y, z); }
  }

  /** Where two texts first differ, the smaller character decides; a text comes before every longer one it begins. */
  lemma {:induction false} FirstDifferenceDecides(a: string, b: string, k: nat)
    requires k <= |a| && k <= |b| && a[..k] == b[..k]
    ensures k == |a| ==> TextLe(a, b)
    ensures k < |a| && k == |b| ==> !TextLe(a, b)
    ensures k < |a| && k < |b| && a[k] != b[k] ==> (TextLe(a, b) <==> a[k] < b[k])
    decreases k
  {
    if k > 0 {
      assert a[0] == a[..k][0] == b[..k][0] == b[0];
      assert a[1..][..k - 1] == a[..k][1..] == b[..k][1..] == b[1..][..k - 1];
      FirstDifferenceDecides(a[1..], b[1..], k - 1);
    }
  }

  predicate TextPairLe(a: (string, string), b: (string, string)) {
    if a.0 == b.0 then TextLe(a.1, b.1) else TextLe(a.0, b.0)
  }

  lemma TextPairOrder()
    ensures TotalOrder(TextPairLe)
  {
    TextOrder();
    hide TextLe;
  }

  method AscendText(s: set<string>) returns (r: seq<string>)
    ensures r == Ascending(TextLe, s)
  {
    TextOrder();
    r := Ascend(TextLe, s);
  }

  /** Concatenation does not mind brackets. */
  lemma Regroup<T>(a: seq<T>, b: seq<T>, c: seq<T>)
    ensures (a + b) + c == a + (b + c)
  {}

  predicate IntLe(a: int, b: int) { a <= b }

  // ASCII case mapping, as `str.upper` and `str.lower` act on the identifiers used here.

  function Upper(s: string): (r: string)
    ensures |r| == |s|
  {
    seq(|s|, i requires 0 <= i < |s| => if 'a' <= s[i] <= 'z' then s[i] - 'a' + 'A' else s[i])
  }

  function Lower(s: string): (r: string)
    ensures |r| == |s|
  {
    seq(|s|, i requires 0 <= i < |s| => if 'A' <= s[i] <= 'Z' then s[i] - 'A' + 'a' else s[i])
  }

  /** Two texts are alike in capitals exactly when they are alike in small letters. */
  lemma CaseMappingsAgree(a: string, b: string)
    ensures Upper(a) == Upper(b) <==> Lower(a) == Lower(b)
  {
    if |a| == |b| {
      forall i | 0 <= i < |a| ensures Upper(a)[i] == Upper(b)[i] <==> Lower(a)[i] == Lower(b)[i] {}
    }
  }

  lemma UpperIdempotent(s: string)
    ensures Upper(Upper(s)) == Upper(s)
  {}
}
