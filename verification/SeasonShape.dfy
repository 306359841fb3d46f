/** What a season root says about the hours (orchard_chia/datalayer/schema.py).

    A season tree is its readings, left to right, and its shape. The shape is computed from the sizes of
    the hours alone: which hour each list belongs to does not enter, and different lists of sizes can have
    one shape. */
module SeasonShape {
  import opened Ordering
  import opened Merkle
  import opened Schema

  datatype Shape = Tip | Fork(left: Shape, right: Shape)

  function ShapeOf(t: Tree): Shape {
    match t
    case Leaf(_) => Tip
    case Node(l, r) => Fork(ShapeOf(l), ShapeOf(r))
  }

  function Tips(s: Shape): nat {
    match s
    case Tip => 1
    case Fork(l, r) => Tips(l) + Tips(r)
  }

  /** The shape of an hour of n readings. */
  function HourShape(n: nat): Shape
    decreases n
  {
    if n < 2 then Tip
    else
      var k := SplitPoint(n);
      Fork(HourShape(k), HourShape(n - k))
  }

  /** The shape of a season whose hours, in order, have these sizes. */
  function Split(sizes: seq<nat>): Shape
    requires sizes != []
    decreases |sizes|
  {
    if |sizes| == 1 then HourShape(sizes[0])
    else
      var k := SplitPoint(|sizes|);
      Fork(Split(sizes[..k]), Split(sizes[k..]))
  }

  // A tree is its shape and its leaves.

  lemma {:induction false} LeafCount(t: Tree)
    ensures |Leaves(t)| == Tips(ShapeOf(t))
  {
    if t.Node? {
      LeafCount(t.left);
      LeafCount(t.right);
    }
  }

  lemma {:induction false} TreeIsShapeAndLeaves(a: Tree, b: Tree)
    ensures a == b <==> ShapeOf(a) == ShapeOf(b) && Leaves(a) == Leaves(b)
  {
    if ShapeOf(a) == ShapeOf(b) && Leaves(a) == Leaves(b) {
      match (a, b)
      case (Leaf(x), Leaf(y)) => assert Leaves(a)[0] == x && Leaves(b)[0] == y;
      case (Node(l, r), Node(l', r')) =>
        LeafCount(l);
        LeafCount(l');
        assert Leaves(l) == Leaves(a)[..|Leaves(l)|] == Leaves(b)[..|Leaves(l)|] == Leaves(l');
        assert Leaves(r) == Leaves(a)[|Leaves(l)|..] == Leaves(b)[|Leaves(l)|..] == Leaves(r');
        TreeIsShapeAndLeaves(l, l');
        TreeIsShapeAndLeaves(r, r');
    }
  }

  lemma {:induction false} ShapeOfHour(ts: seq<Tree>)
    requires ts != [] && forall i :: 0 <= i < |ts| ==> ts[i].Leaf?
    ensures ShapeOf(Join(ts)) == HourShape(|ts|)
    decreases |ts|
  {
    if |ts| > 1 {
      var k := SplitPoint(|ts|);
      ShapeOfHour(ts[..k]);
      ShapeOfHour(ts[k..]);
    }
  }

  lemma {:induction false} ShapeOfSeason(ts: seq<Tree>, sizes: seq<nat>)
    requires ts != [] && |ts| == |sizes| && forall i :: 0 <= i < |ts| ==> ShapeOf(ts[i]) == HourShape(sizes[i])
    ensures ShapeOf(Join(ts)) == Split(sizes)
    decreases |ts|
  {
    if |ts| > 1 {
      var k := SplitPoint(|ts|);
      ShapeOfSeason(ts[..k], sizes[..k]);
      ShapeOfSeason(ts[k..], sizes[k..]);
    }
  }

  /** The sizes of the hours, in the order of the hours. */
  ghost function Sizes(hours: Hours): (r: seq<nat>)
    ensures |r| == |OrderedHours(hours)|
  {
    seq(|OrderedHours(hours)|, i requires 0 <= i < |OrderedHours(hours)| => |OrderedHours(hours)[i]|)
  }

  lemma SeasonTreeShape(w: World, hours: Hours)
    requires NonEmptyHours(hours)
    ensures Sizes(hours) != [] && ShapeOf(SeasonTree(w, hours)) == Split(Sizes(hours))
  {
    hide SortedReadings, Ascending, Sorted, Split, HourShape;
    AscendingIsSortedListing(IntLe, hours.Keys);
    var hs, trees, sizes := HourList(hours.Keys), HourTrees(w, hours), Sizes(hours);
    HourTreeRoots(w, hours);
    forall i | 0 <= i < |trees| ensures ShapeOf(trees[i]) == HourShape(sizes[i]) {
      HourTreeShape(w, hours[hs[i]]);
    }
    ShapeOfSeason(trees, sizes);
  }

  lemma HourTreeShape(w: World, rs: seq<Reading>)
    requires rs != []
    ensures ShapeOf(HourTree(w, rs)) == HourShape(|SortedReadings(rs)|)
  {
    SortedReadingsFacts(rs);
    var items := HourItems(w, rs);
    hide SortedReadings, Join, HourShape;
    ShapeOfHour(seq(|items|, i requires 0 <= i < |items| => Leaf(items[i])));
  }

  // When two seasons share a root.

  /** Season trees are equal exactly when the readings are, left to right, and the sizes of the hours split
      alike. Hour labels do not enter. */
  lemma SameTreeIff(w: World, a: Hours, b: Hours)
    requires w.CanonicalInjective() && NonEmptyHours(a) && NonEmptyHours(b)
    ensures Sizes(a) != [] && Sizes(b) != []
    ensures SeasonTree(w, a) == SeasonTree(w, b) <==>
              AllReadings(a) == AllReadings(b) && Split(Sizes(a)) == Split(Sizes(b))
  {
    SeasonTreeShape(w, a);
    SeasonTreeShape(w, b);
    SeasonTreeLeaves(w, a);
    SeasonTreeLeaves(w, b);
    BytesTellReadingsApart(w, AllReadings(a), AllReadings(b));
    hide SeasonTree, Sizes, AllReadings, BytesOf, Split, Leaves, ShapeOf;
    TreeIsShapeAndLeaves(SeasonTree(w, a), SeasonTree(w, b));
  }

  /** Two seasons have one root exactly when they have the same readings, left to right, in hours whose sizes
      split alike; or a collision is in hand. */
  lemma SameRootIff(w: World, a: Hours, b: Hours)
    requires w.CanonicalInjective() && NonEmptyHours(a) && NonEmptyHours(b)
    ensures Sizes(a) != [] && Sizes(b) != []
    ensures match Clash(w.sha256, SeasonTree(w, a), SeasonTree(w, b))
            case None =>
              SeasonRoot(w, HourRoots(w, a)) == SeasonRoot(w, HourRoots(w, b)) <==>
                AllReadings(a) == AllReadings(b) && Split(Sizes(a)) == Split(Sizes(b))
            case Some(c) =>
              SeasonRoot(w, HourRoots(w, a)) == SeasonRoot(w, HourRoots(w, b)) ==> IsCollision(w.sha256, c.0, c.1)
    ensures AllReadings(a) == AllReadings(b) && Split(Sizes(a)) == Split(Sizes(b)) ==>
              SeasonRoot(w, HourRoots(w, a)) == SeasonRoot(w, HourRoots(w, b))
  {
    SameTreeIff(w, a, b);
    SeasonTreeRoot(w, a);
    SeasonTreeRoot(w, b);
    hide SeasonTree, Sizes, AllReadings, Split, SeasonRoot, HourRoots, Clash, RootOf;
    EqualRootsBind(w.sha256, SeasonTree(w, a), SeasonTree(w, b));
  }

  /** The same lists of readings under any other hour labels, in the same order, have the same root. */
  lemma LabelsAreForgotten(w: World, a: Hours, b: Hours)
    requires NonEmptyHours(a) && NonEmptyHours(b) && OrderedHours(a) == OrderedHours(b)
    ensures SeasonRoot(w, HourRoots(w, a)) == SeasonRoot(w, HourRoots(w, b))
  {
    SeasonTreeShape(w, a);
    SeasonTreeShape(w, b);
    SeasonTreeLeaves(w, a);
    SeasonTreeLeaves(w, b);
    SeasonTreeRoot(w, a);
    SeasonTreeRoot(w, b);
    assert Sizes(a) == Sizes(b);
    hide SeasonTree, Sizes, OrderedHours, BytesOf, Split, Leaves, ShapeOf, SeasonRoot, HourRoots, RootOf;
    TreeIsShapeAndLeaves(SeasonTree(w, a), SeasonTree(w, b));
  }

  /** One hour's readings, under any label. */
  lemma AnyLabelWillDo(w: World, rs: seq<Reading>, h: int, h': int)
    requires rs != []
    ensures SeasonRoot(w, HourRoots(w, map[h := rs])) == SeasonRoot(w, HourRoots(w, map[h' := rs]))
  {
    OneHour(rs, h);
    OneHour(rs, h');
    assert h in map[h := rs] && h' in map[h' := rs];
    hide SeasonRoot, HourRoots, OrderedHours;
    LabelsAreForgotten(w, map[h := rs], map[h' := rs]);
  }

  lemma OneHour(rs: seq<Reading>, h: int)
    ensures OrderedHours(map[h := rs]) == [SortedReadings(rs)]
  {
    AscendingUnique(IntLe, map[h := rs].Keys, [h]);
  }
}
