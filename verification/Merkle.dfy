/** The Merkle tree over reading commitments (orchard_chia/datalayer/merkle.py).

    SHA-256 is a parameter: any function from byte strings to 32-byte strings. Nothing else is
    assumed about it. Where a claim would need collision resistance, the functions here hand back
    the two colliding inputs instead. Leaves and siblings are byte strings of any length, as they
    are in the program. */
module Merkle {
  import opened Ordering

  newtype Byte = b: int | 0 <= b < 256
  type Bytes = seq<Byte>
  type Digest = Bytes
  type Hash = h: Bytes -> Digest | forall x :: |h(x)| == 32 witness ZeroHash

  function ZeroHash(x: Bytes): Digest { seq(32, _ => 0) }

  /** The side of the sibling in one step of an audit path. */
  datatype Side = L | R
  datatype Step = Step(side: Side, sibling: Digest)

  function EmptyRoot(H: Hash): Digest { H([0]) }

  function LeafHash(H: Hash, data: Bytes): Digest { H([0] + data) }

  function NodeHash(H: Hash, l: Digest, r: Digest): Digest { H([1] + l + r) }

  // The reference: the Merkle Tree Hash of RFC 6962, section 2.1, over leaves that are already
  // hashed, and the audit path of section 2.1.1 with the side of every sibling spelt out.

  /** The largest power of two smaller than n: double from 1 while the double is still below n. */
  function SplitPoint(n: nat): (k: nat)
    requires n >= 2
    ensures 1 <= k < n <= 2 * k
  {
    DoubleBelow(1, n)
  }

  function DoubleBelow(k: nat, n: nat): (r: nat)
    requires 1 <= k < n
    ensures k <= r < n <= 2 * r
    decreases n - k
  {
    if 2 * k >= n then k else DoubleBelow(2 * k, n)
  }

  function TreeHash(H: Hash, leaves: seq<Digest>): Digest
    decreases |leaves|
  {
    if |leaves| == 0 then EmptyRoot(H)
    else if |leaves| == 1 then leaves[0]
    else
      var k := SplitPoint(|leaves|);
      NodeHash(H, TreeHash(H, leaves[..k]), TreeHash(H, leaves[k..]))
  }

  function AuditPath(H: Hash, leaves: seq<Digest>, m: nat): seq<Step>
    requires m < |leaves|
    decreases |leaves|
  {
    if |leaves| == 1 then []
    else
      var k := SplitPoint(|leaves|);
      if m < k then AuditPath(H, leaves[..k], m) + [Step(R, TreeHash(H, leaves[k..]))]
      else AuditPath(H, leaves[k..], m - k) + [Step(L, TreeHash(H, leaves[..k]))]
  }

  function Pow2(n: nat): (p: nat)
    ensures p >= 1
  {
    if n == 0 then 1 else 2 * Pow2(n - 1)
  }

  /** `SplitPoint` is a power of two; with its bounds this pins it to the largest one below n. */
  lemma SplitPointIsPowerOfTwo(n: nat)
    requires n >= 2
    ensures exists e: nat :: SplitPoint(n) == Pow2(e)
  {
    assert Pow2(0) == 1;
    DoublingKeepsPowers(1, n, 0);
  }

  lemma {:induction false} DoublingKeepsPowers(k: nat, n: nat, e: nat)
    requires 1 <= k < n && k == Pow2(e)
    ensures exists e': nat :: DoubleBelow(k, n) == Pow2(e')
    decreases n - k
  {
    if 2 * k >= n {
      assert DoubleBelow(k, n) == Pow2(e);
    } else {
      DoublingKeepsPowers(2 * k, n, e + 1);
    }
  }

  lemma {:induction false} DoubleBelowHalves(k: nat, n: nat, c: nat)
    requires 1 <= k < c && n <= 2 * c <= n + 1
    ensures 2 * k < n && DoubleBelow(2 * k, n) == 2 * DoubleBelow(k, c)
    decreases c - k
  {
    if 2 * k < c {
      DoubleBelowHalves(2 * k, n, c);
    }
  }

  /** The split of a level is twice the split of the next level, which has `c` nodes. */
  lemma SplitHalves(n: nat, c: nat)
    requires n > 2 && n <= 2 * c <= n + 1
    ensures c >= 2 && SplitPoint(n) == 2 * SplitPoint(c)
  {
    DoubleBelowHalves(1, n, c);
  }

  // One pass of the program's loop.

  function Parent(H: Hash, level: seq<Digest>, j: nat): Digest
    requires 2 * j < |level|
  {
    if 2 * j + 1 < |level| then NodeHash(H, level[2 * j], level[2 * j + 1]) else level[2 * j]
  }

  function Pairs(H: Hash, level: seq<Digest>): seq<Digest> {
    seq((|level| + 1) / 2, j requires 0 <= j < (|level| + 1) / 2 => Parent(H, level, j))
  }

  /** What one pass contributes to the path of node `i`, whose parent is node `p` of the next level. */
  function Sibling(level: seq<Digest>, i: nat, p: nat): seq<Step>
    requires i < |level| && 2 * p <= i <= 2 * p + 1
  {
    if i == 2 * p + 1 then [Step(L, level[i - 1])]
    else if i + 1 < |level| then [Step(R, level[i + 1])]
    else []
  }

  /** The next level splits where this one does, at half the index. */
  lemma SplitOfPairs(H: Hash, level: seq<Digest>, k: nat, h: nat)
    requires |level| > 2 && k == SplitPoint(|level|) && k == 2 * h
    ensures |Pairs(H, level)| >= 2 && SplitPoint(|Pairs(H, level)|) == h
    ensures Pairs(H, level)[..h] == Pairs(H, level[..k])
    ensures Pairs(H, level)[h..] == Pairs(H, level[k..])
  {
    var next, right := Pairs(H, level), level[k..];
    SplitHalves(|level|, |next|);
    assert |next| - h == (|right| + 1) / 2;
    forall j | 0 <= j < |next| - h
      ensures next[h + j] == Parent(H, right, j)
    {
      assert next[h + j] == Parent(H, level, h + j);
    }
    forall j | 0 <= j < h
      ensures next[j] == Parent(H, level[..k], j)
    {
      assert next[j] == Parent(H, level, j);
    }
  }

  /** A pass of the loop leaves the tree hash unchanged. */
  lemma {:induction false} PairsKeepTreeHash(H: Hash, level: seq<Digest>)
    ensures TreeHash(H, Pairs(H, level)) == TreeHash(H, level)
    decreases |level|
  {
    if |level| == 2 {
      assert level[..1] == [level[0]] && level[1..] == [level[1]];
      assert Pairs(H, level) == [NodeHash(H, level[0], level[1])];
    } else if |level| > 2 {
      var k, h := SplitPoint(|level|), SplitPoint(|Pairs(H, level)|);
      SplitHalves(|level|, |Pairs(H, level)|);
      SplitOfPairs(H, level, k, h);
      PairsKeepTreeHash(H, level[..k]);
      PairsKeepTreeHash(H, level[k..]);
    }
  }

  lemma PathOnTheLeft(H: Hash, leaves: seq<Digest>, m: nat, k: nat)
    requires |leaves| >= 2 && k == SplitPoint(|leaves|) && m < k
    ensures AuditPath(H, leaves, m) == AuditPath(H, leaves[..k], m) + [Step(R, TreeHash(H, leaves[k..]))]
  {
    hide TreeHash, DoubleBelow;
  }

  lemma PathOnTheRight(H: Hash, leaves: seq<Digest>, i: nat, k: nat)
    requires |leaves| >= 2 && k == SplitPoint(|leaves|) && k + i < |leaves|
    ensures AuditPath(H, leaves, k + i) == AuditPath(H, leaves[k..], i) + [Step(L, TreeHash(H, leaves[..k]))]
  {
    hide TreeHash, DoubleBelow;
    assert k + i - k == i;
  }

  lemma SiblingOnTheLeft(level: seq<Digest>, m: nat, p: nat, k: nat, h: nat)
    requires k == 2 * h <= |level| && m < k && 2 * p <= m <= 2 * p + 1
    ensures Sibling(level[..k], m, p) == Sibling(level, m, p)
  {}

  lemma SiblingOnTheRight(level: seq<Digest>, i: nat, q: nat, k: nat, h: nat)
    requires k == 2 * h && k + i < |level| && 2 * q <= i <= 2 * q + 1
    ensures Sibling(level[k..], i, q) == Sibling(level, k + i, h + q)
  {}

  lemma Glue<T>(whole: seq<T>, sib: seq<T>, rest: seq<T>, last: seq<T>, up: seq<T>)
    requires whole == (sib + rest) + last && up == rest + last
    ensures whole == sib + up
  {}

  /** ... and the rest of the audit path is the path of the parent, node `p` of the next level. */
  ghost predicate ShortensPath(H: Hash, level: seq<Digest>, m: nat, p: nat)
    requires m < |level| && 2 * p <= m <= 2 * p + 1
  {
    AuditPath(H, level, m) == Sibling(level, m, p) + AuditPath(H, Pairs(H, level), p)
  }

  lemma {:induction false} PairsShortenPath(H: Hash, level: seq<Digest>, m: nat, p: nat)
    requires m < |level| && 2 * p <= m <= 2 * p + 1
    ensures ShortensPath(H, level, m, p)
    decreases |level|
  {
    hide ShortensPath;
    if |level| <= 2 {
      ShortenAtMostTwo(H, level, m, p);
    } else {
      var k, h := SplitPoint(|level|), SplitPoint(|Pairs(H, level)|);
      SplitHalves(|level|, |Pairs(H, level)|);
      if m < k {
        PairsShortenPath(H, level[..k], m, p);
        ShortenOnTheLeft(H, level, m, p, k, h);
      } else {
        var i, q := m - k, p - h;
        PairsShortenPath(H, level[k..], i, q);
        ShortenOnTheRight(H, level, i, q, k, h);
      }
    }
  }

  lemma ShortenAtMostTwo(H: Hash, level: seq<Digest>, m: nat, p: nat)
    requires m < |level| <= 2 && 2 * p <= m <= 2 * p + 1
    ensures ShortensPath(H, level, m, p)
  {
    assert |Pairs(H, level)| == 1 && AuditPath(H, Pairs(H, level), p) == [];
    if |level| == 2 {
      assert level[..1] == [level[0]] && level[1..] == [level[1]];
      assert SplitPoint(2) == 1;
    }
  }

  lemma ShortenOnTheLeft(H: Hash, level: seq<Digest>, m: nat, p: nat, k: nat, h: nat)
    requires |level| > 2 && k == SplitPoint(|level|) && k == 2 * h && m < k
    requires 2 * p <= m <= 2 * p + 1 && ShortensPath(H, level[..k], m, p)
    ensures ShortensPath(H, level, m, p)
  {
    hide TreeHash, AuditPath, Pairs, Sibling, DoubleBelow;
    var next := Pairs(H, level);
    SplitOfPairs(H, level, k, h);
    PairsCount(H, level);
    SiblingOnTheLeft(level, m, p, k, h);
    PathOnTheLeft(H, level, m, k);
    PathOnTheLeft(H, next, p, h);
    PairsKeepTreeHash(H, level[k..]);
    assert TreeHash(H, next[h..]) == TreeHash(H, level[k..]);
    assert AuditPath(H, level[..k], m) == Sibling(level[..k], m, p) + AuditPath(H, next[..h], p);
    Glue(AuditPath(H, level, m), Sibling(level[..k], m, p), AuditPath(H, next[..h], p),
         [Step(R, TreeHash(H, level[k..]))], AuditPath(H, next, p));
  }

  lemma ShortenOnTheRight(H: Hash, level: seq<Digest>, i: nat, q: nat, k: nat, h: nat)
    requires |level| > 2 && k == SplitPoint(|level|) && k == 2 * h && k + i < |level|
    requires 2 * q <= i <= 2 * q + 1 && ShortensPath(H, level[k..], i, q)
    ensures ShortensPath(H, level, k + i, h + q)
  {
    hide TreeHash, AuditPath, Pairs, Sibling, DoubleBelow;
    var next := Pairs(H, level);
    SplitOfPairs(H, level, k, h);
    PairsCount(H, level);
    SiblingOnTheRight(level, i, q, k, h);
    PathOnTheRight(H, level, i, k);
    PathOnTheRight(H, next, q, h);
    PairsKeepTreeHash(H, level[..k]);
    assert TreeHash(H, next[..h]) == TreeHash(H, level[..k]);
    assert AuditPath(H, level[k..], i) == Sibling(level[k..], i, q) + AuditPath(H, next[h..], q);
    Glue(AuditPath(H, level, k + i), Sibling(level[k..], i, q), AuditPath(H, next[h..], q),
         [Step(L, TreeHash(H, level[..k]))], AuditPath(H, next, h + q));
  }

  /** One iteration of a pass: hash two neighbours together, or promote an odd tail unchanged. */
  method Pass(H: Hash, level: seq<Digest>, next: seq<Digest>, i: nat) returns (next': seq<Digest>, i': nat)
    requires i == 2 * |next| && i < |level|
    ensures next' == next + [Parent(H, level, |next|)]
    ensures i' == if i + 1 < |level| then i + 2 else i + 1
  {
    hide NodeHash;
    if i + 1 < |level| {
      return next + [NodeHash(H, level[i], level[i + 1])], i + 2;
    } else {
      return next + [level[i]], i + 1;
    }
  }

  lemma PassAdds(H: Hash, level: seq<Digest>, next: seq<Digest>)
    requires 2 * |next| < |level| && next == Pairs(H, level)[..|next|]
    ensures next + [Parent(H, level, |next|)] == Pairs(H, level)[..|next| + 1]
  {
    hide Parent;
    var all, n := Pairs(H, level), |next|;
    assert all[n] == Parent(H, level, n);
    assert all[..n + 1] == all[..n] + [all[n]];
  }

  method NextLevel(H: Hash, level: seq<Digest>) returns (next: seq<Digest>)
    ensures next == Pairs(H, level)
  {
    hide Parent, Pairs;
    next := [];
    var i := 0;
    PairsCount(H, level);
    while i < |level|
      invariant i <= 2 * |next| <= i + 1 && i <= |level| && (i < |level| ==> i == 2 * |next|)
      invariant |next| <= |Pairs(H, level)| && next == Pairs(H, level)[..|next|]
      decreases |level| - i
    {
      PassAdds(H, level, next);
      next, i := Pass(H, level, next, i);
    }
  }

  lemma PairsCount(H: Hash, level: seq<Digest>)
    ensures |level| <= 2 * |Pairs(H, level)| <= |level| + 1
  {}

  method MerkleRoot(H: Hash, leaves: seq<Digest>) returns (root: Digest)
    ensures root == TreeHash(H, leaves)
  {
    if leaves == [] {
      return EmptyRoot(H);
    }
    var level := leaves;
    while |level| > 1
      invariant |level| > 0
      invariant TreeHash(H, level) == TreeHash(H, leaves)
    {
      PairsKeepTreeHash(H, level);
      level := NextLevel(H, level);
    }
    root := level[0];
  }

  /** The same pass, following the node at `idx`: its sibling is a step, its parent the next index. */
  method ClimbLevel(H: Hash, level: seq<Digest>, idx: nat)
    returns (next: seq<Digest>, step: seq<Step>, newIdx: nat)
    requires idx < |level|
    ensures next == Pairs(H, level)
    ensures 2 * newIdx <= idx <= 2 * newIdx + 1 && step == Sibling(level, idx, newIdx)
  {
    hide Parent, Pairs, Sibling;
    next, step, newIdx := [], [], 0;
    var i := 0;
    PairsCount(H, level);
    while i < |level|
      invariant i <= 2 * |next| <= i + 1 && i <= |level| && (i < |level| ==> i == 2 * |next|)
      invariant |next| <= |Pairs(H, level)| && next == Pairs(H, level)[..|next|]
      invariant idx < i ==> 2 * newIdx <= idx <= 2 * newIdx + 1 && step == Sibling(level, idx, newIdx)
      invariant idx >= i ==> step == []
      decreases |level| - i
    {
      step, newIdx := Follow(level, i, |next|, idx, step, newIdx);
      PassAdds(H, level, next);
      next, i := Pass(H, level, next, i);
    }
  }

  /** One iteration's effect on the path: node `idx` is the left or right of the pair at `i`, or not in it. */
  method Follow(level: seq<Digest>, i: nat, pos: nat, idx: nat, step: seq<Step>, newIdx: nat)
    returns (step': seq<Step>, newIdx': nat)
    requires i == 2 * pos && i < |level| && idx < |level|
    requires idx >= i ==> step == []
    ensures if i <= idx <= i + 1 then newIdx' == pos && step' == Sibling(level, idx, pos)
            else step' == step && newIdx' == newIdx
  {
    step', newIdx' := step, newIdx;
    if i + 1 < |level| {
      if idx == i {
        step', newIdx' := step + [Step(R, level[i + 1])], pos;
      } else if idx == i + 1 {
        step', newIdx' := step + [Step(L, level[i])], pos;
      }
    } else if idx == i {
      newIdx' := pos;
    }
  }

  /** None is the program's IndexError. */
  method MerkleProof(H: Hash, leaves: seq<Digest>, index: int) returns (proof: Option<seq<Step>>)
    ensures proof.Some? <==> 0 <= index < |leaves|
    ensures proof.Some? ==> proof.value == AuditPath(H, leaves, index)
  {
    if !(0 <= index < |leaves|) {
      return None;
    }
    var path: seq<Step> := [];
    var level := leaves;
    var idx: nat := index;
    while |level| > 1
      invariant idx < |level|
      invariant path + AuditPath(H, level, idx) == AuditPath(H, leaves, index)
      decreases |level|
    {
      var next, step, newIdx := ClimbLevel(H, level, idx);
      PairsShortenPath(H, level, idx, newIdx);
      Regroup(path, step, AuditPath(H, next, newIdx));
      path, level, idx := path + step, next, newIdx;
    }
    proof := Some(path);
  }

  /** The digest a path leads to from `h`. */
  function Fold(H: Hash, h: Digest, proof: seq<Step>): Digest {
    if proof == [] then h
    else Up(H, Fold(H, h, proof[..|proof| - 1]), proof[|proof| - 1])
  }

  function Up(H: Hash, h: Digest, s: Step): Digest {
    if s.side.R? then NodeHash(H, h, s.sibling) else NodeHash(H, s.sibling, h)
  }

  method VerifyProof(H: Hash, leaf: Digest, proof: seq<Step>, root: Digest) returns (ok: bool)
    ensures ok <==> Fold(H, leaf, proof) == root
  {
    var h := leaf;
    for i := 0 to |proof|
      invariant h == Fold(H, leaf, proof[..i])
    {
      h := Up(H, h, proof[i]);
      assert proof[..i + 1][..i] == proof[..i];
    }
    assert proof[..|proof|] == proof;
    ok := h == root;
  }

  /** Completeness: every in-range audit path leads from its leaf to the root. */
  lemma {:induction false} PathReachesRoot(H: Hash, leaves: seq<Digest>, m: nat)
    requires m < |leaves|
    ensures Fold(H, leaves[m], AuditPath(H, leaves, m)) == TreeHash(H, leaves)
    decreases |leaves|
  {
    if |leaves| > 1 {
      var k := SplitPoint(|leaves|);
      var p := AuditPath(H, leaves, m);
      if m < k {
        PathReachesRoot(H, leaves[..k], m);
        assert p[..|p| - 1] == AuditPath(H, leaves[..k], m);
      } else {
        PathReachesRoot(H, leaves[k..], m - k);
        assert p[..|p| - 1] == AuditPath(H, leaves[k..], m - k);
      }
    }
  }

  lemma PathOfOne(H: Hash, leaves: seq<Digest>)
    requires |leaves| == 1
    ensures AuditPath(H, leaves, 0) == []
  {}

  /** A path is no longer than the base-two logarithm of the number of leaves, rounded up. */
  lemma {:induction false} PathIsShort(H: Hash, leaves: seq<Digest>, m: nat, d: nat)
    requires m < |leaves| <= Pow2(d)
    ensures |AuditPath(H, leaves, m)| <= d
    decreases |leaves|
  {
    hide TreeHash, DoubleBelow, AuditPath, Pow2;
    if |leaves| == 1 {
      PathOfOne(H, leaves);
    } else {
      var k := SplitPoint(|leaves|);
      SplitBelow(|leaves|, d);
      if m < k {
        PathOnTheLeft(H, leaves, m, k);
        PathIsShort(H, leaves[..k], m, d - 1);
      } else {
        PathOnTheRight(H, leaves, m - k, k);
        PathIsShort(H, leaves[k..], m - k, d - 1);
      }
    }
  }

  lemma SplitBelow(n: nat, d: nat)
    requires 2 <= n <= Pow2(d)
    ensures d > 0 && SplitPoint(n) <= Pow2(d - 1) && n - SplitPoint(n) <= Pow2(d - 1)
  {
    SplitPointIsPowerOfTwo(n);
    var e: nat :| SplitPoint(n) == Pow2(e);
    if e >= d {
      PowersGrow(d, e);
    } else {
      PowersGrow(e, d - 1);
    }
  }

  lemma {:induction false} PowersGrow(a: nat, b: nat)
    requires a <= b
    ensures Pow2(a) <= Pow2(b)
  {
    if a < b { PowersGrow(a, b - 1); }
  }

  /** Paths compose: this is how an hour path is continued by a season path. */
  lemma {:induction false} FoldAppend(H: Hash, h: Digest, p: seq<Step>, q: seq<Step>)
    ensures Fold(H, h, p + q) == Fold(H, Fold(H, h, p), q)
  {
    if q == [] {
      assert p + q == p;
    } else {
      var last, rest := q[|q| - 1], q[..|q| - 1];
      assert (p + q)[..|p + q| - 1] == p + rest;
      calc {
        Fold(H, h, p + q);
        Up(H, Fold(H, h, p + rest), last);
        { FoldAppend(H, h, p, rest); }
        Up(H, Fold(H, Fold(H, h, p), rest), last);
      }
    }
  }

  // Soundness, by extraction.

  predicate IsCollision(H: Hash, x: Bytes, y: Bytes) {
    x != y && H(x) == H(y)
  }

  function LeafHashes(H: Hash, items: seq<Bytes>): seq<Digest> {
    seq(|items|, i requires 0 <= i < |items| => LeafHash(H, items[i]))
  }

  datatype Finding = Member(index: nat) | Collision(x: Bytes, y: Bytes)

  /** Walks an accepted path down the tree and stops at the item it proves, or at the first place
      where the path and the tree feed different bytes to the hash. */
  function Locate(H: Hash, data: Bytes, proof: seq<Step>, items: seq<Bytes>): Finding
    requires items != []
    decreases |items|
  {
    if |items| == 1 then
      if proof == [] then
        if data == items[0] then Member(0) else Collision([0] + data, [0] + items[0])
      else
        var s := proof[|proof| - 1];
        Collision(NodeBytes(Fold(H, LeafHash(H, data), proof[..|proof| - 1]), s), [0] + items[0])
    else
      var k := SplitPoint(|items|);
      var l, r := TreeHash(H, LeafHashes(H, items[..k])), TreeHash(H, LeafHashes(H, items[k..]));
      if proof == [] then Collision([0] + data, [1] + l + r)
      else
        var s, rest := proof[|proof| - 1], proof[..|proof| - 1];
        var below := Fold(H, LeafHash(H, data), rest);
        if NodeBytes(below, s) != [1] + l + r then Collision(NodeBytes(below, s), [1] + l + r)
        else if s.side.R? then Locate(H, data, rest, items[..k])
        else
          match Locate(H, data, rest, items[k..])
          case Member(i) => Member(i + k)
          case c => c
  }

  function NodeBytes(h: Digest, s: Step): Bytes {
    if s.side.R? then [1] + h + s.sibling else [1] + s.sibling + h
  }

  lemma LeafHashesSplit(H: Hash, items: seq<Bytes>, k: nat)
    requires k <= |items|
    ensures LeafHashes(H, items)[..k] == LeafHashes(H, items[..k])
    ensures LeafHashes(H, items)[k..] == LeafHashes(H, items[k..])
  {}

  lemma NodeBytesInjective(a: Bytes, b: Bytes, c: Bytes, d: Bytes)
    requires [1] + a + b == [1] + c + d
    requires |a| == |c| || |b| == |d|
    ensures a == c && b == d
  {
    var n := |[1] + a + b|;
    assert n == |[1] + c + d|;
    assert a == ([1] + a + b)[1..1 + |a|] && c == ([1] + c + d)[1..1 + |c|];
    assert b == ([1] + a + b)[n - |b|..] && d == ([1] + c + d)[n - |d|..];
  }

  lemma {:induction false} RootLength(H: Hash, items: seq<Bytes>)
    ensures |TreeHash(H, LeafHashes(H, items))| == 32
  {
    if |items| == 0 {
    } else if |items| == 1 {
      assert LeafHashes(H, items)[0] == LeafHash(H, items[0]);
    }
  }

  lemma FoldLength(H: Hash, h: Digest, proof: seq<Step>)
    requires |h| == 32
    ensures |Fold(H, h, proof)| == 32
  {
    if proof != [] { assert Fold(H, h, proof) == Up(H, Fold(H, h, proof[..|proof| - 1]), proof[|proof| - 1]); }
  }

  /** An accepted proof names an item of the list, or yields two byte strings with one hash. */
  lemma {:induction false} AcceptedProofIsSound(H: Hash, data: Bytes, proof: seq<Step>, items: seq<Bytes>)
    requires items != []
    ensures Fold(H, LeafHash(H, data), proof) == TreeHash(H, LeafHashes(H, items)) ==>
              match Locate(H, data, proof, items)
              case Member(i) => i < |items| && items[i] == data
              case Collision(x, y) => IsCollision(H, x, y)
    decreases |items|
  {
    hide DoubleBelow;
    if Fold(H, LeafHash(H, data), proof) != TreeHash(H, LeafHashes(H, items)) {
    } else if |items| == 1 {
      if proof != [] {
        var s := proof[|proof| - 1];
        assert NodeBytes(Fold(H, LeafHash(H, data), proof[..|proof| - 1]), s)[0] == 1;
      } else if data != items[0] {
        assert ([0] + data)[1..] == data && ([0] + items[0])[1..] == items[0];
      }
    } else {
      var k := SplitPoint(|items|);
      LeafHashesSplit(H, items, k);
      var l, r := TreeHash(H, LeafHashes(H, items[..k])), TreeHash(H, LeafHashes(H, items[k..]));
      if proof == [] {
        assert ([0] + data)[0] == 0 && ([1] + l + r)[0] == 1;
      } else {
        var s, rest := proof[|proof| - 1], proof[..|proof| - 1];
        var below := Fold(H, LeafHash(H, data), rest);
        FoldLength(H, LeafHash(H, data), rest);
        RootLength(H, items[..k]);
        RootLength(H, items[k..]);
        if NodeBytes(below, s) == [1] + l + r {
          if s.side.R? {
            NodeBytesInjective(below, s.sibling, l, r);
            AcceptedProofIsSound(H, data, rest, items[..k]);
          } else {
            NodeBytesInjective(s.sibling, below, l, r);
            AcceptedProofIsSound(H, data, rest, items[k..]);
          }
        }
      }
    }
  }

  // Two trees with one root. A tree here is the term a root was computed from.

  datatype Tree = Leaf(data: Bytes) | Node(left: Tree, right: Tree)

  function RootOf(H: Hash, t: Tree): Digest {
    match t
    case Leaf(data) => LeafHash(H, data)
    case Node(l, r) => NodeHash(H, RootOf(H, l), RootOf(H, r))
  }

  function Leaves(t: Tree): seq<Bytes> {
    match t
    case Leaf(data) => [data]
    case Node(l, r) => Leaves(l) + Leaves(r)
  }

  /** The balanced tree over a list of trees, by the same split as `TreeHash`. */
  function Join(ts: seq<Tree>): Tree
    requires ts != []
    decreases |ts|
  {
    if |ts| == 1 then ts[0]
    else
      var k := SplitPoint(|ts|);
      Node(Join(ts[..k]), Join(ts[k..]))
  }

  function Roots(H: Hash, ts: seq<Tree>): seq<Digest> {
    seq(|ts|, i requires 0 <= i < |ts| => RootOf(H, ts[i]))
  }

  lemma {:induction false} JoinRoot(H: Hash, ts: seq<Tree>)
    requires ts != []
    ensures RootOf(H, Join(ts)) == TreeHash(H, Roots(H, ts))
    decreases |ts|
  {
    if |ts| > 1 {
      var k := SplitPoint(|ts|);
      JoinRoot(H, ts[..k]);
      JoinRoot(H, ts[k..]);
      assert Roots(H, ts)[..k] == Roots(H, ts[..k]);
      assert Roots(H, ts)[k..] == Roots(H, ts[k..]);
    }
  }

  function LeafLists(ts: seq<Tree>): seq<seq<Bytes>> {
    seq(|ts|, i requires 0 <= i < |ts| => Leaves(ts[i]))
  }

  function Concat<T>(parts: seq<seq<T>>): seq<T> {
    if parts == [] then [] else parts[0] + Concat(parts[1..])
  }

  lemma {:induction false} ConcatAppend<T>(a: seq<seq<T>>, b: seq<seq<T>>)
    ensures Concat(a + b) == Concat(a) + Concat(b)
  {
    if a == [] {
      assert a + b == b;
    } else {
      assert (a + b)[1..] == a[1..] + b;
      calc {
        Concat(a + b);
        a[0] + Concat(a[1..] + b);
        { ConcatAppend(a[1..], b); }
        a[0] + (Concat(a[1..]) + Concat(b));
        Concat(a) + Concat(b);
      }
    }
  }

  lemma {:induction false} JoinLeaves(ts: seq<Tree>)
    requires ts != []
    ensures Leaves(Join(ts)) == Concat(LeafLists(ts))
    decreases |ts|
  {
    if |ts| == 1 {
      assert LeafLists(ts) == [Leaves(ts[0])];
      assert Concat(LeafLists(ts)) == Leaves(ts[0]) + Concat([]);
    } else {
      var k := SplitPoint(|ts|);
      JoinLeaves(ts[..k]);
      JoinLeaves(ts[k..]);
      assert LeafLists(ts) == LeafLists(ts[..k]) + LeafLists(ts[k..]);
      ConcatAppend(LeafLists(ts[..k]), LeafLists(ts[k..]));
    }
  }

  /** Compares two trees with one root and returns the first inputs that collide, if the trees differ. */
  function Clash(H: Hash, a: Tree, b: Tree): Option<(Bytes, Bytes)> {
    match (a, b)
    case (Leaf(x), Leaf(y)) => if x == y then None else Some(([0] + x, [0] + y))
    case (Leaf(x), Node(l, r)) => Some(([0] + x, [1] + RootOf(H, l) + RootOf(H, r)))
    case (Node(l, r), Leaf(y)) => Some(([1] + RootOf(H, l) + RootOf(H, r), [0] + y))
    case (Node(l, r), Node(l', r')) =>
      if RootOf(H, l) != RootOf(H, l') || RootOf(H, r) != RootOf(H, r') then
        Some(([1] + RootOf(H, l) + RootOf(H, r), [1] + RootOf(H, l') + RootOf(H, r')))
      else
        match Clash(H, l, l')
        case Some(c) => Some(c)
        case None => Clash(H, r, r')
  }

  /** Equal roots come from equal trees, or a collision is in hand. */
  lemma {:induction false} EqualRootsBind(H: Hash, a: Tree, b: Tree)
    ensures RootOf(H, a) == RootOf(H, b) ==>
              match Clash(H, a, b)
              case None => a == b
              case Some(c) => IsCollision(H, c.0, c.1)
  {
    if RootOf(H, a) != RootOf(H, b) { return; }
    match (a, b)
    case (Leaf(x), Leaf(y)) =>
      if x != y { assert ([0] + x)[1..] == x && ([0] + y)[1..] == y; }
    case (Leaf(x), Node(l, r)) =>
      assert ([0] + x)[0] == 0 && ([1] + RootOf(H, l) + RootOf(H, r))[0] == 1;
    case (Node(l, r), Leaf(y)) =>
      assert ([0] + y)[0] == 0 && ([1] + RootOf(H, l) + RootOf(H, r))[0] == 1;
    case (Node(l, r), Node(l', r')) =>
      if RootOf(H, l) != RootOf(H, l') || RootOf(H, r) != RootOf(H, r') {
        if [1] + RootOf(H, l) + RootOf(H, r) == [1] + RootOf(H, l') + RootOf(H, r') {
          NodeBytesInjective(RootOf(H, l), RootOf(H, r), RootOf(H, l'), RootOf(H, r'));
          assert false;
        }
      } else {
        EqualRootsBind(H, l, l');
        EqualRootsBind(H, r, r');
      }
  }

}
