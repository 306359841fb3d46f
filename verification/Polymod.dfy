/** The bech32m checksum (oracle/app/wallet_auth.py, BIP-350).

    It is a linear code over GF(2). The 30-bit state of `_bech32_polymod` is a `bv30` and a 5-bit
    group a `bv5`. */
module Polymod {

  const BECH32M_CONST: bv30 := 0x2bc830a3

  // One step of the checksum, and why it loses nothing.

  /** The top five bits of the state, shifted out by a step. */
  function Top(chk: bv30): bv5 { (chk >> 25) as bv5 }

  function Rest(chk: bv30): bv30 { (chk & 0x1ffffff) << 5 }

  predicate Bit(b: bv5, mask: bv5) { b & mask != 0 }

  function Xor(a: bv30, b: bv30): bv30 { a ^ b }

  function Pick(on: bool, g: bv30): bv30 { if on then g else 0 }

  /** GEN[i] for every bit i of the shifted-out value, combined from the last to the first. */
  function Gen(b: bv5): bv30 { Xor(Pick(Bit(b, 1), 0x3b6a57b2), Gen1(b)) }
  function Gen1(b: bv5): bv30 { Xor(Pick(Bit(b, 2), 0x26508e6d), Gen2(b)) }
  function Gen2(b: bv5): bv30 { Xor(Pick(Bit(b, 4), 0x1ea119fa), Gen3(b)) }
  function Gen3(b: bv5): bv30 { Xor(Pick(Bit(b, 8), 0x3d4233dd), Gen4(b)) }
  function Gen4(b: bv5): bv30 { Pick(Bit(b, 16), 0x2a1462b3) }

  function Step(chk: bv30, v: bv5): bv30 {
    Xor(Xor(Rest(chk), Wide(v)), Gen(Top(chk)))
  }

  /** A value as a state. */
  function Wide(v: bv5): bv30 { v as bv30 }

  function Poly(chk: bv30, values: seq<bv5>): bv30
    decreases |values|
  {
    if values == [] then chk else Poly(Step(chk, values[0]), values[1..])
  }

  lemma BitsXor(a: bv5, b: bv5)
    ensures Bit(a ^ b, 1) == (Bit(a, 1) != Bit(b, 1)) && Bit(a ^ b, 2) == (Bit(a, 2) != Bit(b, 2))
    ensures Bit(a ^ b, 4) == (Bit(a, 4) != Bit(b, 4)) && Bit(a ^ b, 8) == (Bit(a, 8) != Bit(b, 8))
    ensures Bit(a ^ b, 16) == (Bit(a, 16) != Bit(b, 16))
  {}

  lemma XorUnit(g: bv30)
    ensures Xor(g, g) == 0 && Xor(g, 0) == g && Xor(0, g) == g && Xor(0, 0) == 0
  {}

  lemma PickXor(x: bool, y: bool, g: bv30)
    ensures Pick(x != y, g) == Xor(Pick(x, g), Pick(y, g))
  {
    XorUnit(g);
    hide Xor;
  }

  lemma XorCommutes(a: bv30, b: bv30)
    ensures Xor(a, b) == Xor(b, a)
  {}

  lemma XorAssociates(a: bv30, b: bv30, c: bv30)
    ensures Xor(a, Xor(b, c)) == Xor(Xor(a, b), c)
  {}

  lemma PairXor(p: bv30, p': bv30, q: bv30, q': bv30)
    ensures Xor(Xor(p, p'), Xor(q, q')) == Xor(Xor(p, q), Xor(p', q'))
  {
    hide Xor;
    XorAssociates(Xor(p, p'), q, q');
    XorAssociates(p, p', q);
    XorCommutes(p', q);
    XorAssociates(p, q, p');
    XorAssociates(Xor(p, q), p', q');
  }

  lemma GenXor(a: bv5, b: bv5)
    ensures Gen(a ^ b) == Xor(Gen(a), Gen(b))
  {
    Gen1Xor(a, b);
    BitsXor(a, b);
    hide Pick, Bit, Xor, Gen1;
    PickXor(Bit(a, 1), Bit(b, 1), 0x3b6a57b2);
    PairXor(Pick(Bit(a, 1), 0x3b6a57b2), Pick(Bit(b, 1), 0x3b6a57b2), Gen1(a), Gen1(b));
  }

  lemma Gen1Xor(a: bv5, b: bv5)
    ensures Gen1(a ^ b) == Xor(Gen1(a), Gen1(b))
  {
    Gen2Xor(a, b);
    BitsXor(a, b);
    hide Pick, Bit, Xor, Gen2;
    PickXor(Bit(a, 2), Bit(b, 2), 0x26508e6d);
    PairXor(Pick(Bit(a, 2), 0x26508e6d), Pick(Bit(b, 2), 0x26508e6d), Gen2(a), Gen2(b));
  }

  lemma Gen2Xor(a: bv5, b: bv5)
    ensures Gen2(a ^ b) == Xor(Gen2(a), Gen2(b))
  {
    Gen3Xor(a, b);
    BitsXor(a, b);
    hide Pick, Bit, Xor, Gen3;
    PickXor(Bit(a, 4), Bit(b, 4), 0x1ea119fa);
    PairXor(Pick(Bit(a, 4), 0x1ea119fa), Pick(Bit(b, 4), 0x1ea119fa), Gen3(a), Gen3(b));
  }

  lemma Gen3Xor(a: bv5, b: bv5)
    ensures Gen3(a ^ b) == Xor(Gen3(a), Gen3(b))
  {
    Gen4Xor(a, b);
    BitsXor(a, b);
    hide Pick, Bit, Xor, Gen4;
    PickXor(Bit(a, 8), Bit(b, 8), 0x3d4233dd);
    PairXor(Pick(Bit(a, 8), 0x3d4233dd), Pick(Bit(b, 8), 0x3d4233dd), Gen4(a), Gen4(b));
  }

  lemma Gen4Xor(a: bv5, b: bv5)
    ensures Gen4(a ^ b) == Xor(Gen4(a), Gen4(b))
  {
    BitsXor(a, b);
    hide Pick, Bit, Xor;
    PickXor(Bit(a, 16), Bit(b, 16), 0x2a1462b3);
  }

  lemma TopXor(a: bv30, b: bv30)
    ensures Top(Xor(a, b)) == Top(a) ^ Top(b)
  {}

  lemma RestXor(a: bv30, b: bv30)
    ensures Rest(Xor(a, b)) == Xor(Rest(a), Rest(b))
  {}

  lemma WidenXor(u: bv5, v: bv5)
    ensures Wide(u ^ v) == Xor(Wide(u), Wide(v))
  {}

  /** A step is linear over GF(2). */
  lemma StepXor(a: bv30, b: bv30, u: bv5, v: bv5)
    ensures Step(Xor(a, b), u ^ v) == Xor(Step(a, u), Step(b, v))
  {
    hide Gen, Top, Rest, Wide, Xor;
    GenXor(Top(a), Top(b));
    TopXor(a, b);
    RestXor(a, b);
    WidenXor(u, v);
    PairXor(Rest(a), Rest(b), Wide(u), Wide(v));
    PairXor(Xor(Rest(a), Wide(u)), Xor(Rest(b), Wide(v)), Gen(Top(a)), Gen(Top(b)));
  }

  lemma GenLowBits(t: bv5)
    ensures Gen(t) & 31 == 0 ==> t == 0
  {
  }

  lemma RestLowBits(d: bv30, g: bv30)
    ensures Xor(Rest(d), g) == 0 ==> g & 31 == 0
  {}

  lemma NothingLeft(d: bv30)
    ensures Rest(d) == 0 && Top(d) == 0 ==> d == 0
  {}

  lemma NoValue(a: bv30)
    ensures Xor(a, Wide(0)) == a && Xor(a, 0) == a
  {}

  lemma GenOfNothing()
    ensures Gen(0) == 0
  {}

  /** ... with nothing but zero in its kernel: the low five bits of GEN tell the shifted-out bits apart. */
  lemma StepKernel(d: bv30)
    ensures Step(d, 0) == 0 ==> d == 0
  {
    hide Rest, Gen, Top, Xor, Wide;
    NoValue(Rest(d));
    RestLowBits(d, Gen(Top(d)));
    GenLowBits(Top(d));
    GenOfNothing();
    NothingLeft(d);
  }

  lemma XorZero(a: bv30, b: bv30)
    ensures Xor(a, b) == 0 <==> a == b
  {}

  lemma StepInjective(a: bv30, b: bv30, v: bv5)
    ensures Step(a, v) == Step(b, v) ==> a == b
  {
    hide Step, Xor;
    StepXor(a, b, v, v);
    assert v ^ v == 0;
    XorZero(Step(a, v), Step(b, v));
    StepKernel(Xor(a, b));
    XorZero(a, b);
  }

  lemma StepSeesValue(a: bv30, u: bv5, v: bv5)
    ensures Step(a, u) == Step(a, v) ==> u == v
  {
    hide Gen, Rest, Top, Xor, Wide;
    CancelValue(Rest(a), Gen(Top(a)), u, v);
  }

  lemma CancelRight(x: bv30, y: bv30, g: bv30)
    ensures Xor(x, g) == Xor(y, g) ==> x == y
  {}

  lemma WideTellsApart(u: bv5, v: bv5)
    ensures Wide(u) == Wide(v) ==> u == v
  {}

  lemma CancelValue(p: bv30, g: bv30, u: bv5, v: bv5)
    ensures Xor(Xor(p, Wide(u)), g) == Xor(Xor(p, Wide(v)), g) ==> u == v
  {
    hide Xor, Wide;
    CancelRight(Xor(p, Wide(u)), Xor(p, Wide(v)), g);
    XorCommutes(p, Wide(u));
    XorCommutes(p, Wide(v));
    CancelRight(Wide(u), Wide(v), p);
    WideTellsApart(u, v);
  }

  lemma {:induction false} PolyInjective(a: bv30, b: bv30, values: seq<bv5>)
    ensures Poly(a, values) == Poly(b, values) ==> a == b
    decreases |values|
  {
    hide Step;
    if values != [] {
      PolyInjective(Step(a, values[0]), Step(b, values[0]), values[1..]);
      StepInjective(a, b, values[0]);
    }
  }

  lemma {:induction false} PolyAppend(chk: bv30, x: seq<bv5>, y: seq<bv5>)
    ensures Poly(chk, x + y) == Poly(Poly(chk, x), y)
    decreases |x|
  {
    hide Step;
    if x == [] {
      assert x + y == y;
    } else {
      assert (x + y)[0] == x[0] && (x + y)[1..] == x[1..] + y;
      PolyAppend(Step(chk, x[0]), x[1..], y);
    }
  }

  /** Changing exactly one value changes the checksum, at any length. */
  lemma OneValueMatters(chk: bv30, values: seq<bv5>, i: nat, v: bv5)
    requires i < |values| && values[i] != v
    ensures Poly(chk, values[i := v]) != Poly(chk, values)
  {
    hide Step;
    var before, after := values[..i], values[i + 1..];
    assert values == before + ([values[i]] + after);
    assert values[i := v] == before + ([v] + after);
    var mid := Poly(chk, before);
    PolyAppend(chk, before, [values[i]] + after);
    PolyAppend(chk, before, [v] + after);
    assert ([values[i]] + after)[1..] == after && ([v] + after)[1..] == after;
    StepSeesValue(mid, values[i], v);
    PolyInjective(Step(mid, values[i]), Step(mid, v), after);
  }

  // The checksum closes.

  function Zeros(n: nat): seq<bv5> { seq(n, _ => 0) }

  /** A checksum of shifted inputs is the shifted checksum: the values' own contribution splits off. */
  lemma {:induction false} PolySplits(a: bv30, d: bv30, values: seq<bv5>)
    ensures Poly(Xor(a, d), values) == Xor(Poly(a, Zeros(|values|)), Poly(d, values))
    decreases |values|
  {
    hide Step;
    if values != [] {
      StepXor(a, d, 0, values[0]);
      assert 0 ^ values[0] == values[0];
      PolySplits(Step(a, 0), Step(d, values[0]), values[1..]);
      assert Zeros(|values|)[1..] == Zeros(|values| - 1);
    }
  }

  /** The state while nothing has been shifted out yet: a plain shift register. */
  function Push(a: bv30, v: bv5): bv30 { (a << 5) ^ (v as bv30) }

  predicate Small(a: bv30) { a & 0x3e000000 == 0 }

  lemma StepSmall(a: bv30, v: bv5)
    ensures Small(a) ==> Step(a, v) == Push(a, v)
  {}

  /** The six 5-bit groups of a 30-bit value, most significant first. */
  function Digit0(p: bv30): bv5 { (p >> 25) as bv5 }
  function Digit1(p: bv30): bv5 { ((p >> 20) & 31) as bv5 }
  function Digit2(p: bv30): bv5 { ((p >> 15) & 31) as bv5 }
  function Digit3(p: bv30): bv5 { ((p >> 10) & 31) as bv5 }
  function Digit4(p: bv30): bv5 { ((p >> 5) & 31) as bv5 }
  function Digit5(p: bv30): bv5 { (p & 31) as bv5 }

  function Checksum(p: bv30): seq<bv5> {
    [Digit0(p), Digit1(p), Digit2(p), Digit3(p), Digit4(p), Digit5(p)]
  }

  lemma TopDigits(p: bv30)
    ensures Small(0) && Push(0, Digit0(p)) == p >> 25 && Small(p >> 25)
    ensures Push(p >> 25, Digit1(p)) == p >> 20
  {}

  lemma MiddleDigits(p: bv30)
    ensures Small(p >> 20) && Push(p >> 20, Digit2(p)) == p >> 15
    ensures Small(p >> 15) && Push(p >> 15, Digit3(p)) == p >> 10
  {}

  lemma LowDigits(p: bv30)
    ensures Small(p >> 10) && Push(p >> 10, Digit4(p)) == p >> 5
    ensures Small(p >> 5) && Push(p >> 5, Digit5(p)) == p
  {}

  lemma PolyStep(c: bv30, x: seq<bv5>, i: nat)
    requires i < |x|
    ensures Poly(c, x[i..]) == Poly(Step(c, x[i]), x[i + 1..])
  {
    hide Step;
    assert x[i..][1..] == x[i + 1..];
  }

  /** Feeding the six groups of p into an empty checksum gives p back. */
  lemma ChecksumOfDigits(p: bv30)
    ensures Poly(0, Checksum(p)) == p
  {
    var x := Checksum(p);
    hide Step, Push, Small, Digit0, Digit1, Digit2, Digit3, Digit4, Digit5;
    var p25, p20, p15, p10, p5 := p >> 25, p >> 20, p >> 15, p >> 10, p >> 5;
    TopDigits(p);
    MiddleDigits(p);
    LowDigits(p);
    StepSmall(0, Digit0(p));
    StepSmall(p25, Digit1(p));
    StepSmall(p20, Digit2(p));
    StepSmall(p15, Digit3(p));
    StepSmall(p10, Digit4(p));
    StepSmall(p5, Digit5(p));
    PolyStep(0, x, 0);
    PolyStep(p25, x, 1);
    PolyStep(p20, x, 2);
    PolyStep(p15, x, 3);
    PolyStep(p10, x, 4);
    PolyStep(p5, x, 5);
    assert x[0..] == x && x[6..] == [];
  }

  // BIP-350's shortest example, "a1lqfn3a": no data under "a".

  lemma ExampleSteps()
    ensures Step(1, 3) == 0x23 && Step(0x23, 0) == 0x460 && Step(0x460, 1) == 0x8c01
    ensures Step(0x8c01, 0) == 0x118020 && Step(0x118020, 0) == 0x2300400 && Step(0x2300400, 0) == 0x3d6ad7b2
    ensures Step(0x3d6ad7b2, 0) == 0x2fd30b9 && Step(0x2fd30b9, 0) == 0x24cc4092 && Step(0x24cc4092, 0) == 0x15ccfe9e
  {}

  lemma PolyNext(chk: bv30, v: bv5, rest: seq<bv5>)
    ensures Poly(chk, [v] + rest) == Poly(Step(chk, v), rest)
  {
    assert ([v] + rest)[1..] == rest;
  }

  lemma ExampleDigits()
    ensures Checksum(Xor(0x15ccfe9e, BECH32M_CONST)) == [31, 0, 9, 19, 17, 29]
  {}

  lemma ExampleLastSteps()
    ensures Poly(0x118020, [0] + ([0] + ([0] + ([0] + [0])))) == 0x15ccfe9e
  {
    ExampleSteps();
    hide *;
    PolyNext(0x118020, 0, [0] + ([0] + ([0] + [0])));
    PolyNext(0x2300400, 0, [0] + ([0] + [0]));
    PolyNext(0x3d6ad7b2, 0, [0] + [0]);
    PolyNext(0x2fd30b9, 0, [0]);
    NoMore(0x24cc4092, 0);
  }

  lemma ExampleFirstSteps(rest: seq<bv5>)
    ensures Poly(1, [3] + ([0] + ([1] + ([0] + rest)))) == Poly(0x118020, rest)
  {
    ExampleSteps();
    hide *;
    PolyNext(1, 3, [0] + ([1] + ([0] + rest)));
    PolyNext(0x23, 0, [1] + ([0] + rest));
    PolyNext(0x460, 1, [0] + rest);
    PolyNext(0x8c01, 0, rest);
  }

  lemma ExampleChecksum()
    ensures Poly(1, [3, 0, 1, 0, 0, 0, 0, 0, 0]) == 0x15ccfe9e
    ensures Checksum(Xor(0x15ccfe9e, BECH32M_CONST)) == [31, 0, 9, 19, 17, 29]
  {
    hide *;
    ExampleDigits();
    ExampleLastSteps();
    var rest := [0] + ([0] + ([0] + ([0] + [0])));
    ExampleFirstSteps(rest);
    assert [3] + ([0] + ([1] + ([0] + rest))) == [3, 0, 1, 0, 0, 0, 0, 0, 0];
  }

  lemma NoMore(chk: bv30, v: bv5)
    ensures Poly(chk, [v]) == Step(chk, v)
  {
    assert [v][1..] == [];
  }

  lemma XorCancel(a: bv30, k: bv30)
    ensures Xor(a, Xor(a, k)) == k && Xor(a, 0) == a
  {}

  /** The checksum appended by the encoder makes the decoder's polymod equal the bech32m constant. */
  lemma ChecksumCloses(values: seq<bv5>)
    ensures Poly(1, values + Checksum(Xor(Poly(1, values + Zeros(6)), BECH32M_CONST))) == BECH32M_CONST
  {
    hide Step, Checksum, Xor;
    var c, z := Poly(1, values), Poly(1, values + Zeros(6));
    var x := Checksum(Xor(z, BECH32M_CONST));
    assert |x| == 6 by { ChecksumLength(Xor(z, BECH32M_CONST)); }
    PolyAppend(1, values, x);
    PolyAppend(1, values, Zeros(6));
    XorCancel(c, 0);
    PolySplits(c, 0, x);
    ChecksumOfDigits(Xor(z, BECH32M_CONST));
    XorCancel(z, BECH32M_CONST);
  }

  lemma ChecksumLength(p: bv30)
    ensures |Checksum(p)| == 6
  {}

  // Six values in a row.

  /** The state six values leave in an empty checksum. */
  function Pack(a: bv5, b: bv5, c: bv5, d: bv5, e: bv5, f: bv5): bv30 {
    Push(Push(Push(Push(Push(Push(0, a), b), c), d), e), f)
  }

  lemma PackIsSmall(a: bv5, b: bv5, c: bv5, d: bv5, e: bv5)
    ensures Small(0) && Small(Push(0, a)) && Small(Push(Push(0, a), b)) && Small(Push(Push(Push(0, a), b), c))
    ensures Small(Push(Push(Push(Push(0, a), b), c), d)) && Small(Push(Push(Push(Push(Push(0, a), b), c), d), e))
  {}

  lemma DigitsOfPack(a: bv5, b: bv5, c: bv5, d: bv5, e: bv5, f: bv5)
    ensures Checksum(Pack(a, b, c, d, e, f)) == [a, b, c, d, e, f]
  {}

  /** The state after the first n values, while nothing is shifted out. */
  function Feed(x: seq<bv5>, n: nat): bv30
    requires n <= |x|
  {
    if n == 0 then 0 else Push(Feed(x, n - 1), x[n - 1])
  }

  lemma FeedStep(x: seq<bv5>, n: nat)
    requires n < |x|
    ensures Feed(x, 0) == 0 && Feed(x, n + 1) == Push(Feed(x, n), x[n])
  {}

  lemma FeedIsPack(x: seq<bv5>)
    requires |x| == 6
    ensures Feed(x, 6) == Pack(x[0], x[1], x[2], x[3], x[4], x[5])
    ensures forall n: nat :: n < 6 ==> Small(Feed(x, n))
  {
    PackIsSmall(x[0], x[1], x[2], x[3], x[4]);
    hide Push, Small, Feed;
    FeedStep(x, 0);
    FeedStep(x, 1);
    FeedStep(x, 2);
    FeedStep(x, 3);
    FeedStep(x, 4);
    FeedStep(x, 5);
  }

  lemma {:induction false} PolyFeeds(x: seq<bv5>, n: nat)
    requires n <= |x| && forall k: nat :: k < n ==> Small(Feed(x, k))
    ensures Poly(0, x) == Poly(Feed(x, n), x[n..])
  {
    hide Step, Push, Small;
    if n == 0 {
      assert x[0..] == x;
    } else {
      PolyFeeds(x, n - 1);
      StepSmall(Feed(x, n - 1), x[n - 1]);
      PolyStep(Feed(x, n - 1), x, n - 1);
    }
  }

  /** Six values are read back from the checksum of nothing else. */
  lemma SixValuesComeBack(x: seq<bv5>)
    requires |x| == 6
    ensures Checksum(Poly(0, x)) == x
  {
    hide Step, Push, Small, Checksum, Pack, Feed;
    FeedIsPack(x);
    PolyFeeds(x, 6);
    assert x[6..] == [];
    DigitsOfPack(x[0], x[1], x[2], x[3], x[4], x[5]);
    assert x == [x[0], x[1], x[2], x[3], x[4], x[5]];
  }

  /** Any change to six values in a row changes the checksum, at any length. */
  lemma SixValuesMatter(chk: bv30, before: seq<bv5>, x: seq<bv5>, y: seq<bv5>, after: seq<bv5>)
    requires |x| == |y| == 6 && x != y
    ensures Poly(chk, before + x + after) != Poly(chk, before + y + after)
  {
    hide Step, Checksum, Xor;
    var mid := Poly(chk, before);
    SixValuesComeBack(x);
    SixValuesComeBack(y);
    XorCancel(mid, 0);
    PolySplits(mid, 0, x);
    PolySplits(mid, 0, y);
    XorCommutes(Poly(mid, Zeros(6)), Poly(0, x));
    XorCommutes(Poly(mid, Zeros(6)), Poly(0, y));
    CancelRight(Poly(0, x), Poly(0, y), Poly(mid, Zeros(6)));
    PolyInjective(Poly(mid, x), Poly(mid, y), after);
    PolyAppend(chk, before, x);
    PolyAppend(chk, before, y);
    PolyAppend(chk, before + x, after);
    PolyAppend(chk, before + y, after);
  }

  // The loop of `_bech32_polymod`.

  const GEN: seq<bv30> := [0x3b6a57b2, 0x26508e6d, 0x1ea119fa, 0x3d4233dd, 0x2a1462b3]

  /** What is still to be combined when the inner loop has done i of its five turns. */
  function GenFrom(b: bv5, i: nat): bv30
    requires i <= 5
  {
    if i == 0 then Gen(b) else if i == 1 then Gen1(b) else if i == 2 then Gen2(b)
    else if i == 3 then Gen3(b) else if i == 4 then Gen4(b) else 0
  }

  predicate Shifted(b: bv5, i: nat)
    requires i < 5
  {
    (b >> i) & 1 == 1
  }

  lemma ShiftedIsBit(b: bv5)
    ensures Shifted(b, 0) == Bit(b, 1) && Shifted(b, 1) == Bit(b, 2) && Shifted(b, 2) == Bit(b, 4)
    ensures Shifted(b, 3) == Bit(b, 8) && Shifted(b, 4) == Bit(b, 16)
  {}

  lemma GenTurn(b: bv5, i: nat)
    requires i < 5
    ensures GenFrom(b, i) == Xor(Pick(Shifted(b, i), GEN[i]), GenFrom(b, i + 1))
  {
    hide Shifted, Bit, Pick, Xor;
    ShiftedIsBit(b);
    XorCancel(Gen4(b), 0);
  }

  // Values wider than a group, as the expansion of a character outside ASCII gives them.

  function WideStep(chk: bv30, v: bv30): bv30 {
    Xor(Xor(Rest(chk), v), Gen(Top(chk)))
  }

  function WidePoly(chk: bv30, values: seq<bv30>): bv30
    decreases |values|
  {
    if values == [] then chk else WidePoly(WideStep(chk, values[0]), values[1..])
  }

  function Widen(values: seq<bv5>): seq<bv30> {
    seq(|values|, i requires 0 <= i < |values| => Wide(values[i]))
  }

  /** On groups the two checksums agree. */
  lemma {:induction false} PolyIsWide(chk: bv30, values: seq<bv5>)
    ensures WidePoly(chk, Widen(values)) == Poly(chk, values)
    decreases |values|
  {
    hide Xor, Rest, Gen, Top, Wide;
    if values != [] {
      assert Widen(values)[0] == Wide(values[0]) && Widen(values)[1..] == Widen(values[1..]);
      PolyIsWide(Step(chk, values[0]), values[1..]);
    }
  }

  method Polymod(values: seq<bv30>) returns (chk: bv30)
    ensures chk == WidePoly(1, values)
  {
    hide Rest, Top, Gen, Pick, Xor, Wide, Shifted, GenFrom;
    chk := 1;
    for k := 0 to |values|
      invariant WidePoly(chk, values[k..]) == WidePoly(1, values)
    {
      WidePolyStep(chk, values, k);
      ghost var next := WideStep(chk, values[k]);
      var b := Top(chk);
      chk := Xor(Rest(chk), values[k]);
      GenEnds(b);
      for i := 0 to 5
        invariant Xor(chk, GenFrom(b, i)) == next
      {
        GenTurn(b, i);
        XorAssociates(chk, Pick(Shifted(b, i), GEN[i]), GenFrom(b, i + 1));
        chk := Xor(chk, Pick(Shifted(b, i), GEN[i]));
      }
      XorCancel(chk, 0);
    }
    assert values[|values|..] == [];
  }

  lemma WidePolyStep(chk: bv30, values: seq<bv30>, k: nat)
    requires k < |values|
    ensures WidePoly(chk, values[k..]) == WidePoly(WideStep(chk, values[k]), values[k + 1..])
  {
    hide WideStep;
    assert values[k..][1..] == values[k + 1..];
  }

  lemma GenEnds(b: bv5)
    ensures GenFrom(b, 0) == Gen(b) && GenFrom(b, 5) == 0
  {}
}
