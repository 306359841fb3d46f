/** Regrouping bytes into 5-bit groups and back (oracle/app/wallet_auth.py).

    The accumulators of the two loops are Python's unbounded integers; the specification is on bit
    strings. */
module Regrouping {
  import opened Merkle
  import opened Ordering

  // Regrouping bits. `Bits(x, n)` are the n low bits of x, most significant first.

  function Bits(x: nat, n: nat): (b: seq<bool>)
    ensures |b| == n
  {
    if n == 0 then [] else Bits(x / 2, n - 1) + [x % 2 == 1]
  }

  function Value(b: seq<bool>): nat {
    if b == [] then 0 else 2 * Value(b[..|b| - 1]) + if b[|b| - 1] then 1 else 0
  }

  lemma {:induction false} ValueOfBits(b: seq<bool>)
    ensures Bits(Value(b), |b|) == b && Value(b) < Pow2(|b|)
  {
    if b != [] {
      ValueOfBits(b[..|b| - 1]);
    }
  }

  /** Python's `x >> n`. */
  function Shr(x: nat, n: nat): nat {
    if n == 0 then x else Shr(x / 2, n - 1)
  }

  /** Bits split where the number does: those above the n low bits, then the n low bits. */
  lemma {:induction false} BitsSplit(x: nat, m: nat, n: nat)
    ensures Bits(x, m + n) == Bits(Shr(x, n), m) + Bits(x, n)
    decreases n
  {
    if n == 0 {
      assert Bits(x, m) + [] == Bits(x, m);
    } else {
      BitsSplit(x / 2, m, n - 1);
      Regroup(Bits(Shr(x, n), m), Bits(x / 2, n - 1), [x % 2 == 1]);
    }
  }

  /** Only the low bits matter. */
  lemma {:induction false} BitsModulo(x: nat, k: nat, n: nat)
    ensures Bits(x + k * Pow2(n), n) == Bits(x, n)
    decreases n
  {
    if n > 0 {
      var t := k * Pow2(n - 1);
      DoubleProduct(k, Pow2(n - 1));
      assert (x + 2 * t) / 2 == x / 2 + t && (x + 2 * t) % 2 == x % 2;
      BitsModulo(x / 2, k, n - 1);
    }
  }

  lemma DoubleProduct(q: nat, p: nat)
    ensures q * (2 * p) == 2 * (q * p)
  {}

  lemma {:induction false} ShrShl(x: nat, b: nat, n: nat)
    requires b < Pow2(n)
    ensures Shr(x * Pow2(n) + b, n) == x
    decreases n
  {
    if n > 0 {
      var t := x * Pow2(n - 1);
      DoubleProduct(x, Pow2(n - 1));
      assert (2 * t + b) / 2 == t + b / 2;
      ShrShl(x, b / 2, n - 1);
    }
  }

  // The two regrouping loops.

  function DataBits(data: seq<Byte>): seq<bool> {
    if data == [] then [] else DataBits(data[..|data| - 1]) + Bits(data[|data| - 1] as nat, 8)
  }

  function GroupBits(groups: seq<bv5>): seq<bool> {
    if groups == [] then [] else GroupBits(groups[..|groups| - 1]) + Bits(groups[|groups| - 1] as nat, 5)
  }

  function NoBits(n: nat): seq<bool> { seq(n, _ => false) }

  lemma {:induction false} DataBitsLength(data: seq<Byte>)
    ensures |DataBits(data)| == 8 * |data|
  {
    if data != [] { DataBitsLength(data[..|data| - 1]); }
  }

  lemma {:induction false} GroupBitsLength(groups: seq<bv5>)
    ensures |GroupBits(groups)| == 5 * |groups|
  {
    if groups != [] { GroupBitsLength(groups[..|groups| - 1]); }
  }

  /** The bytes of the complete octets of a bit string. */
  function Octets(b: seq<bool>): seq<Byte> {
    if |b| < 8 then [] else [OctetValue(b[..8])] + Octets(b[8..])
  }

  function OctetValue(b: seq<bool>): Byte
    requires |b| == 8
  {
    ValueOfBits(b);
    assert Pow2(8) == 256;
    Value(b) as Byte
  }

  /** The 5-bit groups of a bit string, the last one padded with zero bits. */
  function Quintets(b: seq<bool>): seq<bv5> {
    if b == [] then []
    else if |b| < 5 then [QuintetValue(b + NoBits(5 - |b|))]
    else [QuintetValue(b[..5])] + Quintets(b[5..])
  }

  function QuintetValue(b: seq<bool>): bv5
    requires |b| == 5
  {
    ValueOfBits(b);
    assert Pow2(5) == 32;
    Value(b) as bv5
  }

  lemma {:induction false} GroupBitsFront(g: bv5, groups: seq<bv5>)
    ensures GroupBits([g] + groups) == Bits(g as nat, 5) + GroupBits(groups)
  {
    var all := [g] + groups;
    if groups == [] {
      assert all[..0] == [];
      assert GroupBits(all) == GroupBits([]) + Bits(g as nat, 5);
    } else {
      assert all[..|all| - 1] == [g] + groups[..|groups| - 1];
      GroupBitsFront(g, groups[..|groups| - 1]);
      Regroup(Bits(g as nat, 5), GroupBits(groups[..|groups| - 1]), Bits(groups[|groups| - 1] as nat, 5));
    }
  }

  lemma {:induction false} DataBitsFront(b: Byte, data: seq<Byte>)
    ensures DataBits([b] + data) == Bits(b as nat, 8) + DataBits(data)
  {
    var all := [b] + data;
    if data == [] {
      assert all[..0] == [];
      assert DataBits(all) == DataBits([]) + Bits(b as nat, 8);
    } else {
      assert all[..|all| - 1] == [b] + data[..|data| - 1];
      DataBitsFront(b, data[..|data| - 1]);
      Regroup(Bits(b as nat, 8), DataBits(data[..|data| - 1]), Bits(data[|data| - 1] as nat, 8));
    }
  }

  lemma {:induction false} BitsBelow(x: nat, n: nat)
    requires x < Pow2(n)
    ensures Value(Bits(x, n)) == x
  {
    if n > 0 {
      BitsBelow(x / 2, n - 1);
      assert Bits(x, n)[..n - 1] == Bits(x / 2, n - 1);
    }
  }

  lemma QuintetOfBits(g: bv5)
    ensures QuintetValue(Bits(g as nat, 5)) == g
  {
    assert Pow2(5) == 32;
    BitsBelow(g as nat, 5);
    hide Bits, Value;
  }

  /** Complete groups come back out of their bits; fewer than five further bits give one padded group. */
  lemma {:induction false} QuintetsOfGroups(groups: seq<bv5>, rest: seq<bool>)
    requires |rest| < 5
    ensures Quintets(GroupBits(groups) + rest) ==
            groups + if rest == [] then [] else [QuintetValue(rest + NoBits(5 - |rest|))]
    decreases |groups|
  {
    hide Bits, QuintetValue;
    if groups == [] {
      assert GroupBits(groups) + rest == rest;
    } else {
      var g, more := groups[0], groups[1..];
      var head, tail := Bits(g as nat, 5), GroupBits(more) + rest;
      assert groups == [g] + more;
      GroupBitsFront(g, more);
      Regroup(head, GroupBits(more), rest);
      QuintetsOfGroups(more, rest);
      QuintetOfBits(g);
      QuintetsStep(head, tail);
    }
  }

  lemma QuintetsStep(head: seq<bool>, tail: seq<bool>)
    requires |head| == 5
    ensures Quintets(head + tail) == [QuintetValue(head)] + Quintets(tail)
  {
    assert (head + tail)[..5] == head && (head + tail)[5..] == tail;
  }

  lemma OctetsStep(head: seq<bool>, tail: seq<bool>)
    requires |head| == 8
    ensures Octets(head + tail) == [OctetValue(head)] + Octets(tail)
  {
    assert (head + tail)[..8] == head && (head + tail)[8..] == tail;
  }

  /** Complete bytes come back out of their bits; fewer than eight further bits are dropped. */
  lemma {:induction false} OctetsOfData(data: seq<Byte>, rest: seq<bool>)
    requires |rest| < 8
    ensures Octets(DataBits(data) + rest) == data
    decreases |data|
  {
    if data == [] {
      assert DataBits(data) + rest == rest;
    } else {
      var b, more := data[0], data[1..];
      var head, tail := Bits(b as nat, 8), DataBits(more) + rest;
      assert data == [b] + more;
      DataBitsFront(b, more);
      Regroup(head, DataBits(more), rest);
      OctetsOfData(more, rest);
      assert Pow2(8) == 256;
      BitsBelow(b as nat, 8);
      OctetsStep(head, tail);
    }
  }

  lemma BitsOfQuintet(five: seq<bool>)
    requires |five| == 5
    ensures Bits(QuintetValue(five) as nat, 5) == five
  {
    hide Bits, Value;
    ValueOfBits(five);
    assert Pow2(5) == 32;
    NatOfBv5(Value(five));
  }

  /** The groups of a bit string hold its bits, padded with fewer than five zeros. */
  lemma {:induction false} BitsOfQuintets(b: seq<bool>) returns (pad: nat)
    ensures pad < 5 && GroupBits(Quintets(b)) == b + NoBits(pad)
    decreases |b|
  {
    hide Bits, QuintetValue;
    if b == [] {
      pad := 0;
      assert b + NoBits(0) == b;
    } else if |b| < 5 {
      pad := 5 - |b|;
      LastQuintet(b);
    } else {
      pad := BitsOfQuintets(b[5..]);
      FullQuintet(b);
      assert b == b[..5] + b[5..];
      hide *;
      Regroup(b[..5], b[5..], NoBits(pad));
    }
  }

  lemma LastQuintet(b: seq<bool>)
    requires 0 < |b| < 5
    ensures GroupBits(Quintets(b)) == b + NoBits(5 - |b|)
  {
    hide Bits, QuintetValue;
    var five := b + NoBits(5 - |b|);
    BitsOfQuintet(five);
    GroupBitsFront(QuintetValue(five), []);
    assert [QuintetValue(five)] + [] == [QuintetValue(five)];
    assert GroupBits([]) == [] && five + [] == five;
  }

  lemma FullQuintet(b: seq<bool>)
    requires |b| >= 5
    ensures GroupBits(Quintets(b)) == b[..5] + GroupBits(Quintets(b[5..]))
  {
    hide Bits, QuintetValue, GroupBits;
    BitsOfQuintet(b[..5]);
    GroupBitsFront(QuintetValue(b[..5]), Quintets(b[5..]));
  }

  lemma RegroupingRoundTrip(data: seq<Byte>)
    ensures Octets(GroupBits(Quintets(DataBits(data)))) == data
  {
    var pad := BitsOfQuintets(DataBits(data));
    OctetsOfData(data, NoBits(pad));
  }

  /** Shifting in n bits. */
  lemma ShiftIn(acc: nat, bits: nat, b: nat, n: nat)
    requires b < Pow2(n)
    ensures Bits(acc * Pow2(n) + b, bits + n) == Bits(acc, bits) + Bits(b, n)
  {
    BitsSplit(acc * Pow2(n) + b, bits, n);
    ShrShl(acc, b, n);
    BitsModulo(b, acc, n);
  }

  /** Taking the top n of the pending bits. */
  lemma ShiftOut(acc: nat, bits: nat, n: nat)
    ensures Bits(acc, n + bits) == Bits(Shr(acc, bits), n) + Bits(acc, bits)
  {
    BitsSplit(acc, n, bits);
  }

  lemma MaskFive(y: nat)
    ensures Bits(y % 32, 5) == Bits(y, 5)
  {
    assert Pow2(5) == 32;
    BitsModulo(y % 32, y / 32, 5);
  }

  lemma MaskEight(y: nat)
    ensures Bits(y % 256, 8) == Bits(y, 8)
  {
    assert Pow2(8) == 256;
    BitsModulo(y % 256, y / 256, 8);
  }

  lemma {:induction false} BitsOfZero(n: nat)
    ensures Bits(0, n) == NoBits(n)
  {
    if n > 0 { BitsOfZero(n - 1); }
  }

  lemma PadGroup(acc: nat, bits: nat)
    requires 0 < bits < 5
    ensures Bits(acc * Pow2(5 - bits) % 32, 5) == Bits(acc, bits) + NoBits(5 - bits)
  {
    var k := 5 - bits;
    MaskFive(acc * Pow2(k));
    ShiftIn(acc, bits, 0, k);
    BitsOfZero(k);
  }

  /** One byte shifted into the pending bits. */
  lemma TakeByte(all: seq<bool>, out: seq<bv5>, acc: nat, bits: nat, b: Byte)
    requires all == GroupBits(out) + Bits(acc, bits)
    ensures all + Bits(b as nat, 8) == GroupBits(out) + Bits(acc * 256 + b as nat, bits + 8)
  {
    hide Bits, GroupBits;
    assert Pow2(8) == 256;
    ShiftIn(acc, bits, b as nat, 8);
    Regroup(GroupBits(out), Bits(acc, bits), Bits(b as nat, 8));
  }

  function Group(y: nat): bv5 { (y % 32) as bv5 }

  lemma GroupBitsSnoc(out: seq<bv5>, g: bv5)
    ensures GroupBits(out + [g]) == GroupBits(out) + Bits(g as nat, 5)
  {
    hide Bits;
    assert (out + [g])[..|out|] == out;
  }

  lemma GroupOf(y: nat)
    ensures Bits(Group(y) as nat, 5) == Bits(y, 5)
  {
    MaskFive(y);
    hide Bits;
    NatOfBv5(y % 32);
  }

  lemma NatOfBv5(n: nat)
    requires n < 32
    ensures (n as bv5) as nat == n
  {}

  /** One group taken off the front of the pending bits. */
  lemma EmitGroup(all: seq<bool>, out: seq<bv5>, acc: nat, bits: nat)
    requires all == GroupBits(out) + Bits(acc, 5 + bits)
    ensures all == GroupBits(out + [Group(Shr(acc, bits))]) + Bits(acc, bits)
  {
    hide Bits, GroupBits, Shr, Group;
    var g := Group(Shr(acc, bits));
    ShiftOut(acc, bits, 5);
    GroupOf(Shr(acc, bits));
    GroupBitsSnoc(out, g);
    Regroup(GroupBits(out), Bits(g as nat, 5), Bits(acc, bits));
  }

  method ToQuintets(data: seq<Byte>) returns (out: seq<bv5>)
    ensures out == Quintets(DataBits(data))
  {
    hide Bits, Shr, Quintets, GroupBits, QuintetValue, Group;
    var acc: nat, bits: nat := 0, 0;
    out := [];
    NothingPending();
    for i := 0 to |data|
      invariant bits < 5
      invariant DataBits(data[..i]) == GroupBits(out) + Bits(acc, bits)
    {
      assert data[..i + 1][..i] == data[..i];
      TakeByte(DataBits(data[..i]), out, acc, bits, data[i]);
      acc, bits := acc * 256 + data[i] as nat, bits + 8;
      while bits >= 5
        invariant DataBits(data[..i + 1]) == GroupBits(out) + Bits(acc, bits)
      {
        bits := bits - 5;
        EmitGroup(DataBits(data[..i + 1]), out, acc, bits);
        out := out + [Group(Shr(acc, bits))];
      }
    }
    assert data[..|data|] == data;
    QuintetsOfGroups(out, Bits(acc, bits));
    if bits > 0 {
      PaddedValue(acc, bits);
      out := out + [Group(acc * Pow2(5 - bits))];
    } else {
      ZeroBits(acc);
    }
  }

  lemma NothingPending()
    ensures DataBits([]) == GroupBits([]) + Bits(0, 0) && GroupBits([]) == DataBits([]) + Bits(0, 0)
  {}

  lemma ZeroBits(acc: nat)
    ensures Bits(acc, 0) == []
  {}

  lemma PaddedValue(acc: nat, bits: nat)
    requires 0 < bits < 5
    ensures QuintetValue(Bits(acc, bits) + NoBits(5 - bits)) == Group(acc * Pow2(5 - bits))
  {
    PadGroup(acc, bits);
    assert Pow2(5) == 32;
    BitsBelow(acc * Pow2(5 - bits) % 32, 5);
  }

  method ToOctets(groups: seq<bv5>) returns (out: seq<Byte>)
    ensures out == Octets(GroupBits(groups))
  {
    hide Bits, Shr, Octets;
    var acc: nat, bits: nat := 0, 0;
    out := [];
    ZeroBits(0);
    for i := 0 to |groups|
      invariant bits < 8
      invariant GroupBits(groups[..i]) == DataBits(out) + Bits(acc, bits)
    {
      assert groups[..i + 1][..i] == groups[..i] && Pow2(5) == 32;
      ShiftIn(acc, bits, groups[i] as nat, 5);
      Regroup(DataBits(out), Bits(acc, bits), Bits(groups[i] as nat, 5));
      acc, bits := acc * 32 + groups[i] as nat, bits + 5;
      while bits >= 8
        invariant GroupBits(groups[..i + 1]) == DataBits(out) + Bits(acc, bits)
      {
        bits := bits - 8;
        var b := (Shr(acc, bits) % 256) as Byte;
        ShiftOut(acc, bits, 8);
        MaskEight(Shr(acc, bits));
        Regroup(DataBits(out), Bits(b as nat, 8), Bits(acc, bits));
        assert (out + [b])[..|out|] == out;
        out := out + [b];
      }
    }
    assert groups[..|groups|] == groups;
    OctetsOfData(out, Bits(acc, bits));
  }
}
