/** Which texts the decoder takes for one address (oracle/app/wallet_auth.py, BIP-350).

    The checksum notices every change within six characters in a row. The bits that are left over when the
    groups are put back into bytes are dropped without a look, so an address has other spellings as well. */
module Spelling {
  import opened Ordering
  import opened Merkle
  import opened Polymod
  import opened Regrouping
  import opened Bech32m

  // Changes close together.

  lemma LookupTellsApart(a: char, b: char)
    requires Lookup(a).Some? && Lookup(a) == Lookup(b)
    ensures a == b
  {
    hide Lookup, CharAt;
    LookupFound(a);
    LookupFound(b);
  }

  /** The core, in lower case: the two texts agree but for the window, and the second has no separator in it. */
  lemma BurstRejectedLower(s: string, t: string, p: nat)
    requires Ascii(s) && Ascii(t) && ParseLower(s).Some? && |t| == |s| && t != s
    requires LastIndex(s, '1') < p && p + 6 <= |s|
    requires forall i :: 0 <= i < |s| && !(p <= i < p + 6) ==> t[i] == s[i]
    requires forall i :: p <= i < p + 6 ==> t[i] != '1'
    ensures ParseLower(t) == None
  {
    hide Expand, Poly, Lookup, Octets, GroupBits, LastIndex, Values;
    var pos := LastIndex(s, '1');
    LastIndexIs(s, '1');
    LastIndexUnique(t, '1', pos);
    assert t[..pos] == s[..pos];
    var text, other := s[pos + 1..], t[pos + 1..];
    if Values(other).Some? {
      var data, read, head := Values(text).value, Values(other).value, Expand(s[..pos]);
      ValuesLength(text);
      ValuesLength(other);
      BurstInValues(text, other, p - pos - 1);
      BurstInChecksum(head, data, read, p - pos - 1);
    }
  }

  lemma BurstInValues(text: string, other: string, j: nat)
    requires Values(text).Some? && Values(other).Some? && |other| == |text| && j + 6 <= |text| && other != text
    requires forall i :: 0 <= i < |text| && !(j <= i < j + 6) ==> other[i] == text[i]
    ensures var data, read := Values(text).value, Values(other).value;
            && |data| == |read| == |text| && data[..j] == read[..j] && data[j + 6..] == read[j + 6..] && data != read
  {
    hide Lookup, Values;
    ValuesLength(text);
    ValuesLength(other);
    var data, read := Values(text).value, Values(other).value;
    forall i | 0 <= i < |text| ensures data[i] == read[i] <==> text[i] == other[i] {
      ValuesAt(text, i);
      ValuesAt(other, i);
      if data[i] == read[i] { LookupTellsApart(text[i], other[i]); }
    }
    var k :| 0 <= k < |text| && text[k] != other[k];
    assert data[k] != read[k];
  }

  lemma BurstInChecksum(head: seq<bv5>, data: seq<bv5>, read: seq<bv5>, j: nat)
    requires |data| == |read| && j + 6 <= |data| && data != read
    requires data[..j] == read[..j] && data[j + 6..] == read[j + 6..]
    ensures Poly(1, head + data) != Poly(1, head + read)
  {
    hide Poly;
    SixInTheMiddle(head, data, j);
    SixInTheMiddle(head, read, j);
    hide *;
    SixValuesMatter(1, head + data[..j], data[j..j + 6], read[j..j + 6], data[j + 6..]);
  }

  lemma SixInTheMiddle(head: seq<bv5>, data: seq<bv5>, j: nat)
    requires j + 6 <= |data|
    ensures head + data == (head + data[..j]) + data[j..j + 6] + data[j + 6..]
  {}

  /** Whatever is changed within six characters in a row after the separator, in either case and at any length, the
      text is rejected, unless the change only swaps case or puts a separator there. */
  lemma SixInARowAreRejected(s: string, t: string, p: nat)
    requires Parse(s).Some? && |t| == |s| && LastIndex(Lower(s), '1') < p && p + 6 <= |s|
    requires forall i :: 0 <= i < |s| && !(p <= i < p + 6) ==> t[i] == s[i]
    requires forall i :: p <= i < p + 6 ==> t[i] != '1'
    requires Lower(t) != Lower(s)
    ensures Parse(t) == None
  {
    hide ParseLower, LastIndex;
    if AllPrintable(t) {
      assert forall i :: 0 <= i < |s| ==> (Lower(t)[i] == '1' <==> t[i] == '1');
      BurstRejectedLower(Lower(s), Lower(t), p);
    }
  }

  // Other spellings.

  /** The groups before the checksum. */
  function Payload(s: string): seq<bv5>
    requires Parse(s).Some?
  {
    var data := Values(Lower(s)[LastIndex(Lower(s), '1') + 1..]).value;
    ValuesLength(Lower(s)[LastIndex(Lower(s), '1') + 1..]);
    data[..|data| - 6]
  }

  lemma {:induction false} CharsOfValues(s: string)
    ensures Values(s).Some? ==> Chars(Values(s).value) == s
  {
    hide Lookup, CharAt;
    if s != "" && Values(s).Some? {
      var front := s[..|s| - 1];
      CharsOfValues(front);
      LookupFound(s[|s| - 1]);
      assert Chars(Values(s).value) == Chars(Values(front).value) + [CharAt(Lookup(s[|s| - 1]).value)];
    }
  }

  /** Six groups that close the checksum are the ones the encoder appends. */
  lemma ChecksumIsForced(values: seq<bv5>, check: seq<bv5>)
    requires |check| == 6 && Poly(1, values + check) == BECH32M_CONST
    ensures check == Checksum(Xor(Poly(1, values + Zeros(6)), BECH32M_CONST))
  {
    hide Poly, Checksum, Xor, Zeros;
    var own := Checksum(Xor(Poly(1, values + Zeros(6)), BECH32M_CONST));
    ChecksumCloses(values);
    ChecksumLength(Xor(Poly(1, values + Zeros(6)), BECH32M_CONST));
    assert values + check + [] == values + check && values + own + [] == values + own;
    if check != own { SixValuesMatter(1, values, check, own, []); }
  }

  /** Everything the decoder takes is, in lower case, what its own groups spell. */
  lemma OnlySpellingsParse(s: string)
    requires Parse(s).Some?
    ensures var (h, d) := Parse(s).value;
            GoodHrp(h) && Lower(s) == Spell(h, Payload(s)) && d == Octets(GroupBits(Payload(s)))
  {
    hide Expand, Poly, Lookup, Octets, GroupBits, LastIndex, Values, Chars, Checksum, Xor, Zeros;
    ParsedHrpIsGood(s);
    var l := Lower(s);
    var pos := LastIndex(l, '1');
    var text := l[pos + 1..];
    var data := Values(text).value;
    LastIndexIs(l, '1');
    ValuesLength(text);
    CharsOfValues(text);
    var groups, check := data[..|data| - 6], data[|data| - 6..];
    assert data == groups + check;
    Regroup(Expand(l[..pos]), groups, check);
    ChecksumIsForced(Expand(l[..pos]) + groups, check);
    assert l == l[..pos] + "1" + text;
  }

  lemma SpellTellsApart(hrp: string, a: seq<bv5>, b: seq<bv5>)
    requires GoodHrp(hrp) && Spell(hrp, a) == Spell(hrp, b)
    ensures a == b
  {
    hide Chars, Expand, Checksum, Xor, Poly, Zeros;
    var x := a + Checksum(Xor(Poly(1, Expand(hrp) + a + Zeros(6)), BECH32M_CONST));
    var y := b + Checksum(Xor(Poly(1, Expand(hrp) + b + Zeros(6)), BECH32M_CONST));
    ChecksumLength(Xor(Poly(1, Expand(hrp) + a + Zeros(6)), BECH32M_CONST));
    ChecksumLength(Xor(Poly(1, Expand(hrp) + b + Zeros(6)), BECH32M_CONST));
    assert Spell(hrp, a)[|hrp| + 1..] == Chars(x) && Spell(hrp, b)[|hrp| + 1..] == Chars(y);
    ValuesOfChars(x);
    ValuesOfChars(y);
    assert x[..|x| - 6] == a && y[..|y| - 6] == b;
  }

  /** Bits are their complete bytes, and fewer than eight more. */
  lemma {:induction false} CompleteBytes(b: seq<bool>)
    ensures 8 * |Octets(b)| <= |b| < 8 * |Octets(b)| + 8
    ensures b == DataBits(Octets(b)) + b[8 * |Octets(b)|..]
    decreases |b|
  {
    hide OctetValue, Bits;
    if |b| >= 8 {
      var rest := Octets(b[8..]);
      CompleteBytes(b[8..]);
      DataBitsFront(OctetValue(b[..8]), rest);
      BitsOfOctet(b[..8]);
      assert b == b[..8] + b[8..];
      assert b[8..][8 * |rest|..] == b[8 * |Octets(b)|..];
      Regroup(b[..8], DataBits(rest), b[8 * |Octets(b)|..]);
    } else {
      assert DataBits([]) + b == b;
    }
  }

  lemma BitsOfOctet(eight: seq<bool>)
    requires |eight| == 8
    ensures Bits(OctetValue(eight) as nat, 8) == eight
  {
    hide Bits, Value;
    ValueOfBits(eight);
  }

  /** What the decoder drops: the bits after the last complete byte. */
  function LeftOver(groups: seq<bv5>): seq<bool> {
    CompleteBytes(GroupBits(groups));
    GroupBits(groups)[8 * |Octets(GroupBits(groups))|..]
  }

  predicate Padding(bits: seq<bool>) { |bits| < 5 && bits == NoBits(|bits|) }

  /** Groups are the ones the encoder makes of their bytes exactly when the bits left over are padding. */
  lemma GroupsAreOwnIff(groups: seq<bv5>)
    ensures groups == Quintets(DataBits(Octets(GroupBits(groups)))) <==> Padding(LeftOver(groups))
  {
    hide GroupBits, Quintets, Octets, DataBits, NoBits;
    var b := GroupBits(groups);
    var d := Octets(b);
    var own := Quintets(DataBits(d));
    CompleteBytes(b);
    var pad := BitsOfQuintets(DataBits(d));
    assert |NoBits(pad)| == pad by { NoBitsLength(pad); }
    DataBitsLength(d);
    GroupBitsLength(groups);
    GroupBitsLength(own);
    if groups == own {
      assert LeftOver(groups) == NoBits(pad);
    }
    if Padding(LeftOver(groups)) {
      assert |LeftOver(groups)| == pad;
      SameGroups(groups, own);
    }
  }

  lemma NoBitsLength(n: nat)
    ensures |NoBits(n)| == n
  {}

  lemma SameGroups(a: seq<bv5>, b: seq<bv5>)
    requires GroupBits(a) == GroupBits(b)
    ensures a == b
  {
    hide GroupBits, Quintets;
    QuintetsOfGroups(a, []);
    QuintetsOfGroups(b, []);
    assert GroupBits(a) + [] == GroupBits(a) && GroupBits(b) + [] == GroupBits(b) && a + [] == a && b + [] == b;
  }

  /** An accepted text is, in lower case, the encoder's own exactly when the bits it leaves over are fewer than five
      zeros. The decoder does not ask. */
  lemma OwnSpellingIff(s: string)
    requires Parse(s).Some?
    ensures var (h, d) := Parse(s).value; Text(h, d) == Lower(s) <==> Padding(LeftOver(Payload(s)))
  {
    hide Parse, Payload, Text, Spell, GroupBits, Quintets, Octets, DataBits, LeftOver, Padding, GoodHrp;
    var (h, d) := Parse(s).value;
    var own := Quintets(DataBits(d));
    OnlySpellingsParse(s);
    RoundTrip(h, d);
    GroupsAreOwnIff(Payload(s));
    if Text(h, d) == Lower(s) { SpellTellsApart(h, own, Payload(s)); }
  }

  /** Groups that hold the same complete bytes as the encoder's: the last padding bit set, or a group more. */
  function Another(data: Bytes): seq<bv5> {
    var groups := Quintets(DataBits(data));
    if |GroupBits(groups)| == |DataBits(data)| then groups + [0] else groups[..|groups| - 1] + [1 | LastOf(groups)]
  }

  function LastOf(groups: seq<bv5>): bv5 { if groups == [] then 0 else groups[|groups| - 1] }

  lemma SetLastBit(g: bv5, four: seq<bool>)
    requires Bits(g as nat, 5) == four + [false]
    ensures Bits((1 | g) as nat, 5) == four + [true]
  {
    var low := g as nat % 2;
    assert Bits(g as nat, 5)[4] == (low == 1);
    EvenOr(g);
    assert (four + [false])[..4] == four && Bits(g as nat, 5)[..4] == Bits(g as nat / 2, 4);
    assert ((1 | g) as nat) / 2 == g as nat / 2;
  }

  lemma EvenOr(g: bv5)
    requires g as nat % 2 == 0
    ensures (1 | g) as nat == g as nat + 1
  {}

  lemma AnotherHoldsTheSame(data: Bytes)
    ensures Another(data) != Quintets(DataBits(data)) && Octets(GroupBits(Another(data))) == data
  {
    hide Quintets, Octets, DataBits, Bits, GroupBits;
    var b := DataBits(data);
    var groups := Quintets(b);
    var pad := BitsOfQuintets(b);
    NoBitsLength(pad);
    if |GroupBits(groups)| == |b| {
      GroupBitsSnoc(groups, 0);
      BitsOfZero(5);
      assert (0 as bv5) as nat == 0;
      assert b + NoBits(0) == b;
      OctetsOfData(data, NoBits(5));
      assert |Another(data)| == |groups| + 1;
    } else {
      LastBitSet(groups, b, pad);
      OctetsOfData(data, NoBits(pad - 1) + [true]);
    }
  }

  lemma LastBitSet(groups: seq<bv5>, b: seq<bool>, pad: nat)
    requires 0 < pad < 5 && GroupBits(groups) == b + NoBits(pad)
    ensures groups != []
    ensures var other := groups[..|groups| - 1] + [1 | LastOf(groups)];
            other != groups && GroupBits(other) == b + (NoBits(pad - 1) + [true])
  {
    hide Bits, GroupBits;
    GroupBitsLength(groups);
    var front, g := groups[..|groups| - 1], groups[|groups| - 1];
    assert groups == front + [g];
    GroupBitsSnoc(front, g);
    GroupBitsSnoc(front, 1 | g);
    var five := Bits(g as nat, 5);
    assert GroupBits(groups)[|GroupBits(groups)| - 1] == false;
    assert five == five[..4] + [false];
    SetLastBit(g, five[..4]);
    var all := GroupBits(groups);
    assert all[..|all| - 1] == GroupBits(front) + five[..4];
    assert NoBits(pad) == NoBits(pad - 1) + [false] && all[..|all| - 1] == b + NoBits(pad - 1);
    Regroup(GroupBits(front), five[..4], [true]);
    Regroup(b, NoBits(pad - 1), [true]);
    assert Bits((1 | g) as nat, 5)[4] != five[4];
  }

  /** So every address has another spelling, in lower case and with a checksum that closes, that is read as the same
      address. */
  lemma EveryAddressHasAnotherSpelling(hrp: string, data: Bytes)
    requires GoodHrp(hrp)
    ensures var other := Spell(hrp, Another(data));
            other != Text(hrp, data) && Parse(other) == Some((hrp, data)) == Parse(Text(hrp, data))
  {
    assert Ascii(hrp);
    hide Parse, Text, Spell, GroupBits, Quintets, Octets, DataBits, Another, GoodHrp, Ascii;
    AnotherHoldsTheSame(data);
    SpellingParses(hrp, Another(data));
    RoundTrip(hrp, data);
    if Spell(hrp, Another(data)) == Text(hrp, data) { SpellTellsApart(hrp, Another(data), Quintets(DataBits(data))); }
  }
}
