/** Addresses: bech32m text (oracle/app/wallet_auth.py, BIP-350).

    `Encode` and `Decode` are the program's loops, tied to the functions `Text` and `Parse`. The
    two theorems are about those functions: which human-readable parts survive a round trip, and
    that one changed character is always noticed. */
module Bech32m {
  import opened Ordering
  import opened Merkle
  import opened Polymod
  import opened Regrouping

  const CHARSET := "qpzry9x8gf2tvdw0s3jn54khce6mua7l"

  type Address = (string, Bytes)

  predicate Printable(c: char) { 33 <= c as int <= 126 }

  predicate AllPrintable(s: string) { forall i :: 0 <= i < |s| ==> Printable(s[i]) }

  predicate Ascii(s: string) { forall i :: 0 <= i < |s| ==> s[i] as int < 128 }

  function Letter(k: nat): char
    requires k < 32
  {
    CHARSET[k]
  }

  function CharAt(v: bv5): char { Letter(v as nat) }

  /** The position of c in the charset, from k on; None where it is not there. */
  function IndexFrom(c: char, k: nat): Option<nat>
    requires k <= 32
    decreases 32 - k
  {
    if k == 32 then None else if Letter(k) == c then Some(k) else IndexFrom(c, k + 1)
  }

  function Lookup(c: char): Option<bv5> {
    var k := IndexFrom(c, 0);
    IndexFromFound(c, 0);
    if k.None? then None else Some(k.value as bv5)
  }

  lemma {:induction false} IndexFromFound(c: char, k: nat)
    requires k <= 32
    ensures IndexFrom(c, k).Some? ==> k <= IndexFrom(c, k).value < 32 && Letter(IndexFrom(c, k).value) == c
    decreases 32 - k
  {
    hide Letter;
    if k < 32 { IndexFromFound(c, k + 1); }
  }

  /** The position of every charset character, read off the alphabet. */
  function Rank(c: char): nat {
    match c
    case 'q' => 0 case 'p' => 1 case 'z' => 2 case 'r' => 3
    case 'y' => 4 case '9' => 5 case 'x' => 6 case '8' => 7
    case 'g' => 8 case 'f' => 9 case '2' => 10 case 't' => 11
    case 'v' => 12 case 'd' => 13 case 'w' => 14 case '0' => 15
    case 's' => 16 case '3' => 17 case 'j' => 18 case 'n' => 19
    case '5' => 20 case '4' => 21 case 'k' => 22 case 'h' => 23
    case 'c' => 24 case 'e' => 25 case '6' => 26 case 'm' => 27
    case 'u' => 28 case 'a' => 29 case '7' => 30 case 'l' => 31
    case _ => 32
  }

  lemma CharsetRanks(k: nat)
    requires k < 32
    ensures Rank(Letter(k)) == k
  {}

  lemma CharsetPlain(k: nat)
    requires k < 32
    ensures Printable(Letter(k)) && Letter(k) != '1' && !('A' <= Letter(k) <= 'Z')
  {}

  lemma {:induction false} IndexFromRank(v: nat, k: nat)
    requires k <= v < 32
    ensures IndexFrom(Letter(v), k) == Some(v)
    decreases 32 - k
  {
    hide Letter, Rank;
    CharsetRanks(v);
    CharsetRanks(k);
    if k < v { IndexFromRank(v, k + 1); }
  }

  lemma LookupCharAt(v: bv5)
    ensures Lookup(CharAt(v)) == Some(v)
  {
    hide Letter;
    IndexFromRank(v as nat, 0);
  }

  lemma LookupFound(c: char)
    ensures Lookup(c).Some? ==> CharAt(Lookup(c).value) == c && Printable(c) && c != '1' && !('A' <= c <= 'Z')
  {
    hide Letter;
    IndexFromFound(c, 0);
    if Lookup(c).Some? { CharsetPlain(IndexFrom(c, 0).value); }
  }

  // Encoding.

  function Narrow(c: char): bv5 { (c as int % 32) as bv5 }

  function Wide(c: char): bv5
    requires c as int < 128
  {
    (c as int / 32) as bv5
  }

  function Expand(hrp: string): seq<bv5>
    requires Ascii(hrp)
  {
    seq(|hrp|, i requires 0 <= i < |hrp| => Wide(hrp[i])) + [0]
      + seq(|hrp|, i requires 0 <= i < |hrp| => Narrow(hrp[i]))
  }

  function Chars(values: seq<bv5>): string {
    seq(|values|, i requires 0 <= i < |values| => CharAt(values[i]))
  }

  /** The same expansion of any human-readable part: outside ASCII a value can be wider than a group. */
  function WideExpand(hrp: string): seq<bv30> {
    seq(|hrp|, i requires 0 <= i < |hrp| => (hrp[i] as int / 32) as bv30) + [0]
      + seq(|hrp|, i requires 0 <= i < |hrp| => (hrp[i] as int % 32) as bv30)
  }

  function Tail(hrp: string, data: Bytes): seq<bv5> {
    var out := Quintets(DataBits(data));
    out + Checksum(Xor(WidePoly(1, WideExpand(hrp) + Widen(out + Zeros(6))), BECH32M_CONST))
  }

  function Text(hrp: string, data: Bytes): string {
    hrp + "1" + Chars(Tail(hrp, data))
  }

  method Encode(hrp: string, data: Bytes) returns (text: string)
    ensures text == Text(hrp, data)
  {
    hide WideExpand, Checksum, Xor, Chars, Quintets, DataBits, WidePoly, Widen;
    var out := ToQuintets(data);
    var polymod := Polymod.Polymod(WideExpand(hrp) + Widen(out + Zeros(6)));
    text := hrp + "1" + Chars(out + Checksum(Xor(polymod, BECH32M_CONST)));
  }

  lemma SmallIsWide(k: nat)
    requires k < 32
    ensures k as bv30 == Polymod.Wide(k as bv5)
  {}

  lemma ExpandIsWide(hrp: string)
    requires Ascii(hrp)
    ensures WideExpand(hrp) == Widen(Expand(hrp))
  {
    hide Polymod.Wide;
    var wide, plain := WideExpand(hrp), Widen(Expand(hrp));
    SmallIsWide(0);
    forall j | 0 <= j < |plain| ensures wide[j] == plain[j] {
      if j < |hrp| {
        SmallIsWide(hrp[j] as int / 32);
      } else if j > |hrp| {
        SmallIsWide(hrp[j - |hrp| - 1] as int % 32);
      }
    }
  }

  /** For an ASCII part, the checksum is over groups only. */
  lemma TailOfAscii(hrp: string, data: Bytes)
    requires Ascii(hrp)
    ensures var out := Quintets(DataBits(data));
            Tail(hrp, data) == out + Checksum(Xor(Poly(1, Expand(hrp) + out + Zeros(6)), BECH32M_CONST))
  {
    hide WideExpand, Expand, Checksum, Xor, Quintets, DataBits, WidePoly, Poly, Polymod.Wide;
    var out := Quintets(DataBits(data));
    ExpandIsWide(hrp);
    assert Widen(Expand(hrp)) + Widen(out + Zeros(6)) == Widen(Expand(hrp) + out + Zeros(6));
    PolyIsWide(1, Expand(hrp) + out + Zeros(6));
  }

  lemma ExampleGroups()
    ensures Expand("a") == [3, 0, 1] && Quintets(DataBits([])) == []
  {
    assert 'a' as int == 97;
  }

  lemma ExampleTail()
    ensures Tail("a", []) == [31, 0, 9, 19, 17, 29]
  {
    TailOfAscii("a", []);
    ExampleGroups();
    ExampleChecksum();
    hide *;
    assert [3, 0, 1] + [] + Zeros(6) == [3, 0, 1, 0, 0, 0, 0, 0, 0] by { SixZeros(); }
    assert [] + Checksum(Xor(0x15ccfe9e, BECH32M_CONST)) == [31, 0, 9, 19, 17, 29];
  }

  lemma SixZeros()
    ensures Zeros(6) == [0, 0, 0, 0, 0, 0]
  {}

  lemma ExampleChars()
    ensures Chars([31, 0, 9, 19, 17, 29]) == "lqfn3a"
  {}

  /** The shortest example of BIP-350: no data under "a". */
  lemma PublishedExample()
    ensures Text("a", []) == "a1lqfn3a"
  {
    hide Tail, Chars;
    ExampleTail();
    ExampleChars();
  }

  // Decoding.

  /** The last position of c, -1 where there is none. */
  function LastIndex(s: string, c: char): (k: int)
    ensures -1 <= k < |s|
  {
    if s == "" then -1 else if s[|s| - 1] == c then |s| - 1 else LastIndex(s[..|s| - 1], c)
  }

  function Values(s: string): Option<seq<bv5>> {
    if s == "" then Some([])
    else
      var front := Values(s[..|s| - 1]);
      var last := Lookup(s[|s| - 1]);
      if front.None? || last.None? then None else Some(front.value + [last.value])
  }

  lemma {:induction false} ValuesLength(s: string)
    ensures Values(s).Some? ==> |Values(s).value| == |s|
  {
    if s != "" { ValuesLength(s[..|s| - 1]); }
  }

  /** What follows the case checks, on a string already in lower case. */
  function ParseLower(s: string): Option<Address>
    requires Ascii(s)
  {
    var pos := LastIndex(s, '1');
    if pos < 1 || pos + 7 > |s| then None
    else
      var data := Values(s[pos + 1..]);
      ValuesLength(s[pos + 1..]);
      if data.None? then None
      else if Poly(1, Expand(s[..pos]) + data.value) != BECH32M_CONST then None
      else Some((s[..pos], Octets(GroupBits(data.value[..|data.value| - 6]))))
  }

  predicate MixedCase(s: string) { Lower(s) != s && Upper(s) != s }

  function Parse(s: string): Option<Address> {
    if !AllPrintable(s) || MixedCase(s) then None else ParseLower(Lower(s))
  }

  method Decode(addr: string) returns (r: Option<Address>)
    ensures r == Parse(addr)
  {
    hide Expand, Octets, GroupBits, Lookup, Poly, WidePoly;
    if !AllPrintable(addr) || MixedCase(addr) { return None; }
    var s := Lower(addr);
    var pos := LastIndex(s, '1');
    if pos < 1 || pos + 7 > |s| { return None; }
    var hrp, text := s[..pos], s[pos + 1..];
    var data: seq<bv5> := [];
    for i := 0 to |text|
      invariant Values(text[..i]) == Some(data) && |data| == i
    {
      assert text[..i + 1][..i] == text[..i];
      var v := Lookup(text[i]);
      if v.None? {
        NoValues(text, i + 1);
        return None;
      }
      data := data + [v.value];
    }
    assert text[..|text|] == text;
    var polymod := Polymod.Polymod(Widen(Expand(hrp) + data));
    PolyIsWide(1, Expand(hrp) + data);
    if polymod != BECH32M_CONST { return None; }
    var out := ToOctets(data[..|data| - 6]);
    return Some((hrp, out));
  }

  lemma {:induction false} NoValues(s: string, i: nat)
    requires i <= |s| && Values(s[..i]).None?
    ensures Values(s).None?
    decreases |s|
  {
    hide Lookup;
    if i == |s| {
      assert s[..i] == s;
    } else {
      assert s[..|s| - 1][..i] == s[..i];
      NoValues(s[..|s| - 1], i);
    }
  }

  // The round trip.

  lemma {:induction false} LastIndexUnique(s: string, c: char, k: nat)
    requires k < |s| && s[k] == c && (forall i :: k < i < |s| ==> s[i] != c)
    ensures LastIndex(s, c) == k
  {
    if k < |s| - 1 { LastIndexUnique(s[..|s| - 1], c, k); }
  }

  lemma {:induction false} LastIndexIs(s: string, c: char)
    ensures LastIndex(s, c) >= 0 ==> s[LastIndex(s, c)] == c
    ensures forall i :: LastIndex(s, c) < i < |s| ==> s[i] != c
  {
    if s != "" { LastIndexIs(s[..|s| - 1], c); }
  }

  lemma {:induction false} ValuesOfChars(v: seq<bv5>)
    ensures Values(Chars(v)) == Some(v)
  {
    hide Lookup, CharAt;
    if v != [] {
      ValuesOfChars(v[..|v| - 1]);
      assert Chars(v)[..|v| - 1] == Chars(v[..|v| - 1]);
      LookupCharAt(v[|v| - 1]);
      assert Chars(v)[|v| - 1] == CharAt(v[|v| - 1]);
      assert v[..|v| - 1] + [v[|v| - 1]] == v;
    }
  }

  lemma CharsArePlain(v: seq<bv5>)
    ensures forall i :: 0 <= i < |v| ==> Printable(Chars(v)[i]) && Chars(v)[i] != '1' && !('A' <= Chars(v)[i] <= 'Z')
  {
    hide Letter;
    forall i | 0 <= i < |v|
      ensures Printable(Chars(v)[i]) && Chars(v)[i] != '1' && !('A' <= Chars(v)[i] <= 'Z')
    {
      CharsetPlain(v[i] as nat);
    }
  }

  predicate GoodHrp(hrp: string) { hrp != "" && AllPrintable(hrp) && Lower(hrp) == hrp }

  lemma TextIsPlain(hrp: string, tail: seq<bv5>)
    requires GoodHrp(hrp)
    ensures var s := hrp + "1" + Chars(tail);
            AllPrintable(s) && Lower(s) == s && LastIndex(s, '1') == |hrp|
  {
    hide Chars;
    var s := hrp + "1" + Chars(tail);
    CharsArePlain(tail);
    assert |Chars(tail)| == |tail| by { CharsLength(tail); }
    forall i | 0 <= i < |s| ensures Printable(s[i]) && !('A' <= s[i] <= 'Z') {
      if i < |hrp| { assert Printable(hrp[i]) && Lower(hrp)[i] == hrp[i]; }
    }
    LastIndexUnique(s, '1', |hrp|);
  }

  lemma CharsLength(v: seq<bv5>)
    ensures |Chars(v)| == |v|
  {}

  /** The text that spells these groups, whatever they hold, with the checksum they need. */
  function Spell(hrp: string, groups: seq<bv5>): string
    requires Ascii(hrp)
  {
    hrp + "1" + Chars(groups + Checksum(Xor(Poly(1, Expand(hrp) + groups + Zeros(6)), BECH32M_CONST)))
  }

  /** Under a good human-readable part, what any groups spell is read as their complete bytes. */
  lemma SpellingParses(hrp: string, groups: seq<bv5>)
    requires GoodHrp(hrp)
    ensures Parse(Spell(hrp, groups)) == Some((hrp, Octets(GroupBits(groups))))
  {
    hide Chars, Expand, Checksum, Xor, Poly, Values, Octets, GroupBits, LastIndex, Zeros;
    var values := Expand(hrp) + groups;
    var check := Checksum(Xor(Poly(1, values + Zeros(6)), BECH32M_CONST));
    var tail := groups + check;
    var s := Spell(hrp, groups);
    TextIsPlain(hrp, tail);
    CharsLength(tail);
    ChecksumLength(Xor(Poly(1, values + Zeros(6)), BECH32M_CONST));
    assert s[..|hrp|] == hrp && s[|hrp| + 1..] == Chars(tail);
    ValuesOfChars(tail);
    ChecksumCloses(values);
    Regroup(Expand(hrp), groups, check);
    assert tail[..|tail| - 6] == groups;
  }

  /** A good human-readable part comes back, with every byte string. */
  lemma RoundTrip(hrp: string, data: Bytes)
    requires GoodHrp(hrp)
    ensures Text(hrp, data) == Spell(hrp, Quintets(DataBits(data)))
    ensures Parse(Text(hrp, data)) == Some((hrp, data))
  {
    hide Chars, Expand, Checksum, Xor, Poly, Quintets, DataBits, Octets, GroupBits, Tail, Zeros, Parse;
    TailOfAscii(hrp, data);
    SpellingParses(hrp, Quintets(DataBits(data)));
    RegroupingRoundTrip(data);
  }

  lemma LowerIdempotent(s: string)
    ensures Lower(Lower(s)) == Lower(s)
  {}

  lemma ParsedHrpIsGood(s: string)
    ensures Parse(s).Some? ==> GoodHrp(Parse(s).value.0)
  {
    if Parse(s).Some? {
      LowerIdempotent(s);
      var l, h := Lower(s), Parse(s).value.0;
      forall i | 0 <= i < |h| ensures Lower(h)[i] == h[i] { assert Lower(l)[i] == l[i]; }
    }
  }

  /** ... and no other does: the round trip is exact on non-empty, printable, lower-case parts. */
  lemma RoundTripIff(hrp: string, data: Bytes)
    ensures Parse(Text(hrp, data)) == Some((hrp, data)) <==> GoodHrp(hrp)
  {
    hide Parse, Text, GoodHrp;
    if GoodHrp(hrp) { RoundTrip(hrp, data); }
    ParsedHrpIsGood(Text(hrp, data));
  }

  // One changed character.

  lemma {:induction false} ValuesAt(s: string, i: nat)
    requires i < |s|
    ensures Values(s).Some? ==> |Values(s).value| == |s| && Lookup(s[i]) == Some(Values(s).value[i])
  {
    hide Lookup;
    ValuesLength(s);
    if i < |s| - 1 {
      ValuesLength(s[..|s| - 1]);
      ValuesAt(s[..|s| - 1], i);
    }
  }

  lemma {:induction false} ValuesUpdate(s: string, i: nat, c: char)
    requires i < |s| && Values(s).Some? && Lookup(c).Some?
    ensures |Values(s).value| == |s| && Values(s[i := c]) == Some(Values(s).value[i := Lookup(c).value])
    decreases |s|
  {
    hide Lookup;
    ValuesLength(s);
    var front := s[..|s| - 1];
    ValuesLength(front);
    var a, x, y := Values(front).value, Lookup(s[|s| - 1]).value, Lookup(c).value;
    if i == |s| - 1 {
      assert s[i := c][..|s| - 1] == front;
      assert (a + [x])[i := y] == a + [y];
    } else {
      ValuesUpdate(front, i, c);
      assert s[i := c][..|s| - 1] == front[i := c];
      assert (a + [x])[i := y] == a[i := y] + [x];
    }
  }

  lemma LowerChange(s: string, i: nat, c: char)
    requires i < |s|
    ensures Lower(s[i := c]) == Lower(s)[i := Lower([c])[0]]
  {}

  /** The core: in a lower-case string, one changed charset character after the separator. */
  lemma ChangeRejectedLower(s: string, i: nat, c: char)
    requires Ascii(s) && ParseLower(s).Some?
    requires LastIndex(s, '1') < i < |s| && Lookup(c).Some? && c != s[i] && c as int < 128
    ensures ParseLower(s[i := c]) == None
  {
    hide Expand, Poly, Lookup, Octets, GroupBits, LastIndex, Values;
    var pos := LastIndex(s, '1');
    var s' := s[i := c];
    LastIndexIs(s, '1');
    LookupFound(c);
    LastIndexUnique(s', '1', pos);
    var text, j := s[pos + 1..], i - pos - 1;
    assert s'[..pos] == s[..pos] && s'[pos + 1..] == text[j := c];
    ValuesUpdate(text, j, c);
    ValuesAt(text, j);
    LookupFound(text[j]);
    var head, data, v := Expand(s[..pos]), Values(text).value, Lookup(c).value;
    assert data[j] != v;
    var all := head + data;
    assert all[|head| + j] == data[j] && all[|head| + j := v] == head + data[j := v];
    OneValueMatters(1, all, |head| + j, v);
  }

  /** Changing one data or checksum character of a valid string to another one of the charset, in
      either case and at any length, is always rejected. */
  lemma OneChangeIsRejected(s: string, i: nat, c: char)
    requires Parse(s).Some? && LastIndex(Lower(s), '1') < i < |s|
    requires Lookup(Lower([c])[0]).Some? && Lower([c])[0] != Lower(s)[i]
    ensures Parse(s[i := c]) == None
  {
    hide ParseLower, Lookup, LastIndex;
    LowerChange(s, i, c);
    if AllPrintable(s[i := c]) {
      assert s[i := c][i] == c;
      ChangeRejectedLower(Lower(s), i, Lower([c])[0]);
    }
  }
}
