/** What a wallet signs for a message (oracle/app/wallet_auth.py).

    A message that reads as hex is signed as the bytes it spells; any other is signed as its UTF-8.
    So different messages can have one payload. */
module SignedMessage {
  import opened Ordering
  import opened Merkle
  import opened Clvm

  const MESSAGE_PREFIX: Bytes := Utf8("Chia Signed Message")

  // UTF-8 (RFC 3629).

  function Utf8Char(c: char): Bytes {
    var n := c as int;
    if n < 0x80 then [n as Byte]
    else if n < 0x800 then [(0xC0 + n / 64) as Byte, (0x80 + n % 64) as Byte]
    else if n < 0x1_0000 then [(0xE0 + n / 4096) as Byte, (0x80 + n / 64 % 64) as Byte, (0x80 + n % 64) as Byte]
    else [(0xF0 + n / 262144) as Byte, (0x80 + n / 4096 % 64) as Byte, (0x80 + n / 64 % 64) as Byte,
          (0x80 + n % 64) as Byte]
  }

  function Utf8(s: string): Bytes {
    if s == "" then [] else Utf8Char(s[0]) + Utf8(s[1..])
  }

  /** Plain characters are their own bytes. */
  lemma {:induction false} Utf8OfAscii(s: string)
    requires forall i :: 0 <= i < |s| ==> s[i] as int < 128
    ensures |Utf8(s)| == |s| && forall i :: 0 <= i < |s| ==> Utf8(s)[i] as int == s[i] as int
  {
    if s != "" { Utf8OfAscii(s[1..]); }
  }

  /** How many bytes a character has, read off its first byte. */
  function Width(first: Byte): nat {
    if first < 0x80 then 1 else if first < 0xE0 then 2 else if first < 0xF0 then 3 else 4
  }

  lemma WidthOfChar(c: char)
    ensures |Utf8Char(c)| == Width(Utf8Char(c)[0])
  {}

  /** The number a character's bytes spell. */
  function CodeOf(b: Bytes): int {
    match |b|
    case 1 => b[0] as int
    case 2 => 64 * (b[0] as int - 0xC0) + (b[1] as int - 0x80)
    case 3 => 64 * (64 * (b[0] as int - 0xE0) + (b[1] as int - 0x80)) + (b[2] as int - 0x80)
    case 4 =>
      64 * (64 * (64 * (b[0] as int - 0xF0) + (b[1] as int - 0x80)) + (b[2] as int - 0x80)) + (b[3] as int - 0x80)
    case _ => 0
  }

  lemma CodeOfChar(c: char)
    ensures CodeOf(Utf8Char(c)) == c as int
  {
    var n := c as int;
    assert n / 4096 == n / 64 / 64 && n / 262144 == n / 4096 / 64;
  }

  /** UTF-8 tells texts apart. */
  lemma {:induction false} Utf8Injective(s: string, t: string)
    requires Utf8(s) == Utf8(t)
    ensures s == t
  {
    OnlyNothingIsEmpty(s);
    OnlyNothingIsEmpty(t);
    if s != "" && t != "" {
      var a, b := Utf8Char(s[0]), Utf8Char(t[0]);
      WidthOfChar(s[0]);
      WidthOfChar(t[0]);
      hide Utf8Char, Width, CodeOf;
      assert Utf8(s)[0] == a[0] && Utf8(t)[0] == b[0];
      assert |a| == |b|;
      assert a == Utf8(s)[..|a|] == b;
      assert Utf8(s[1..]) == Utf8(s)[|a|..] == Utf8(t[1..]);
      CodeOfChar(s[0]);
      CodeOfChar(t[0]);
      Utf8Injective(s[1..], t[1..]);
      assert s == [s[0]] + s[1..] && t == [t[0]] + t[1..];
    }
  }

  lemma OnlyNothingIsEmpty(s: string)
    ensures Utf8(s) == [] <==> s == ""
  {
    if s != "" { WidthOfChar(s[0]); }
  }

  // Hex text.

  predicate HexDigit(c: char) { '0' <= c <= '9' || 'a' <= c <= 'f' || 'A' <= c <= 'F' }

  function HexValue(c: char): nat
    requires HexDigit(c)
  {
    if c <= '9' then c as int - '0' as int
    else if c <= 'F' then c as int - 'A' as int + 10
    else c as int - 'a' as int + 10
  }

  predicate AllHex(s: string) { forall i :: 0 <= i < |s| ==> HexDigit(s[i]) }

  function WithoutPrefix(message: string): string {
    if "0x" <= message then message[2..] else message
  }

  /** The message is signed as the bytes it spells. */
  predicate HexText(message: string) {
    var digits := WithoutPrefix(message);
    digits != "" && AllHex(digits) && |digits| % 2 == 0
  }

  function HexBytes(digits: string): Bytes
    requires AllHex(digits) && |digits| % 2 == 0
  {
    seq(|digits| / 2, i requires 0 <= i < |digits| / 2 =>
      (16 * HexValue(digits[2 * i]) + HexValue(digits[2 * i + 1])) as Byte)
  }

  function ParseSignatureMessage(message: string): Bytes {
    if HexText(message) then HexBytes(WithoutPrefix(message)) else Utf8(message)
  }

  function SignedPayload(H: Hash, message: string): Digest {
    PairHash(H, AtomHash(H, MESSAGE_PREFIX), AtomHash(H, ParseSignatureMessage(message)))
  }

  function DigitOf(v: nat): char
    requires v < 16
  {
    "0123456789abcdef"[v]
  }

  /** Bytes as lower-case hex. */
  function HexOf(b: Bytes): string {
    seq(2 * |b|, i requires 0 <= i < 2 * |b| =>
      DigitOf(if i % 2 == 0 then b[i / 2] as int / 16 else b[i / 2] as int % 16))
  }

  lemma DigitRoundTrip(v: nat)
    requires v < 16
    ensures HexDigit(DigitOf(v)) && HexValue(DigitOf(v)) == v && DigitOf(v) != 'x'
  {}

  lemma DigitsAreHex(b: Bytes)
    ensures AllHex(HexOf(b)) && forall i :: 0 <= i < |HexOf(b)| ==> HexOf(b)[i] != 'x'
  {
    hide DigitOf, HexDigit, HexValue;
    forall i | 0 <= i < |HexOf(b)| ensures HexDigit(HexOf(b)[i]) && HexOf(b)[i] != 'x' {
      DigitRoundTrip(if i % 2 == 0 then b[i / 2] as int / 16 else b[i / 2] as int % 16);
    }
  }

  lemma HexBytesOfHex(b: Bytes)
    requires AllHex(HexOf(b))
    ensures HexBytes(HexOf(b)) == b
  {
    hide DigitOf, HexDigit, HexValue;
    forall i | 0 <= i < |b| ensures HexBytes(HexOf(b))[i] == b[i] {
      assert (2 * i) / 2 == i && (2 * i + 1) / 2 == i && (2 * i) % 2 == 0 && (2 * i + 1) % 2 == 1;
      DigitRoundTrip(b[i] as int / 16);
      DigitRoundTrip(b[i] as int % 16);
    }
  }

  /** Spelled in hex, with or without the prefix, any bytes are what is signed. */
  lemma HexRoundTrip(b: Bytes)
    requires b != []
    ensures HexText(HexOf(b)) && HexText("0x" + HexOf(b))
    ensures ParseSignatureMessage(HexOf(b)) == b == ParseSignatureMessage("0x" + HexOf(b))
  {
    var digits := HexOf(b);
    DigitsAreHex(b);
    HexBytesOfHex(b);
    hide HexOf, AllHex, HexBytes, Utf8;
    assert ("0x" + digits)[2..] == digits;
    assert "0x"[1] == 'x' && !("0x" <= digits);
  }

  // What a payload says about the message.

  /** Payloads agree exactly when the decoded bytes do, or a collision is in hand. */
  lemma PayloadBindsBytes(H: Hash, m: string, m': string)
    ensures ParseSignatureMessage(m) == ParseSignatureMessage(m') ==> SignedPayload(H, m) == SignedPayload(H, m')
    ensures SignedPayload(H, m) == SignedPayload(H, m') ==>
              match PayloadClash(H, m, m')
              case None => ParseSignatureMessage(m) == ParseSignatureMessage(m')
              case Some(c) => IsCollision(H, c.0, c.1)
  {
    hide ParseSignatureMessage, AtomHash, PairHash, Utf8;
    PairBinds(H, MESSAGE_PREFIX, ParseSignatureMessage(m), ParseSignatureMessage(m'));
    hide Clvm.Clash;
  }

  lemma PairBinds(H: Hash, prefix: Bytes, x: Bytes, y: Bytes)
    ensures PairHash(H, AtomHash(H, prefix), AtomHash(H, x)) == PairHash(H, AtomHash(H, prefix), AtomHash(H, y)) ==>
              match Clvm.Clash(H, Pair(Atom(prefix), Atom(x)), Pair(Atom(prefix), Atom(y)))
              case None => x == y
              case Some(c) => IsCollision(H, c.0, c.1)
  {
    hide Clvm.Clash, AtomHash, PairHash, IsCollision;
    AtomsTreeHash(H, prefix, x);
    AtomsTreeHash(H, prefix, y);
    hide Clvm.TreeHash;
    TreeHashBinds(H, Pair(Atom(prefix), Atom(x)), Pair(Atom(prefix), Atom(y)));
  }

  lemma AtomsTreeHash(H: Hash, l: Bytes, r: Bytes)
    ensures Clvm.TreeHash(H, Pair(Atom(l), Atom(r))) == PairHash(H, AtomHash(H, l), AtomHash(H, r))
  {
    hide AtomHash, PairHash;
  }

  function Signed(message: string): Sexp { Pair(Atom(MESSAGE_PREFIX), Atom(ParseSignatureMessage(message))) }

  function PayloadClash(H: Hash, m: string, m': string): Option<(Bytes, Bytes)> { Clvm.Clash(H, Signed(m), Signed(m')) }

  /** What is signed is the tree hash of the fixed prefix consed onto the message's bytes. */
  lemma PayloadIsTreeHash(H: Hash, m: string)
    ensures SignedPayload(H, m)
            == Clvm.TreeHash(H, Pair(Atom(Utf8("Chia Signed Message")), Atom(ParseSignatureMessage(m))))
  {
    hide ParseSignatureMessage, Utf8;
    AtomsTreeHash(H, MESSAGE_PREFIX, ParseSignatureMessage(m));
  }

  /** Among messages that do not read as hex, a payload belongs to one message only. */
  lemma PlainTextIsBound(H: Hash, m: string, m': string)
    requires !HexText(m) && !HexText(m')
    ensures SignedPayload(H, m) == SignedPayload(H, m') ==>
              match PayloadClash(H, m, m')
              case None => m == m'
              case Some(c) => IsCollision(H, c.0, c.1)
  {
    PayloadBindsBytes(H, m, m');
    if ParseSignatureMessage(m) == ParseSignatureMessage(m') { Utf8Injective(m, m'); }
  }

  /** Not in general: these three are one payload, whatever the hash. */
  lemma HexTextCollides(H: Hash)
    ensures SignedPayload(H, "hi") == SignedPayload(H, "6869") == SignedPayload(H, "0x6869")
  {
    hide *;
    ThreeSpellings();
    SamePayload(H, "hi", "6869");
    SamePayload(H, "6869", "0x6869");
  }

  lemma SamePayload(H: Hash, m: string, m': string)
    requires ParseSignatureMessage(m) == ParseSignatureMessage(m')
    ensures SignedPayload(H, m) == SignedPayload(H, m')
  {
    hide ParseSignatureMessage, AtomHash, PairHash, Utf8;
  }

  lemma ThreeSpellings()
    ensures ParseSignatureMessage("hi") == ParseSignatureMessage("6869") == ParseSignatureMessage("0x6869")
  {
    TwoLetters();
    HexRoundTrip([0x68, 0x69]);
    hide ParseSignatureMessage, HexOf, HexText;
    assert "0x" + "6869" == "0x6869";
  }

  lemma TwoLetters()
    ensures ParseSignatureMessage("hi") == [0x68, 0x69] && HexOf([0x68, 0x69]) == "6869"
  {
    assert !HexDigit("hi"[0]);
    assert "hi"[1..] == "i" && "i"[1..] == "";
    assert Utf8("i") == Utf8Char('i') + Utf8("");
    assert Utf8("hi") == Utf8Char('h') + Utf8("i");
  }

  /** Every message but the empty one shares its payload with another message. */
  lemma OnlyTheEmptyMessageStandsAlone(m: string)
    ensures (forall m' :: ParseSignatureMessage(m') == ParseSignatureMessage(m) ==> m' == m) <==> m == ""
  {
    hide ParseSignatureMessage, HexText, HexOf;
    NothingIsEmpty(m);
    if m == "" {
      forall m' | ParseSignatureMessage(m') == ParseSignatureMessage(m) ensures m' == m {
        NothingIsEmpty(m');
      }
    } else {
      var b := ParseSignatureMessage(m);
      HexRoundTrip(b);
      assert |HexOf(b)| != |"0x" + HexOf(b)|;
      assert !(HexOf(b) == m == "0x" + HexOf(b));
    }
  }

  lemma NothingIsEmpty(m: string)
    ensures ParseSignatureMessage(m) == [] <==> m == ""
  {
    hide HexDigit, HexValue, Utf8;
    OnlyNothingIsEmpty(m);
  }
}
