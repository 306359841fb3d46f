/** Who may speak for an address (oracle/app/wallet_auth.py).

    BLS is a parameter: a function from key, payload and signature that says whether the signature
    verifies, or None where key or signature is not a curve element. Hex fields arrive parsed, with
    None for text that is not hex. */
module WalletAuth {
  import opened Ordering
  import opened Merkle
  import opened Clvm
  import opened SignedMessage
  import Bech32m

  const TEMPLATE_HASH: Digest := [
    0xe9, 0xaa, 0xa4, 0x9f, 0x45, 0xba, 0xd5, 0xc8, 0x89, 0xb8, 0x6e, 0xe3, 0x34, 0x15, 0x50, 0xc1,
    0x55, 0xcf, 0xdd, 0x10, 0xc3, 0xa6, 0x75, 0x7d, 0xe6, 0x18, 0xd2, 0x06, 0x12, 0xff, 0xfd, 0x52]

  /** None is the program's WalletAuthError: a synthetic key has 48 bytes. */
  function PuzzleHash(H: Hash, pk: Bytes): Option<Digest> {
    if |pk| != 48 then None
    else Some(CurryAndTreeHash(H, QuotedModHash(H, TEMPLATE_HASH), [AtomHash(H, pk)]))
  }

  datatype Verdict = Accepted | MalformedAddress | UnexpectedHrp | PayloadLength | KeyNotHex | KeyLength
                   | KeyNotBound | SignatureNotHex | NotCurveElements | BadSignature

  type Bls = (Bytes, Digest, Bytes) -> Option<bool>

  function VerifySignedMessage(H: Hash, bls: Bls, address: string, pk: Option<Bytes>, signature: Option<Bytes>,
                               message: string, testMode: bool): Verdict {
    match Bech32m.Parse(address)
    case None => MalformedAddress
    case Some((hrp, claimed)) =>
      if hrp != "xch" && hrp != "txch" then UnexpectedHrp
      else if |claimed| != 32 then PayloadLength
      else if pk.None? then KeyNotHex
      else if PuzzleHash(H, pk.value).None? then KeyLength
      else if PuzzleHash(H, pk.value).value != claimed then KeyNotBound
      else if testMode then Accepted
      else if signature.None? then SignatureNotHex
      else
        match bls(pk.value, SignedPayload(H, message), signature.value)
        case None => NotCurveElements
        case Some(good) => if good then Accepted else BadSignature
  }

  /** The address derived from a key is accepted with that key and a signature that verifies. */
  lemma OwnAddressIsAccepted(H: Hash, bls: Bls, hrp: string, pk: Bytes, signature: Bytes, message: string)
    requires hrp == "xch" || hrp == "txch"
    requires |pk| == 48 && bls(pk, SignedPayload(H, message), signature) == Some(true)
    ensures VerifySignedMessage(H, bls, Bech32m.Text(hrp, PuzzleHash(H, pk).value), Some(pk), Some(signature),
                                message, false) == Accepted
  {
    hide SignedPayload, Bech32m.Text, Bech32m.Parse, Bech32m.GoodHrp, CurryAndTreeHash, QuotedModHash, AtomHash;
    NetworkPrefixes(hrp);
    PuzzleHashLength(H, pk);
    assert PuzzleHash(H, pk).Some?;
    hide PuzzleHash;
    Bech32m.RoundTrip(hrp, PuzzleHash(H, pk).value);
  }

  lemma NetworkPrefixes(hrp: string)
    ensures hrp == "xch" || hrp == "txch" ==> Bech32m.GoodHrp(hrp) && Bech32m.Ascii(hrp)
  {}

  lemma PuzzleHashLength(H: Hash, pk: Bytes)
    requires |pk| == 48
    ensures |PuzzleHash(H, pk).value| == 32
  {}

  /** The puzzle hash of a key is the tree hash of the template curried with it, whatever program that template is. */
  lemma PuzzleHashIsTreeHash(H: Hash, template: Sexp, pk: Bytes)
    requires Clvm.TreeHash(H, template) == TEMPLATE_HASH
    ensures PuzzleHash(H, pk) == if |pk| == 48 then Some(Clvm.TreeHash(H, Curried(template, [Atom(pk)]))) else None
  {
    CurryHashIsTreeHash(H, template, [Atom(pk)]);
    assert TreeHashes(H, [Atom(pk)]) == [AtomHash(H, pk)];
    hide CurryAndTreeHash, QuotedModHash, AtomHash, Curried;
  }

  /** The address speaks for the key. */
  ghost predicate Binds(H: Hash, address: string, pk: Bytes) {
    && Bech32m.Parse(address).Some? && |Bech32m.Parse(address).value.1| == 32
    && Bech32m.Parse(address).value.0 in {"xch", "txch"}
    && |pk| == 48 && PuzzleHash(H, pk) == Some(Bech32m.Parse(address).value.1)
  }

  /** Soundness and completeness at once: a message is accepted exactly when the address is the key's own on one of
      the two networks and the signature verifies over the message's payload. Test mode waives the signature only. */
  lemma AcceptedExactlyWhen(H: Hash, bls: Bls, address: string, pk: Option<Bytes>, signature: Option<Bytes>,
                            message: string, testMode: bool)
    ensures VerifySignedMessage(H, bls, address, pk, signature, message, testMode) == Accepted <==>
              && pk.Some? && Binds(H, address, pk.value)
              && (testMode || (signature.Some?
                               && bls(pk.value, SignedPayload(H, message), signature.value) == Some(true)))
  {
    hide Bech32m.Parse, SignedPayload, CurryAndTreeHash, QuotedModHash, AtomHash;
  }

  /** Which refusal is given: the first test that fails, in the program's order. */
  lemma RefusedForCause(H: Hash, bls: Bls, address: string, pk: Option<Bytes>, signature: Option<Bytes>,
                        message: string)
    ensures var v := VerifySignedMessage(H, bls, address, pk, signature, message, false);
            && (v == MalformedAddress <==> Bech32m.Parse(address).None?)
            && (v in {KeyNotHex, KeyLength, KeyNotBound} ==> pk.None? || !Binds(H, address, pk.value))
            && (v in {SignatureNotHex, NotCurveElements, BadSignature} ==>
                  && pk.Some? && Binds(H, address, pk.value)
                  && (v == BadSignature <==>
                        signature.Some? && bls(pk.value, SignedPayload(H, message), signature.value) == Some(false)))
  {
    hide Bech32m.Parse, SignedPayload, CurryAndTreeHash, QuotedModHash, AtomHash;
  }

  /** The seven inputs hashed on the way from the puzzle hash down to the key. */
  function Layers(H: Hash, pk: Bytes): (r: seq<Bytes>)
    ensures |r| == 7
  {
    var key := PairHash(H, AtomHash(H, [1]), AtomHash(H, pk));
    var list := PairHash(H, AtomHash(H, [1]), AtomHash(H, []));
    var body := PairHash(H, key, list);
    var env := PairHash(H, AtomHash(H, [4]), body);
    var tail := PairHash(H, env, AtomHash(H, []));
    var rest := PairHash(H, QuotedModHash(H, TEMPLATE_HASH), tail);
    [PairPreimage(AtomHash(H, [2]), rest),
     PairPreimage(QuotedModHash(H, TEMPLATE_HASH), tail),
     PairPreimage(env, AtomHash(H, [])),
     PairPreimage(AtomHash(H, [4]), body),
     PairPreimage(key, list),
     PairPreimage(AtomHash(H, [1]), AtomHash(H, pk)),
     AtomPreimage(pk)]
  }

  /** The first layer in which two keys differ. */
  function FirstDifference(a: seq<Bytes>, b: seq<Bytes>): Option<(Bytes, Bytes)>
    requires |a| == |b|
  {
    if a == [] then None else if a[0] != b[0] then Some((a[0], b[0])) else FirstDifference(a[1..], b[1..])
  }

  lemma {:induction false} DifferenceOfChain(H: Hash, a: seq<Bytes>, b: seq<Bytes>)
    requires |a| == |b| && a != [] && H(a[0]) == H(b[0])
    requires forall i :: 0 <= i < |a| - 1 ==> (a[i] == b[i] ==> H(a[i + 1]) == H(b[i + 1]))
    ensures match FirstDifference(a, b)
            case None => a == b
            case Some(c) => IsCollision(H, c.0, c.1)
  {
    if a[0] == b[0] && |a| > 1 {
      DifferenceOfChain(H, a[1..], b[1..]);
      assert a == [a[0]] + a[1..] && b == [b[0]] + b[1..];
    }
  }

  lemma LayersChain(H: Hash, pk: Bytes, pk': Bytes, i: nat)
    requires i < 6 && Layers(H, pk)[i] == Layers(H, pk')[i]
    ensures H(Layers(H, pk)[i + 1]) == H(Layers(H, pk')[i + 1])
  {
    LayerHashes(H, pk);
    LayerHashes(H, pk');
    hide Layers;
    PartsAgree(Layers(H, pk)[i], Layers(H, pk')[i]);
  }

  /** The two 32-byte halves of a pair's preimage. */
  function LeftPart(x: Bytes): Bytes { if |x| == 65 then x[1..33] else [] }

  function RightPart(x: Bytes): Bytes { if |x| == 65 then x[33..] else [] }

  lemma PartsAgree(x: Bytes, y: Bytes)
    ensures x == y ==> LeftPart(x) == LeftPart(y) && RightPart(x) == RightPart(y)
  {}

  lemma PartsOf(H: Hash, l: Bytes, r: Bytes)
    ensures |l| == 32 && |r| == 32 ==> LeftPart(PairPreimage(l, r)) == l && RightPart(PairPreimage(l, r)) == r
  {
    if |l| == 32 && |r| == 32 {
      var x := PairPreimage(l, r);
      assert x[1..33] == l && x[33..] == r;
    }
  }

  lemma QuotedLength(H: Hash)
    ensures |QuotedModHash(H, TEMPLATE_HASH)| == 32
    ensures QuotedModHash(H, TEMPLATE_HASH) == PairHash(H, AtomHash(H, [1]), TEMPLATE_HASH)
  {}

  /** Each layer holds the hash of the next one, in its left or right half. */
  lemma LayerHashes(H: Hash, pk: Bytes)
    ensures var s := Layers(H, pk);
            && RightPart(s[0]) == H(s[1]) && RightPart(s[1]) == H(s[2]) && LeftPart(s[2]) == H(s[3])
            && RightPart(s[3]) == H(s[4]) && LeftPart(s[4]) == H(s[5]) && RightPart(s[5]) == H(s[6])
  {
    var key := PairHash(H, AtomHash(H, [1]), AtomHash(H, pk));
    var list := PairHash(H, AtomHash(H, [1]), AtomHash(H, []));
    var body := PairHash(H, key, list);
    var env := PairHash(H, AtomHash(H, [4]), body);
    var tail := PairHash(H, env, AtomHash(H, []));
    var rest := PairHash(H, QuotedModHash(H, TEMPLATE_HASH), tail);
    hide LeftPart, RightPart, PairPreimage, AtomPreimage, QuotedModHash;
    QuotedLength(H);
    PartsOf(H, AtomHash(H, [2]), rest);
    PartsOf(H, QuotedModHash(H, TEMPLATE_HASH), tail);
    PartsOf(H, env, AtomHash(H, []));
    PartsOf(H, AtomHash(H, [4]), body);
    PartsOf(H, key, list);
    PartsOf(H, AtomHash(H, [1]), AtomHash(H, pk));
  }

  lemma TopLayer(H: Hash, pk: Bytes)
    requires |pk| == 48
    ensures PuzzleHash(H, pk) == Some(H(Layers(H, pk)[0]))
  {
    OneArgument(H, AtomHash(H, pk));
    hide AtomHash, QuotedModHash, CurriedValuesTreeHash;
  }

  lemma OneArgument(H: Hash, arg: Digest)
    ensures CurriedValuesTreeHash(H, [arg]) ==
            PairHash(H, AtomHash(H, [4]), PairHash(H, PairHash(H, AtomHash(H, [1]), arg),
                                            PairHash(H, AtomHash(H, [1]), AtomHash(H, []))))
  {
    hide AtomHash, PairHash;
    assert [arg][1..] == [];
  }

  /** Two keys accepted for one address are the same key, or a collision is in hand. */
  lemma OneKeyPerAddress(H: Hash, bls: Bls, address: string, pk: Bytes, sig: Option<Bytes>, m: string, t: bool,
                         pk': Bytes, sig': Option<Bytes>, m': string, t': bool)
    ensures VerifySignedMessage(H, bls, address, Some(pk), sig, m, t) == Accepted
            && VerifySignedMessage(H, bls, address, Some(pk'), sig', m', t') == Accepted ==>
              match FirstDifference(Layers(H, pk), Layers(H, pk'))
              case None => pk == pk'
              case Some(c) => IsCollision(H, c.0, c.1)
  {
    hide Layers, FirstDifference;
    if VerifySignedMessage(H, bls, address, Some(pk), sig, m, t) == Accepted
       && VerifySignedMessage(H, bls, address, Some(pk'), sig', m', t') == Accepted {
      TopLayer(H, pk);
      TopLayer(H, pk');
      hide PuzzleHash;
      forall i | 0 <= i < 6 && Layers(H, pk)[i] == Layers(H, pk')[i]
        ensures H(Layers(H, pk)[i + 1]) == H(Layers(H, pk')[i + 1])
      {
        LayersChain(H, pk, pk', i);
      }
      DifferenceOfChain(H, Layers(H, pk), Layers(H, pk'));
      LastLayer(H, pk, pk');
    }
  }

  lemma LastLayer(H: Hash, pk: Bytes, pk': Bytes)
    ensures Layers(H, pk) == Layers(H, pk') ==> pk == pk'
  {
    assert Layers(H, pk)[6] == AtomPreimage(pk) && Layers(H, pk')[6] == AtomPreimage(pk');
    PreimagesDiffer(pk, pk', [], [], [], []);
  }
}
