// The cryptographic primitives as an explicit contract: the functions are
// parameters, and everything assumed about them is what `Lawful` lists. Keys have
// 32 bytes, IVs 12, and sealing adds a tag of 16.
module Crypto {
  import opened Tables
  import opened Base

  // The two halves of the key pair `id`
  datatype PublicKey = PublicKey(id: nat)
  datatype PrivateKey = PrivateKey(id: nat)

  // Randomness is an explicit argument: `seed` for OAEP, `salt` for PSS, and
  // the IV for every sealed message.
  datatype Suite = Suite(
    seal: (seq<byte>, seq<byte>, seq<byte>) -> seq<byte>,
    open: (seq<byte>, seq<byte>, seq<byte>) -> Option<seq<byte>>,
    hash: seq<byte> -> seq<byte>,
    encryptOAEP: (PublicKey, seq<byte>, seq<byte>) -> Option<seq<byte>>,
    decryptOAEP: (PrivateKey, seq<byte>) -> Option<seq<byte>>,
    signPSS: (PrivateKey, seq<byte>, seq<byte>) -> Option<seq<byte>>,
    verifyPSS: (PublicKey, seq<byte>, seq<byte>) -> bool)

  // Authenticated decryption inverts encryption and adds a 16-byte tag
  // (sections 7.1 and 7.2 of NIST SP 800-38D); OAEP decryption inverts OAEP
  // encryption and PSS verification accepts a genuine signature (sections 7.1
  // and 8.1 of RFC 8017), both as long as the RSA modulus.
  ghost predicate Lawful(suite: Suite) {
    && (forall key: seq<byte>, iv: seq<byte>, plain: seq<byte>
          {:trigger suite.open(key, iv, suite.seal(key, iv, plain))} :: |key| == 32 && |iv| == 12 ==>
         suite.open(key, iv, suite.seal(key, iv, plain)) == Some(plain))
    && (forall key: seq<byte>, iv: seq<byte>, plain: seq<byte> {:trigger |suite.seal(key, iv, plain)|} ::
          |suite.seal(key, iv, plain)| == |plain| + 16)
    && (forall id: nat, seed: seq<byte>, msg: seq<byte>, sealed: seq<byte> ::
         suite.encryptOAEP(PublicKey(id), seed, msg) == Some(sealed) ==>
           suite.decryptOAEP(PrivateKey(id), sealed) == Some(msg) && |sealed| <= 0xFFFF_FFFF)
    && (forall id: nat, salt: seq<byte>, digest: seq<byte>, signature: seq<byte> ::
         suite.signPSS(PrivateKey(id), salt, digest) == Some(signature) ==>
           suite.verifyPSS(PublicKey(id), digest, signature) && |signature| <= 0xFFFF_FFFF)
  }

  // A suite without secrecy that meets the contract
  const MaxPlain: nat := 190

  const ZeroTag: seq<byte> := [0, 0, 0, 0, 0, 0, 0, 0, 0, 0, 0, 0, 0, 0, 0, 0]

  function Untag(sealed: seq<byte>): Option<seq<byte>> {
    if |sealed| >= 16 && sealed[|sealed| - 16..] == ZeroTag
    then Some(sealed[..|sealed| - 16])
    else None
  }

  const PlainSuite: Suite := Suite(
    (key, iv, plain) => plain + ZeroTag,
    (key, iv, sealed) => Untag(sealed),
    msg => msg,
    (key, seed, msg) => if |msg| <= MaxPlain then Some(msg) else None,
    (key, sealed) => Some(sealed),
    (key, salt, digest) => if |digest| <= MaxPlain then Some(digest) else None,
    (key, digest, signature) => signature == digest)

  // The contract is satisfiable.
  lemma PlainSuiteLawful()
    ensures Lawful(PlainSuite)
  {
    forall plain: seq<byte> ensures Untag(plain + ZeroTag) == Some(plain) {
      assert (plain + ZeroTag)[|plain|..] == ZeroTag;
    }
  }

  function EncryptSignMsg(suite: Suite, msg: seq<byte>, receiver: PublicKey, sender: PrivateKey, seed: seq<byte>,
                          salt: seq<byte>)
    : Result<(seq<byte>, seq<byte>), Failure>
  {
    match suite.encryptOAEP(receiver, seed, msg)
    case None => Err(EncryptionFailed)
    case Some(sealed) =>
      match suite.signPSS(sender, salt, suite.hash(msg))
      case None => Err(EncryptionFailed)
      case Some(signature) => Ok((sealed, signature))
  }

  function DecryptVerifyMsg(suite: Suite, sealed: seq<byte>, signature: seq<byte>, sender: PublicKey,
                            receiver: PrivateKey)
    : Result<seq<byte>, Failure>
  {
    match suite.decryptOAEP(receiver, sealed)
    case None => Err(DecryptionFailed)
    case Some(msg) =>
      if suite.verifyPSS(sender, suite.hash(msg), signature) then Ok(msg) else Err(BadSignature)
  }

  // A key is read exactly if it decrypts and the signature of its hash verifies
  // under the sender's key; otherwise the first check that fails is the error.
  lemma VerifiedExactly(suite: Suite, sealed: seq<byte>, signature: seq<byte>, sender: PublicKey,
                        receiver: PrivateKey, msg: seq<byte>)
    ensures var r := DecryptVerifyMsg(suite, sealed, signature, sender, receiver);
      var plain := suite.decryptOAEP(receiver, sealed);
      && (r == Ok(msg) <==> plain == Some(msg) && suite.verifyPSS(sender, suite.hash(msg), signature))
      && (r == Err(DecryptionFailed) <==> plain == None)
      && (r == Err(BadSignature) <==> plain.Some? && !suite.verifyPSS(sender, suite.hash(plain.value), signature))
  {
  }

  // What is sent is the encrypted message and the signature of its hash.
  lemma SignedExactly(suite: Suite, msg: seq<byte>, receiver: PublicKey, sender: PrivateKey, seed: seq<byte>,
                      salt: seq<byte>, sealed: seq<byte>, signature: seq<byte>)
    ensures var r := EncryptSignMsg(suite, msg, receiver, sender, seed, salt);
      && (r == Ok((sealed, signature)) <==>
           && suite.encryptOAEP(receiver, seed, msg) == Some(sealed)
           && suite.signPSS(sender, salt, suite.hash(msg)) == Some(signature))
      && (r.Err? ==> r.error == EncryptionFailed)
  {
  }

  // What one peer encrypted and signed, the other one reads.
  lemma SignedMessageRoundTrip(suite: Suite, msg: seq<byte>, receiver: nat, sender: nat, seed: seq<byte>,
                               salt: seq<byte>)
    requires Lawful(suite)
    ensures var sent := EncryptSignMsg(suite, msg, PublicKey(receiver), PrivateKey(sender), seed, salt);
      sent.Ok? ==>
        && DecryptVerifyMsg(suite, sent.value.0, sent.value.1, PublicKey(sender), PrivateKey(receiver)) == Ok(msg)
        && |sent.value.0| <= 0xFFFF_FFFF && |sent.value.1| <= 0xFFFF_FFFF
  {
  }
}
