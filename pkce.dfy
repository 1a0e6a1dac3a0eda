/** The PKCE verifier and challenge of client/src/pages/login.tsx.

    `generateCodeVerifier` draws 32 random bytes and base64url-encodes them without padding;
    the bytes are a parameter here. `generateCodeChallenge` base64url-encodes the characters of
    the verifier the same way. It does not hash them, although the authorization request
    announces `code_challenge_method: "S256"`; `ChallengeIsNotS256` shows that no such
    challenge can match what section 4.2 of RFC 7636 prescribes for S256. */
module Pkce {
  import opened Wrappers
  import opened Base64

  /** `new Uint8Array(32)`: the number of random bytes in a verifier. */
  const VERIFIER_BYTES := 32

  /** The method the authorization request announces. */
  const CHALLENGE_METHOD := "S256"

  /** The length of a verifier: ceil(4 * 32 / 3). */
  const VERIFIER_LENGTH := 43

  /** The length of the challenge of a verifier: ceil(4 * 43 / 3). */
  const CHALLENGE_LENGTH := 58

  /** `generateCodeVerifier`, given the bytes `crypto.getRandomValues` filled in: `btoa` of the
      string with those character codes, then the three replacements. The result is 43
      base64url characters that decode to the random bytes. */
  function GenerateCodeVerifier(random: seq<Byte>): (verifier: string)
    requires |random| == VERIFIER_BYTES
    ensures |verifier| == VERIFIER_LENGTH
    ensures forall i :: 0 <= i < |verifier| ==> IsUrlChar(verifier[i])
    ensures UrlDecode(verifier) == Some(random)
  {
    var binary := FromCharCodes(random);
    CharCodesSpec(random);
    UrlSafeEncode(random);
    UrlEncodeLength(random);
    UrlEncodeAlphabet(random);
    UrlDecodeEncode(random);
    UrlSafe(Btoa(binary).value)
  }

  /** `generateCodeChallenge`: `btoa` of the verifier, then the three replacements. `btoa`
      throws on a character code above 255, so the challenge exists exactly for binary strings;
      it then has ceil(4n/3) base64url characters for an n-character verifier and decodes to
      the verifier's character codes. */
  function GenerateCodeChallenge(verifier: string): (challenge: Option<string>)
    ensures challenge.Some? <==> IsBinary(verifier)
    ensures challenge.Some? ==>
      && |challenge.value| == (4 * |verifier| + 2) / 3
      && (forall i :: 0 <= i < |challenge.value| ==> IsUrlChar(challenge.value[i]))
      && UrlDecode(challenge.value) == Some(CharCodes(verifier))
  {
    match Btoa(verifier)
    case None => None
    case Some(encoded) =>
      var bytes := CharCodes(verifier);
      UrlSafeEncode(bytes);
      UrlEncodeLength(bytes);
      UrlEncodeAlphabet(bytes);
      UrlDecodeEncode(bytes);
      Some(UrlSafe(encoded))
  }

  /** Every verifier has a challenge: 58 base64url characters that decode to the verifier's
      own characters, so the challenge reveals the verifier rather than hiding it. */
  lemma ChallengeOfVerifier(random: seq<Byte>)
    requires |random| == VERIFIER_BYTES
    ensures var verifier := GenerateCodeVerifier(random);
      && GenerateCodeChallenge(verifier).Some?
      && |GenerateCodeChallenge(verifier).value| == CHALLENGE_LENGTH
      && UrlDecode(GenerateCodeChallenge(verifier).value) == Some(CharCodes(verifier))
  {
    var verifier := GenerateCodeVerifier(random);
    assert IsBinary(verifier) by {
      forall i | 0 <= i < |verifier| ensures verifier[i] as int < 256 {
        assert IsUrlChar(verifier[i]);
      }
    }
  }

  /** Distinct random bytes give distinct verifiers. */
  lemma VerifierInjective(r1: seq<Byte>, r2: seq<Byte>)
    requires |r1| == VERIFIER_BYTES && |r2| == VERIFIER_BYTES
    requires GenerateCodeVerifier(r1) == GenerateCodeVerifier(r2)
    ensures r1 == r2
  {
  }

  /** Distinct verifiers give distinct challenges: the challenge is a one-to-one function of
      the verifier. */
  lemma ChallengeInjective(v1: string, v2: string)
    requires GenerateCodeChallenge(v1).Some? && GenerateCodeChallenge(v2).Some?
    requires GenerateCodeChallenge(v1) == GenerateCodeChallenge(v2)
    ensures v1 == v2
  {
    CharCodesInjective(v1, v2);
  }

  /** The challenge RFC 7636 (section 4.2) prescribes for the S256 method, given the SHA-256
      digest of the verifier's ASCII bytes (computing the digest is not part of this model):
      the same base64url chain applied to the 32 digest bytes. It has 43 characters and decodes
      to the digest. */
  function S256Challenge(digest: seq<Byte>): (challenge: string)
    requires |digest| == 32
    ensures |challenge| == 43
    ensures forall i :: 0 <= i < |challenge| ==> IsUrlChar(challenge[i])
    ensures UrlDecode(challenge) == Some(digest)
  {
    CharCodesSpec(digest);
    UrlSafeEncode(digest);
    UrlEncodeLength(digest);
    UrlEncodeAlphabet(digest);
    UrlDecodeEncode(digest);
    UrlSafe(Btoa(FromCharCodes(digest)).value)
  }

  /** Whatever the random bytes and whatever the digest, the challenge the code sends with
      `CHALLENGE_METHOD` differs from the S256 challenge of the verifier (58 characters against
      43), so a server that checks the announced method rejects every exchange. */
  lemma ChallengeIsNotS256(random: seq<Byte>, digest: seq<Byte>)
    requires |random| == VERIFIER_BYTES && |digest| == 32
    ensures GenerateCodeChallenge(GenerateCodeVerifier(random)).Some?
    ensures GenerateCodeChallenge(GenerateCodeVerifier(random)).value != S256Challenge(digest)
  {
    ChallengeOfVerifier(random);
  }
}
