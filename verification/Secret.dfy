/** Opaque secrets: base64url without padding (section 5 of RFC 4648) over 32 bytes. */
module Secret {
  import opened Wrappers

  type byte = n: int | 0 <= n < 256

  const SECRET_BYTES := 32

  /** A SHA-256 digest, or the random bytes behind a generated secret. */
  type Bytes32 = b: seq<byte> | |b| == SECRET_BYTES witness seq(32, _ => 0)

  /** The SHA-256 function is a parameter; nothing about it is assumed but its output length. */
  type Sha256 = string -> Bytes32

  predicate IsAsciiAlphanumeric(c: char) {
    '0' <= c <= '9' || 'A' <= c <= 'Z' || 'a' <= c <= 'z'
  }

  predicate IsUrlSafe(c: char) { IsAsciiAlphanumeric(c) || c == '-' || c == '_' }

  /** The character for a 6-bit value. */
  function Symbol(v: int): char
    requires 0 <= v < 64
  {
    if v < 26 then ('A' as int + v) as char
    else if v < 52 then ('a' as int + v - 26) as char
    else if v < 62 then ('0' as int + v - 52) as char
    else if v == 62 then '-' else '_'
  }

  /** The 6-bit value of a character, an independent reading of the alphabet table. */
  function SymbolValue(c: char): sextet
    requires IsUrlSafe(c)
  {
    if 'A' <= c <= 'Z' then c as int - 'A' as int
    else if 'a' <= c <= 'z' then c as int - 'a' as int + 26
    else if '0' <= c <= '9' then c as int - '0' as int + 52
    else if c == '-' then 62 else 63
  }

  type sextet = n: int | 0 <= n < 64

  /** Three bytes are four 6-bit values; one or two left over are two or three, zero padded. */
  function Sextets(b: seq<byte>): seq<sextet> {
    if |b| == 0 then []
    else if |b| == 1 then [b[0] / 4, b[0] % 4 * 16]
    else if |b| == 2 then [b[0] / 4, b[0] % 4 * 16 + b[1] / 16, b[1] % 16 * 4]
    else [b[0] / 4, b[0] % 4 * 16 + b[1] / 16, b[1] % 16 * 4 + b[2] / 64, b[2] % 64] + Sextets(b[3..])
  }

  /** The bytes back from the 6-bit values. */
  function Octets(v: seq<sextet>): seq<byte> {
    if |v| < 2 then []
    else
      var first: byte := (v[0] as int) * 4 + v[1] / 16;
      if |v| == 2 then [first]
      else
        var second: byte := (v[1] as int) % 16 * 16 + v[2] / 4;
        if |v| == 3 then [first, second]
        else
          var third: byte := (v[2] as int) % 4 * 64 + v[3];
          [first, second, third] + Octets(v[4..])
  }

  /** `base64url`. */
  function Encode(b: seq<byte>): string {
    var v := Sextets(b);
    seq(|v|, i requires 0 <= i < |v| => Symbol(v[i]))
  }

  /** A decoder, used only to state that no information is lost. */
  function Decode(s: string): Option<seq<byte>> {
    if forall c <- s :: IsUrlSafe(c) then
      Some(Octets(seq(|s|, i requires 0 <= i < |s| => SymbolValue(s[i]))))
    else None
  }

  lemma {:induction false} SextetsOctets(b: seq<byte>)
    ensures |Sextets(b)| == (4 * |b| + 2) / 3
    ensures Octets(Sextets(b)) == b
  {
    if |b| == 1 {
      assert b == [b[0]];
    } else if |b| == 2 {
      SplitByte16(b[0], b[1] / 16);
      assert b == [b[0], b[1]];
    } else if |b| > 2 {
      SplitByte16(b[0], b[1] / 16);
      SplitByte4(b[1], b[2] / 64);
      SextetsOctets(b[3..]);
      assert Sextets(b)[4..] == Sextets(b[3..]);
      assert b == [b[0], b[1], b[2]] + b[3..];
    }
  }

  lemma SplitByte16(x: byte, y: int)
    requires 0 <= y < 16
    ensures x / 4 * 4 + (x % 4 * 16 + y) / 16 == x
    ensures (x % 4 * 16 + y) % 16 == y
  {
  }

  lemma SplitByte4(x: byte, y: int)
    requires 0 <= y < 4
    ensures (x % 16 * 4 + y) / 4 == x % 16
    ensures (x % 16 * 4 + y) % 4 == y
  {
  }

  /** Encoding n bytes gives ceil(4n/3) URL-safe characters that decode back to them. */
  lemma EncodeDecode(b: seq<byte>)
    ensures |Encode(b)| == (4 * |b| + 2) / 3
    ensures forall c <- Encode(b) :: IsUrlSafe(c)
    ensures Decode(Encode(b)) == Some(b)
  {
    SextetsOctets(b);
    var v, s := Sextets(b), Encode(b);
    forall i | 0 <= i < |v|
      ensures IsUrlSafe(s[i]) && SymbolValue(s[i]) == v[i]
    {
      SymbolRoundTrip(v[i]);
    }
    assert seq(|s|, i requires 0 <= i < |s| => SymbolValue(s[i])) == v;
  }

  lemma SymbolRoundTrip(v: sextet)
    ensures IsUrlSafe(Symbol(v)) && SymbolValue(Symbol(v)) == v
  {
  }

  /** `hash_token`. */
  function HashToken(sha: Sha256, token: string): string { Encode(sha(token)) }

  /** Every digest and every generated secret is 43 URL-safe characters, and none is lost. */
  lemma SecretShape(b: Bytes32, c: Bytes32)
    ensures |Encode(b)| == 43 && forall ch <- Encode(b) :: IsUrlSafe(ch)
    ensures Encode(b) == Encode(c) <==> b == c
  {
    EncodeDecode(b);
    EncodeDecode(c);
  }
}

/** PKCE (RFC 7636), S256 only. */
module Pkce {
  import opened Secret
  import opened Text

  const S256 := "S256"
  const S256_CHALLENGE_LEN := 43
  const VERIFIER_MIN_LEN := 43
  const VERIFIER_MAX_LEN := 128

  predicate IsValidS256Challenge(challenge: string) {
    Utf8Len(challenge) == S256_CHALLENGE_LEN && forall c <- challenge :: IsUrlSafe(c)
  }

  predicate IsValidVerifier(verifier: string) {
    && VERIFIER_MIN_LEN <= Utf8Len(verifier) <= VERIFIER_MAX_LEN
    && forall c <- verifier :: IsUrlSafe(c) || c == '.' || c == '~'
  }

  function S256Challenge(sha: Sha256, verifier: string): string { Encode(sha(verifier)) }

  predicate VerifyS256(sha: Sha256, verifier: string, challenge: string) {
    IsValidVerifier(verifier) && S256Challenge(sha, verifier) == challenge
  }

  lemma {:induction false} AsciiLength(s: string)
    requires forall c <- s :: c as int < 0x80
    ensures Utf8Len(s) == |s|
  {
    if s != "" {
      assert s[0] in s;
      assert forall c <- s[1..] :: c in s;
      AsciiLength(s[1..]);
    }
  }

  /** A letter or digit, or one of four marks: the unreserved characters of section 2.3 of RFC 3986. */
  predicate IsUnreserved(c: char) {
    'A' <= c <= 'Z' || 'a' <= c <= 'z' || '0' <= c <= '9' || c == '-' || c == '.' || c == '_' || c == '~'
  }

  /** Exactly the verifiers of section 4.1 of RFC 7636, and challenges of the length of a SHA-256 digest. */
  lemma VerifiersExactly(s: string)
    ensures IsValidVerifier(s) <==> 43 <= |s| <= 128 && forall c <- s :: IsUnreserved(c)
    ensures IsValidS256Challenge(s) <==> |s| == 43 && forall c <- s :: IsUnreserved(c) && c != '.' && c != '~'
  {
    if forall c <- s :: IsUnreserved(c) {
      AsciiLength(s);
    }
  }

  /** The server accepts, as a challenge, everything its own S256 transformation produces. */
  lemma ChallengeIsWellFormed(sha: Sha256, verifier: string)
    ensures IsValidS256Challenge(S256Challenge(sha, verifier))
  {
    SecretShape(sha(verifier), sha(verifier));
    AsciiLength(S256Challenge(sha, verifier));
  }

  /** Every generated secret can serve as a verifier (sections 4.1 and 4.2 of RFC 7636). */
  lemma GeneratedSecretIsVerifier(sha: Sha256, random: Bytes32)
    ensures IsValidVerifier(Encode(random))
    ensures VerifyS256(sha, Encode(random), S256Challenge(sha, Encode(random)))
  {
    SecretShape(random, random);
    AsciiLength(Encode(random));
  }

  /**
   * Against the challenge of `v`, a verifier passes exactly when it is well formed and has the
   * same digest as `v`: base64url adds no further collision and no further check.
   */
  lemma AcceptedExactlyOnEqualDigest(sha: Sha256, v: string, attempt: string)
    ensures VerifyS256(sha, attempt, S256Challenge(sha, v)) <==> IsValidVerifier(attempt) && sha(attempt) == sha(v)
  {
    SecretShape(sha(attempt), sha(v));
  }
}
