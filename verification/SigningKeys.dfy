/** `pkg/jwt_manager.rs`: loading, selecting and rotating signing keys. */
module SigningKeys {
  import opened Wrappers
  import opened Text
  import opened Schema
  import opened Events
  import opened Secret
  import T = TokenEndpoint

  /** An RSA key pair; a token verifies under exactly the pair that signed it. */
  type KeyPair = nat

  datatype Key = Key(kid: string, pair: KeyPair)

  datatype KeySet = KeySet(keys: seq<Key>, active: nat)

  datatype LoadError = InvalidKid(kid: string) | NotAKey(kid: string) | UnknownActiveKid(kid: string) | NoKeys

  /** (kid, PEM text) */
  type Pems = seq<(string, string)>

  predicate IsKid(kid: string) {
    kid != "" && forall c <- kid :: IsAsciiAlphanumeric(c) || c == '-' || c == '_' || c == '.'
  }

  // ------------------------------------------------------------- loading

  function InsertSorted(p: (string, string), sorted: Pems): Pems {
    if sorted == [] then [p]
    else if Less(sorted[0].0, p.0) then [sorted[0]] + InsertSorted(p, sorted[1..])
    else [p] + sorted
  }

  /** A stable sort by kid. */
  function SortByKid(pems: Pems): Pems {
    if pems == [] then [] else InsertSorted(pems[0], SortByKid(pems[1..]))
  }

  ghost predicate SortedByKid(pems: Pems) {
    forall i, j :: 0 <= i < j < |pems| ==> !Less(pems[j].0, pems[i].0)
  }

  lemma {:induction false} InsertSortedMeaning(p: (string, string), sorted: Pems)
    requires SortedByKid(sorted)
    ensures SortedByKid(InsertSorted(p, sorted))
    ensures multiset(InsertSorted(p, sorted)) == multiset{p} + multiset(sorted)
  {
    if sorted != [] {
      assert sorted == [sorted[0]] + sorted[1..];
      if Less(sorted[0].0, p.0) {
        LessAsymmetric(sorted[0].0, p.0);
        InsertSortedMeaning(p, sorted[1..]);
        var r := InsertSorted(p, sorted[1..]);
        assert InsertSorted(p, sorted) == [sorted[0]] + r;
        forall j | 0 <= j < |r| ensures !Less(r[j].0, sorted[0].0) {
          assert r[j] in multiset(r);
          if r[j] != p {
            assert r[j] in sorted[1..];
          }
        }
      } else {
        forall j | 0 <= j < |sorted| ensures !Less(sorted[j].0, p.0) {
          if Less(sorted[j].0, p.0) {
            LessTotal(sorted[0].0, p.0);
            LessTotal(sorted[0].0, sorted[j].0);
            if j > 0 && sorted[0].0 != p.0 {
              LessTransitive(sorted[j].0, p.0, sorted[0].0);
            }
          }
        }
      }
    }
  }

  lemma {:induction false} SortByKidMeaning(pems: Pems)
    ensures SortedByKid(SortByKid(pems))
    ensures multiset(SortByKid(pems)) == multiset(pems)
  {
    if pems != [] {
      assert pems == [pems[0]] + pems[1..];
      SortByKidMeaning(pems[1..]);
      InsertSortedMeaning(pems[0], SortByKid(pems[1..]));
    }
  }

  /** The keys of already sorted PEMs; the first bad entry decides the error. */
  function Parsed(parsePem: string -> Option<KeyPair>, pems: Pems): Result<seq<Key>, LoadError> {
    if pems == [] then Ok([])
    else
      var last := pems[|pems| - 1];
      match Parsed(parsePem, pems[..|pems| - 1])
      case Err(e) => Err(e)
      case Ok(keys) =>
        if !IsKid(last.0) then Err(InvalidKid(last.0))
        else if parsePem(last.1).None? then Err(NotAKey(last.0))
        else Ok(keys + [Key(last.0, parsePem(last.1).value)])
  }

  /** The position of the first key with a kid. */
  function FindKid(keys: seq<Key>, kid: string): (r: Option<nat>)
    ensures r.Some? ==>
              && r.value < |keys| && keys[r.value].kid == kid
              && forall i :: 0 <= i < r.value ==> keys[i].kid != kid
    ensures r.None? ==> forall i :: 0 <= i < |keys| ==> keys[i].kid != kid
  {
    if keys == [] then None
    else if keys[0].kid == kid then Some(0)
    else
      var rest := FindKid(keys[1..], kid);
      if rest.None? then None else Some(rest.value + 1)
  }

  /** What `from_pems` returns. */
  function Loaded(parsePem: string -> Option<KeyPair>, pems: Pems,
                  activeKid: Option<string>): Result<KeySet, LoadError> {
    match Parsed(parsePem, SortByKid(pems))
    case Err(e) => Err(e)
    case Ok(keys) =>
      if activeKid.Some? then
        var at := FindKid(keys, activeKid.value);
        if at.None? then Err(UnknownActiveKid(activeKid.value)) else Ok(KeySet(keys, at.value))
      else if keys == [] then Err(NoKeys)
      else Ok(KeySet(keys, |keys| - 1))
  }

  /** `from_pems`: sort, then push key by key. */
  method FromPems(parsePem: string -> Option<KeyPair>, pems: Pems, activeKid: Option<string>)
    returns (r: Result<KeySet, LoadError>)
    ensures r == Loaded(parsePem, pems, activeKid)
  {
    var sorted := SortByKid(pems);
    var keys: seq<Key> := [];
    for i := 0 to |sorted|
      invariant Parsed(parsePem, sorted[..i]) == Ok(keys)
    {
      assert sorted[..i + 1][..i] == sorted[..i];
      var (kid, pem) := sorted[i];
      var pair := parsePem(pem);
      if !IsKid(kid) {
        LoadErrorSticks(parsePem, sorted, i + 1);
        return Err(InvalidKid(kid));
      }
      if pair.None? {
        LoadErrorSticks(parsePem, sorted, i + 1);
        return Err(NotAKey(kid));
      }
      keys := keys + [Key(kid, pair.value)];
    }
    assert sorted[..|sorted|] == sorted;
    if activeKid.Some? {
      var at := FindKid(keys, activeKid.value);
      if at.None? { return Err(UnknownActiveKid(activeKid.value)); }
      return Ok(KeySet(keys, at.value));
    }
    if keys == [] { return Err(NoKeys); }
    return Ok(KeySet(keys, |keys| - 1));
  }

  lemma {:induction false} LoadErrorSticks(parsePem: string -> Option<KeyPair>, pems: Pems, n: nat)
    requires n <= |pems| && Parsed(parsePem, pems[..n]).Err?
    ensures Parsed(parsePem, pems) == Parsed(parsePem, pems[..n])
  {
    if n < |pems| {
      assert pems[..|pems| - 1][..n] == pems[..n];
      LoadErrorSticks(parsePem, pems[..|pems| - 1], n);
    } else {
      assert pems[..n] == pems;
    }
  }

  lemma {:induction false} ParsedMeaning(parsePem: string -> Option<KeyPair>, pems: Pems)
    ensures Parsed(parsePem, pems).Ok? <==> forall p <- pems :: IsKid(p.0) && parsePem(p.1).Some?
    ensures Parsed(parsePem, pems).Ok? ==>
              && |Parsed(parsePem, pems).value| == |pems|
              && forall i ::
                   0 <= i < |pems| ==> Parsed(parsePem, pems).value[i] == Key(pems[i].0, parsePem(pems[i].1).value)
  {
    if pems != [] {
      var n := |pems| - 1;
      assert pems == pems[..n] + [pems[n]];
      ParsedMeaning(parsePem, pems[..n]);
    }
  }

  predicate Loadable(parsePem: string -> Option<KeyPair>, pems: Pems) {
    forall p <- pems :: IsKid(p.0) && parsePem(p.1).Some?
  }

  /** The keys are those of the PEMs, one each. */
  ghost predicate KeysOf(parsePem: string -> Option<KeyPair>, pems: Pems, keys: seq<Key>)
    requires Loadable(parsePem, pems)
  {
    && |keys| == |pems|
    && (forall p <- pems :: Key(p.0, parsePem(p.1).value) in keys)
    && (forall key <- keys :: exists p :: p in pems && key == Key(p.0, parsePem(p.1).value))
  }

  lemma SortedPems(pems: Pems)
    ensures SortedByKid(SortByKid(pems)) && |SortByKid(pems)| == |pems|
    ensures forall p :: p in pems <==> p in SortByKid(pems)
  {
    var sorted := SortByKid(pems);
    SortByKidMeaning(pems);
    assert |sorted| == |multiset(sorted)| == |multiset(pems)| == |pems|;
    forall p ensures p in pems <==> p in sorted {
      assert p in multiset(pems) <==> p in multiset(sorted);
    }
  }

  /** The parsed keys are those of the PEMs, and no PEM has a greater kid than the last key. */
  lemma ParsedKeys(parsePem: string -> Option<KeyPair>, pems: Pems)
    requires Loadable(parsePem, pems)
    ensures Parsed(parsePem, SortByKid(pems)).Ok?
    ensures var keys := Parsed(parsePem, SortByKid(pems)).value;
            && KeysOf(parsePem, pems, keys)
            && forall p <- pems :: !Less(keys[|keys| - 1].kid, p.0)
  {
    var sorted := SortByKid(pems);
    SortedPems(pems);
    ParsedMeaning(parsePem, sorted);
    var keys := Parsed(parsePem, sorted).value;
    forall p | p in pems
      ensures Key(p.0, parsePem(p.1).value) in keys && !Less(keys[|keys| - 1].kid, p.0)
    {
      var i :| 0 <= i < |sorted| && sorted[i] == p;
      assert keys[i] == Key(p.0, parsePem(p.1).value);
      LessIrreflexive(p.0);
    }
    forall key | key in keys ensures exists p :: p in pems && key == Key(p.0, parsePem(p.1).value) {
      var i :| 0 <= i < |keys| && keys[i] == key;
      assert sorted[i] in pems;
    }
  }

  /** Loading succeeds exactly when every kid and PEM is good and there is a key to make active. */
  lemma LoadsExactly(parsePem: string -> Option<KeyPair>, pems: Pems, activeKid: Option<string>)
    ensures Loaded(parsePem, pems, activeKid).Ok? <==>
            && Loadable(parsePem, pems)
            && (if activeKid.Some? then exists p :: p in pems && p.0 == activeKid.value else pems != [])
  {
    SortedPems(pems);
    ParsedMeaning(parsePem, SortByKid(pems));
    if Loadable(parsePem, pems) {
      ParsedKeys(parsePem, pems);
      var keys := Parsed(parsePem, SortByKid(pems)).value;
      assert activeKid.Some? && (exists p :: p in pems && p.0 == activeKid.value) ==>
               exists key :: key in keys && key.kid == activeKid.value by {
        if p :| activeKid.Some? && p in pems && p.0 == activeKid.value {
          assert Key(p.0, parsePem(p.1).value) in keys;
        }
      }
      if activeKid.Some? && FindKid(keys, activeKid.value).Some? {
        assert keys[FindKid(keys, activeKid.value).value] in keys;
      }
    }
  }

  /**
   * Every PEM is loaded, and nothing else. The active key is the one asked for or, by default,
   * one whose kid no other kid exceeds.
   */
  lemma LoadedKeys(parsePem: string -> Option<KeyPair>, pems: Pems, activeKid: Option<string>)
    requires Loaded(parsePem, pems, activeKid).Ok?
    ensures Loadable(parsePem, pems)
    ensures var loaded := Loaded(parsePem, pems, activeKid).value;
            && KeysOf(parsePem, pems, loaded.keys)
            && loaded.active < |loaded.keys|
            && (activeKid.Some? ==> loaded.keys[loaded.active].kid == activeKid.value)
            && (activeKid.None? ==> forall p <- pems :: !Less(loaded.keys[loaded.active].kid, p.0))
  {
    LoadsExactly(parsePem, pems, activeKid);
    ParsedKeys(parsePem, pems);
  }

  // ------------------------------------------------------------- signing and verifying

  datatype Jwt = Jwt(typ: Option<string>, kid: Option<string>, claims: AccessClaims, signedBy: KeyPair)

  datatype VerifyError = UnknownKey | WrongType | Invalid

  const ACCESS_TOKEN_TYPE := "at+jwt"
  const ID_TOKEN_TYPE := "JWT"

  function Lower(c: char): char {
    if 'A' <= c <= 'Z' then (c as int + 32) as char else c
  }

  predicate EqIgnoreAsciiCase(a: string, b: string) {
    |a| == |b| && forall i :: 0 <= i < |a| ==> Lower(a[i]) == Lower(b[i])
  }

  function Sign(loaded: KeySet, typ: string, claims: AccessClaims): Jwt
    requires loaded.active < |loaded.keys|
  {
    var key := loaded.keys[loaded.active];
    Jwt(Some(typ), Some(key.kid), claims, key.pair)
  }

  /** The checks on registered claims: a token expires when the second `exp` is over. */
  predicate ClaimsValid(claims: AccessClaims, issuer: string, now: Time) {
    claims.iss == issuer && claims.aud == issuer && Timestamp(now) <= claims.exp
  }

  /** `verify`: type, then key by kid, then signature and claims. */
  function Verify(loaded: KeySet, token: Jwt, expectedTyp: string, issuer: string,
                  now: Time): Result<AccessClaims, VerifyError> {
    if token.typ.None? || !EqIgnoreAsciiCase(token.typ.value, expectedTyp) then Err(WrongType)
    else if token.kid.None? then Err(UnknownKey)
    else
      var at := FindKid(loaded.keys, token.kid.value);
      if at.None? then Err(UnknownKey)
      else if token.signedBy != loaded.keys[at.value].pair then Err(Invalid)
      else if !ClaimsValid(token.claims, issuer, now) then Err(Invalid)
      else Ok(token.claims)
  }

  /** An ID token is never accepted as an access token, whatever it claims and whoever signed it. */
  lemma IdTokenIsNotAnAccessToken(loaded: KeySet, signer: KeySet, claims: AccessClaims, issuer: string, now: Time)
    requires signer.active < |signer.keys|
    ensures Verify(loaded, Sign(signer, ID_TOKEN_TYPE, claims), ACCESS_TOKEN_TYPE, issuer, now) == Err(WrongType)
  {
    assert |ID_TOKEN_TYPE| != |ACCESS_TOKEN_TYPE|;
  }

  /**
   * A key set accepts a token exactly when the first key with the token's kid is the pair that
   * signed it and the claims are valid. With a duplicated kid, the set may reject its own tokens.
   */
  lemma AcceptedExactly(loaded: KeySet, signer: KeySet, claims: AccessClaims, issuer: string, now: Time)
    requires signer.active < |signer.keys|
    ensures Verify(loaded, Sign(signer, ACCESS_TOKEN_TYPE, claims), ACCESS_TOKEN_TYPE, issuer, now) == Ok(claims)
            <==> claims.iss == issuer && claims.aud == issuer && Timestamp(now) <= claims.exp
                 && exists i :: 0 <= i < |loaded.keys| && loaded.keys[i] == signer.keys[signer.active]
                                && forall j :: 0 <= j < i ==> loaded.keys[j].kid != signer.keys[signer.active].kid
  {
    var at := FindKid(loaded.keys, signer.keys[signer.active].kid);
    assert EqIgnoreAsciiCase(ACCESS_TOKEN_TYPE, ACCESS_TOKEN_TYPE);
    if at.Some? && loaded.keys[at.value].pair == signer.keys[signer.active].pair {
      assert loaded.keys[at.value] == signer.keys[signer.active];
    }
  }

  // ------------------------------------------------------------- rotation

  /** One start of the server: when, and with which keys. It runs until the next start. */
  datatype Epoch = Epoch(start: Time, keys: KeySet)

  type Deployment = seq<Epoch>

  ghost predicate DistinctKids(keys: seq<Key>) {
    forall i, j :: 0 <= i < j < |keys| ==> keys[i].kid != keys[j].kid
  }

  /** A kid never names two key pairs. */
  ghost predicate KidsAreUnambiguous(d: Deployment) {
    && (forall i :: 0 <= i < |d| ==> DistinctKids(d[i].keys.keys))
    && (forall i, j, a, b ::
        0 <= i < |d| && 0 <= j < |d| && a in d[i].keys.keys && b in d[j].keys.keys && a.kid == b.kid ==> a == b)
  }

  /** Restarts go forward in time, and each has an active key. */
  ghost predicate WellFormed(d: Deployment) {
    && (forall i, j :: 0 <= i < j < |d| ==> d[i].start < d[j].start)
    && (forall i :: 0 <= i < |d| ==> d[i].keys.active < |d[i].keys.keys|)
    && KidsAreUnambiguous(d)
  }

  function ActiveKey(e: Epoch): Key
    requires e.keys.active < |e.keys.keys|
  {
    e.keys.keys[e.keys.active]
  }

  predicate Running(d: Deployment, i: nat, t: Time) {
    i < |d| && d[i].start <= t && (i + 1 < |d| ==> t < d[i + 1].start)
  }

  /** The access token signed at time t, with whatever other claims. */
  function IssuedAt(e: Epoch, claims: AccessClaims, t: Time): Jwt
    requires e.keys.active < |e.keys.keys|
  {
    Sign(e.keys, ACCESS_TOKEN_TYPE, claims.(exp := Timestamp(t + T.ACCESS_TOKEN_TTL), iat := Timestamp(t)))
  }

  /** At t', in epoch j, the server accepts the access token it signed at t, in epoch i. */
  ghost predicate Accepts(d: Deployment, issuer: string, claims: AccessClaims, i: nat, t: Time, j: nat, t': Time)
    requires WellFormed(d) && i < |d| && j < |d|
  {
    var token := IssuedAt(d[i], claims, t);
    Verify(d[j].keys, token, ACCESS_TOKEN_TYPE, issuer, t') == Ok(token.claims)
  }

  /** A token of the server is accepted exactly while its key is loaded and its last second is not over. */
  lemma AcceptsExactly(d: Deployment, issuer: string, claims: AccessClaims, i: nat, t: Time, j: nat, t': Time)
    requires WellFormed(d) && i < |d| && j < |d| && claims.iss == issuer && claims.aud == issuer
    ensures Accepts(d, issuer, claims, i, t, j, t')
            <==> ActiveKey(d[i]) in d[j].keys.keys && Timestamp(t') <= Timestamp(t + T.ACCESS_TOKEN_TTL)
  {
    var keys, key := d[j].keys.keys, ActiveKey(d[i]);
    assert key in d[i].keys.keys;
    forall k | 0 <= k < |keys| && keys[k].kid == key.kid ensures keys[k] == key {
      assert keys[k] in keys;
    }
    assert EqIgnoreAsciiCase(ACCESS_TOKEN_TYPE, ACCESS_TOKEN_TYPE);
  }

  /** Every token whose expiry lies in the future verifies under the keys then loaded. */
  ghost predicate UnexpiredTokensVerify(d: Deployment, issuer: string, claims: AccessClaims)
    requires WellFormed(d)
  {
    forall i: nat, t, j: nat, t' ::
      Running(d, i, t) && Running(d, j, t') && t <= t' && t' < Timestamp(t + T.ACCESS_TOKEN_TTL) * SECOND ==>
        Accepts(d, issuer, claims, i, t, j, t')
  }

  /**
   * A key that was active in epoch i is missing from a start no earlier than the expiry of the last token it
   * could have signed.
   */
  ghost predicate Retained(d: Deployment)
    requires WellFormed(d)
  {
    forall i, j :: 0 <= i < j < |d| && ActiveKey(d[i]) !in d[j].keys.keys ==> LastExpiry(d, i) * SECOND <= d[j].start
  }

  /** The `exp` of a token signed in the last microsecond of epoch i. */
  function LastExpiry(d: Deployment, i: nat): int
    requires i + 1 < |d|
  {
    Timestamp(d[i + 1].start - 1 + T.ACCESS_TOKEN_TTL)
  }

  lemma TimestampMonotone(a: Time, b: Time)
    requires a <= b
    ensures Timestamp(a) <= Timestamp(b)
  {
  }

  /**
   * Key rotation: over every sequence of restarts, all tokens whose expiry lies in the future
   * keep verifying exactly when keys are retained that long.
   */
  lemma RotationKeepsTokensValid(d: Deployment, issuer: string, claims: AccessClaims)
    requires WellFormed(d) && claims.iss == issuer && claims.aud == issuer
    ensures Retained(d) <==> UnexpiredTokensVerify(d, issuer, claims)
  {
    hide Accepts, KidsAreUnambiguous;
    if Retained(d) {
      forall i: nat, t, j: nat, t' |
          Running(d, i, t) && Running(d, j, t') && t <= t' && t' < Timestamp(t + T.ACCESS_TOKEN_TTL) * SECOND
        ensures Accepts(d, issuer, claims, i, t, j, t')
      {
        assert i <= j;
        if i < j {
          TimestampMonotone(t + T.ACCESS_TOKEN_TTL, d[i + 1].start - 1 + T.ACCESS_TOKEN_TTL);
        }
        AcceptsExactly(d, issuer, claims, i, t, j, t');
      }
    }
    if UnexpiredTokensVerify(d, issuer, claims) {
      forall i, j | 0 <= i < j < |d| && ActiveKey(d[i]) !in d[j].keys.keys
        ensures LastExpiry(d, i) * SECOND <= d[j].start
      {
        var last := d[i + 1].start - 1;
        assert Running(d, i, last) && Running(d, j, d[j].start);
        AcceptsExactly(d, issuer, claims, i, last, j, d[j].start);
      }
    }
  }

  /** The documented procedure: a key stays for fifteen minutes after it stopped being active. */
  ghost predicate KeptFifteenMinutes(d: Deployment)
    requires WellFormed(d)
  {
    forall i, j :: 0 <= i < j < |d| && ActiveKey(d[i]) !in d[j].keys.keys ==>
             d[i + 1].start + T.ACCESS_TOKEN_TTL <= d[j].start
  }

  /** The documented procedure is enough for that. */
  lemma DocumentedProcedureSuffices(d: Deployment, issuer: string, claims: AccessClaims)
    requires WellFormed(d) && KeptFifteenMinutes(d) && claims.iss == issuer && claims.aud == issuer
    ensures UnexpiredTokensVerify(d, issuer, claims)
  {
    forall i, j | 0 <= i < j < |d| && ActiveKey(d[i]) !in d[j].keys.keys
      ensures LastExpiry(d, i) * SECOND <= d[j].start
    {
      assert LastExpiry(d, i) * SECOND <= d[i + 1].start - 1 + T.ACCESS_TOKEN_TTL;
    }
    RotationKeepsTokensValid(d, issuer, claims);
  }

  // ------------------------------------------------------------- the last second

  /** Every token the claims check would still accept verifies: one second more than its `exp` says. */
  ghost predicate AcceptableTokensVerify(d: Deployment, issuer: string, claims: AccessClaims)
    requires WellFormed(d)
  {
    forall i: nat, t, j: nat, t' ::
      Running(d, i, t) && Running(d, j, t') && t <= t' && Timestamp(t') <= Timestamp(t + T.ACCESS_TOKEN_TTL) ==>
        Accepts(d, issuer, claims, i, t, j, t')
  }

  ghost predicate RetainedThroughLastSecond(d: Deployment)
    requires WellFormed(d)
  {
    forall i, j :: 0 <= i < j < |d| && ActiveKey(d[i]) !in d[j].keys.keys ==> LastExpiry(d, i) < Timestamp(d[j].start)
  }

  /** What retention the whole acceptance window needs. */
  lemma RotationKeepsTokensAcceptable(d: Deployment, issuer: string, claims: AccessClaims)
    requires WellFormed(d) && claims.iss == issuer && claims.aud == issuer
    ensures RetainedThroughLastSecond(d) <==> AcceptableTokensVerify(d, issuer, claims)
  {
    hide Accepts, KidsAreUnambiguous;
    if RetainedThroughLastSecond(d) {
      forall i: nat, t, j: nat, t' |
          Running(d, i, t) && Running(d, j, t') && t <= t' && Timestamp(t') <= Timestamp(t + T.ACCESS_TOKEN_TTL)
        ensures Accepts(d, issuer, claims, i, t, j, t')
      {
        assert i <= j;
        TimestampMonotone(d[j].start, t');
        if i < j {
          TimestampMonotone(t + T.ACCESS_TOKEN_TTL, d[i + 1].start - 1 + T.ACCESS_TOKEN_TTL);
        }
        AcceptsExactly(d, issuer, claims, i, t, j, t');
      }
    }
    if AcceptableTokensVerify(d, issuer, claims) {
      forall i, j | 0 <= i < j < |d| && ActiveKey(d[i]) !in d[j].keys.keys
        ensures LastExpiry(d, i) < Timestamp(d[j].start)
      {
        var last := d[i + 1].start - 1;
        assert Running(d, i, last) && Running(d, j, d[j].start);
        AcceptsExactly(d, issuer, claims, i, last, j, d[j].start);
      }
    }
  }

  const OLD_KEY := Key("k1", 1)
  const NEW_KEY := Key("k2", 2)

  /** Two restarts, half a second off the clock tick: the old key goes after exactly fifteen minutes. */
  const PROMPT: Deployment := [
    Epoch(0, KeySet([OLD_KEY], 0)),
    Epoch(SECOND / 2, KeySet([OLD_KEY, NEW_KEY], 1)),
    Epoch(SECOND / 2 + T.ACCESS_TOKEN_TTL, KeySet([NEW_KEY], 0))]

  lemma PromptIsWellFormed()
    ensures WellFormed(PROMPT)
  {
    forall i | 0 <= i < |PROMPT|
      ensures DistinctKids(PROMPT[i].keys.keys)
      ensures forall key <- PROMPT[i].keys.keys :: key == OLD_KEY || key == NEW_KEY
    {
      if i == 0 {
        assert PROMPT[i].keys.keys == [OLD_KEY];
      } else if i == 1 {
        assert PROMPT[i].keys.keys == [OLD_KEY, NEW_KEY];
      } else {
        assert PROMPT[i].keys.keys == [NEW_KEY];
      }
    }
    assert OLD_KEY.kid[1] != NEW_KEY.kid[1];
  }

  /**
   * Fifteen minutes are not enough for a token in its last second, which the claims check still
   * accepts: the documentation calls it expired, the code does not.
   */
  lemma FifteenMinutesMissTheLastSecond(issuer: string, claims: AccessClaims)
    requires claims.iss == issuer && claims.aud == issuer
    ensures WellFormed(PROMPT) && KeptFifteenMinutes(PROMPT)
    ensures !AcceptableTokensVerify(PROMPT, issuer, claims)
  {
    PromptIsWellFormed();
    hide KidsAreUnambiguous, AcceptableTokensVerify;
    assert ActiveKey(PROMPT[0]) == OLD_KEY && ActiveKey(PROMPT[1]) == NEW_KEY;
    assert ActiveKey(PROMPT[0]) !in PROMPT[2].keys.keys;
    assert LastExpiry(PROMPT, 0) == Timestamp(PROMPT[2].start);
    RotationKeepsTokensAcceptable(PROMPT, issuer, claims);
  }
}
