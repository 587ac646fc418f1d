/** The tables of `migrations/`, and what the database itself guarantees about them. */
module Schema {
  import opened Wrappers
  import opened Secret

  /** A UUID. */
  type Id = nat

  /** Microseconds since the Unix epoch, the resolution of TIMESTAMPTZ. */
  type Time = int

  const SECOND: Time := 1_000_000

  /** `DateTime::timestamp`: whole seconds, rounded down (the divisor is positive). */
  function Timestamp(t: Time): int { t / SECOND }

  /** `TimeDelta::num_seconds`: whole seconds, truncated toward zero. */
  function WholeSeconds(d: Time): int { if d >= 0 then d / SECOND else -(-d / SECOND) }

  datatype Client = Client(
    id: Id,
    clientId: string,
    secretHash: Option<string>,
    name: string,
    redirectUris: seq<string>,
    allowedScopes: seq<string>,
    createdAt: Time,
    updatedAt: Time,
    disabledAt: Option<Time>,
    owner: Option<Id>)
  {
    predicate IsConfidential() { secretHash.Some? }
    predicate IsActive() { disabledAt.None? }
    predicate HasRedirectUri(uri: string) { uri in redirectUris }
    function AllowedScopes(): set<string> { set s | s in allowedScopes }
  }

  datatype Consent = Consent(scopes: seq<string>, createdAt: Time, updatedAt: Time, revokedAt: Option<Time>)

  datatype Code = Code(
    id: Id,
    codeHash: string,
    clientId: Id,
    userId: Id,
    redirectUri: string,
    scope: string,
    codeChallenge: string,
    codeChallengeMethod: string,
    nonce: Option<string>,
    authTime: Time,
    expiresAt: Time,
    createdAt: Time,
    usedAt: Option<Time>)

  datatype RefreshToken = RefreshToken(
    id: Id,
    tokenHash: string,
    familyId: Id,
    codeId: Option<Id>,
    clientId: Id,
    userId: Id,
    scope: string,
    authTime: Time,
    expiresAt: Time,
    createdAt: Time,
    revokedAt: Option<Time>,
    rotatedTo: Option<Id>)

  /** Consents are keyed by their UNIQUE pair (user, client). */
  datatype Tables = Tables(
    clients: map<Id, Client>,
    consents: map<(Id, Id), Consent>,
    codes: map<Id, Code>,
    tokens: map<Id, RefreshToken>)

  /** What a URL parser reports about an absolute URL. */
  datatype Url = Url(scheme: string, username: string, password: Option<string>, fragment: Option<string>,
                     loopback: bool)

  /** Configuration, the scope registry, and the foreign functions the server calls. */
  datatype Env = Env(issuer: string, registry: set<string>, sha256: Sha256, parseUrl: string -> Option<Url>)

  /** Values drawn from the random generator for one request. */
  datatype Fresh = Fresh(rowId: Id, secret: string, familyId: Id, jti: Id)

  // PRIMARY KEY, UNIQUE and REFERENCES clauses.

  ghost predicate ClientKeys(t: Tables) {
    && (forall id :: id in t.clients ==> t.clients[id].id == id)
    && (forall a, b :: a in t.clients && b in t.clients && t.clients[a].clientId == t.clients[b].clientId ==> a == b)
  }

  ghost predicate ConsentKeys(t: Tables) {
    forall key :: key in t.consents ==> key.1 in t.clients
  }

  ghost predicate CodeKeys(t: Tables) {
    && (forall id :: id in t.codes ==> t.codes[id].id == id && t.codes[id].clientId in t.clients)
    && (forall a, b :: a in t.codes && b in t.codes && t.codes[a].codeHash == t.codes[b].codeHash ==> a == b)
  }

  ghost predicate TokenReferences(t: Tables, row: RefreshToken) {
    && row.clientId in t.clients
    && (row.codeId.Some? ==> row.codeId.value in t.codes)
    && (row.rotatedTo.Some? ==> row.rotatedTo.value in t.tokens)
  }

  ghost predicate TokenKeys(t: Tables) {
    && (forall id :: id in t.tokens ==> t.tokens[id].id == id && TokenReferences(t, t.tokens[id]))
    && (forall a, b :: a in t.tokens && b in t.tokens && t.tokens[a].tokenHash == t.tokens[b].tokenHash ==> a == b)
  }

  /** Every constraint the schema declares. */
  ghost predicate Constraints(t: Tables) {
    ClientKeys(t) && ConsentKeys(t) && CodeKeys(t) && TokenKeys(t)
  }
}
