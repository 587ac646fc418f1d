/** What an endpoint produces: new tables, a response, and the grant events that happened. */
module Events {
  import opened Schema

  /** `AccessTokenClaims`; `sub` and `jti` are kept as identifiers. */
  datatype AccessClaims = AccessClaims(
    iss: string, sub: Id, aud: string, exp: int, iat: int, jti: Id, clientId: string, scope: string, authTime: int)

  /** `allowed` is what the client was allowed to request when the code was issued. */
  datatype Event =
    | Approved(user: Id, client: Id, scopes: set<string>)
    | CodeIssued(user: Id, client: Id, scopes: set<string>, allowed: set<string>)
    | RefreshIssued(row: Id, family: Id)
    | TokensIssued(user: Id, client: Id, scopes: set<string>, access: AccessClaims)

  datatype Outcome<+R> = Outcome(tables: Tables, response: R, events: seq<Event>)
}
