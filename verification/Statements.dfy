/** The SQL statements of the `repo` modules, as functions on the tables. */
module Statements {
  import opened Wrappers
  import opened Schema

  datatype DbErr = ConstraintViolation

  // ------------------------------------------------------------- lookups

  ghost function ClientByName(t: Tables, clientId: string): Option<Client> {
    if exists id :: id in t.clients && t.clients[id].clientId == clientId then
      var id :| id in t.clients && t.clients[id].clientId == clientId;
      Some(t.clients[id])
    else None
  }

  /** Ownership is part of the query, so a foreign client looks like a missing one. */
  ghost function OwnedClient(t: Tables, owner: Id, clientId: string): Option<Client> {
    var found := ClientByName(t, clientId);
    if found.Some? && found.value.owner == Some(owner) then found else None
  }

  function ClientsOwnedBy(t: Tables, owner: Id): set<Id> {
    set id | id in t.clients && t.clients[id].owner == Some(owner)
  }

  ghost function CodeByHash(t: Tables, hash: string): Option<Code> {
    if exists id :: id in t.codes && t.codes[id].codeHash == hash then
      var id :| id in t.codes && t.codes[id].codeHash == hash;
      Some(t.codes[id])
    else None
  }

  ghost function TokenByHash(t: Tables, hash: string): Option<RefreshToken> {
    if exists id :: id in t.tokens && t.tokens[id].tokenHash == hash then
      var id :| id in t.tokens && t.tokens[id].tokenHash == hash;
      Some(t.tokens[id])
    else None
  }

  /** Consents that were revoked are ignored. */
  function ActiveConsent(t: Tables, user: Id, client: Id): Option<seq<string>> {
    if (user, client) in t.consents && t.consents[(user, client)].revokedAt.None?
    then Some(t.consents[(user, client)].scopes) else None
  }

  // ------------------------------------------------------------- clients

  function InsertClient(t: Tables, c: Client): Result<Tables, DbErr> {
    if c.id in t.clients || exists id :: id in t.clients && t.clients[id].clientId == c.clientId
    then Err(ConstraintViolation)
    else Ok(t.(clients := t.clients[c.id := c]))
  }

  function UpdateClientDetails(t: Tables, id: Id, name: string, uris: seq<string>, scopes: seq<string>,
                               now: Time): Tables {
    if id !in t.clients then t
    else t.(clients :=
            t.clients[id :=
                      t.clients[id].(name := name, redirectUris := uris, allowedScopes := scopes, updatedAt := now)])
  }

  function UpdateClientSecret(t: Tables, id: Id, hash: string, now: Time): Tables {
    if id !in t.clients then t
    else t.(clients := t.clients[id := t.clients[id].(secretHash := Some(hash), updatedAt := now)])
  }

  /** ON DELETE SET NULL for the code a surviving token came from. */
  function Detached(row: RefreshToken, codes: map<Id, Code>): RefreshToken {
    if row.codeId.Some? && row.codeId.value !in codes then row.(codeId := None) else row
  }

  function CodesWithout(t: Tables, client: Id): map<Id, Code> {
    map k | k in t.codes && t.codes[k].clientId != client :: t.codes[k]
  }

  function ConsentsWithout(t: Tables, client: Id): map<(Id, Id), Consent> {
    map key | key in t.consents && key.1 != client :: t.consents[key]
  }

  function TokensWithout(t: Tables, client: Id): map<Id, RefreshToken> {
    map k | k in t.tokens && t.tokens[k].clientId != client :: Detached(t.tokens[k], CodesWithout(t, client))
  }

  predicate Dangling(rows: map<Id, RefreshToken>) {
    exists k :: k in rows && rows[k].rotatedTo.Some? && rows[k].rotatedTo.value !in rows
  }

  /**
   * ON DELETE CASCADE to codes, consents and refresh tokens. `rotated_to_id` has no ON DELETE
   * action, so a surviving token that points at a deleted one makes the whole statement fail.
   */
  function DeleteClient(t: Tables, id: Id): Result<Tables, DbErr> {
    if Dangling(TokensWithout(t, id)) then Err(ConstraintViolation)
    else Ok(Tables(t.clients - {id}, ConsentsWithout(t, id), CodesWithout(t, id), TokensWithout(t, id)))
  }

  // ------------------------------------------------------------- consents

  /** INSERT … ON CONFLICT (user_id, client_id) DO UPDATE, clearing `revoked_at`. */
  function UpsertConsent(t: Tables, user: Id, client: Id, scopes: seq<string>, now: Time): Result<Tables, DbErr> {
    if client !in t.clients then Err(ConstraintViolation)
    else
      var key := (user, client);
      var created := if key in t.consents then t.consents[key].createdAt else now;
      Ok(t.(consents := t.consents[key := Consent(scopes, created, now, None)]))
  }

  // ------------------------------------------------------------- codes

  function InsertCode(t: Tables, c: Code): Result<Tables, DbErr> {
    if || c.id in t.codes
       || (exists id :: id in t.codes && t.codes[id].codeHash == c.codeHash)
       || c.clientId !in t.clients
    then Err(ConstraintViolation)
    else Ok(t.(codes := t.codes[c.id := c]))
  }

  /** UPDATE … SET used_at WHERE code_hash = $1 AND used_at IS NULL RETURNING *. */
  ghost function ClaimCode(t: Tables, hash: string, now: Time): (Tables, Option<Code>) {
    var found := CodeByHash(t, hash);
    if found.Some? && found.value.usedAt.None? then
      var claimed := found.value.(usedAt := Some(now));
      (t.(codes := t.codes[claimed.id := claimed]), Some(claimed))
    else (t, None)
  }

  // ------------------------------------------------------------- refresh tokens

  function InsertToken(t: Tables, row: RefreshToken): Result<Tables, DbErr> {
    if || row.id in t.tokens
       || (exists id :: id in t.tokens && t.tokens[id].tokenHash == row.tokenHash)
       || row.clientId !in t.clients
       || (row.codeId.Some? && row.codeId.value !in t.codes)
       || (row.rotatedTo.Some? && row.rotatedTo.value !in t.tokens)
    then Err(ConstraintViolation)
    else Ok(t.(tokens := t.tokens[row.id := row]))
  }

  function MarkRotated(t: Tables, id: Id, successor: Id): Result<Tables, DbErr> {
    if id !in t.tokens then Ok(t)
    else if successor !in t.tokens then Err(ConstraintViolation)
    else Ok(t.(tokens := t.tokens[id := t.tokens[id].(rotatedTo := Some(successor))]))
  }

  function FamiliesOfCode(t: Tables, codeId: Id): set<Id> {
    set k | k in t.tokens && t.tokens[k].codeId == Some(codeId) :: t.tokens[k].familyId
  }

  function UnrevokedRows(rows: map<Id, RefreshToken>, families: set<Id>): set<Id> {
    set k | k in rows && rows[k].familyId in families && rows[k].revokedAt.None?
  }

  /** UPDATE … SET revoked_at WHERE family_id IN (…) AND revoked_at IS NULL. */
  function RevokeFamilies(t: Tables, families: set<Id>, now: Time): Tables {
    t.(tokens := map k | k in t.tokens ::
         if t.tokens[k].familyId in families && t.tokens[k].revokedAt.None? then t.tokens[k].(revokedAt := Some(now))
         else t.tokens[k])
  }

  // ------------------------------------------------------------- lookups are determined

  lemma FindClient(t: Tables, id: Id)
    requires Constraints(t) && id in t.clients
    ensures ClientByName(t, t.clients[id].clientId) == Some(t.clients[id])
  {
  }

  lemma FindCode(t: Tables, id: Id)
    requires Constraints(t) && id in t.codes
    ensures CodeByHash(t, t.codes[id].codeHash) == Some(t.codes[id])
  {
  }

  lemma FindToken(t: Tables, id: Id)
    requires Constraints(t) && id in t.tokens
    ensures TokenByHash(t, t.tokens[id].tokenHash) == Some(t.tokens[id])
  {
  }

  // ------------------------------------------------------------- constraints are kept

  lemma InsertClientKeeps(t: Tables, c: Client)
    requires Constraints(t) && InsertClient(t, c).Ok?
    ensures Constraints(InsertClient(t, c).value)
  {
  }

  lemma ReplaceClientKeeps(t: Tables, id: Id, c: Client)
    requires Constraints(t) && id in t.clients
    requires c.id == id && c.clientId == t.clients[id].clientId
    ensures Constraints(t.(clients := t.clients[id := c]))
  {
    var t' := t.(clients := t.clients[id := c]);
    assert t'.clients.Keys == t.clients.Keys;
    assert CodeKeys(t');
    forall k | k in t'.tokens ensures TokenReferences(t', t'.tokens[k]) {
      assert TokenReferences(t, t.tokens[k]);
    }
    assert TokenKeys(t');
  }

  lemma DeleteClientKeeps(t: Tables, id: Id)
    requires Constraints(t) && DeleteClient(t, id).Ok?
    ensures Constraints(DeleteClient(t, id).value)
  {
    var t' := DeleteClient(t, id).value;
    assert ClientKeys(t') && ConsentKeys(t') && CodeKeys(t');
    forall k | k in t'.tokens
      ensures t'.tokens[k].id == k && t'.tokens[k].tokenHash == t.tokens[k].tokenHash
              && TokenReferences(t', t'.tokens[k])
    {
      assert TokenReferences(t, t.tokens[k]);
    }
    assert TokenKeys(t');
  }

  lemma UpsertConsentKeeps(t: Tables, user: Id, client: Id, scopes: seq<string>, now: Time)
    requires Constraints(t) && UpsertConsent(t, user, client, scopes, now).Ok?
    ensures Constraints(UpsertConsent(t, user, client, scopes, now).value)
  {
  }

  lemma InsertCodeKeeps(t: Tables, c: Code)
    requires Constraints(t) && InsertCode(t, c).Ok?
    ensures Constraints(InsertCode(t, c).value)
  {
    var t' := InsertCode(t, c).value;
    forall k | k in t'.tokens ensures TokenReferences(t', t'.tokens[k]) {
      assert TokenReferences(t, t.tokens[k]);
    }
  }

  lemma ClaimCodeKeeps(t: Tables, hash: string, now: Time)
    requires Constraints(t)
    ensures Constraints(ClaimCode(t, hash, now).0)
  {
    var t' := ClaimCode(t, hash, now).0;
    forall k | k in t'.tokens ensures TokenReferences(t', t'.tokens[k]) {
      assert TokenReferences(t, t.tokens[k]);
    }
  }

  lemma InsertTokenKeeps(t: Tables, row: RefreshToken)
    requires Constraints(t) && InsertToken(t, row).Ok?
    ensures Constraints(InsertToken(t, row).value)
  {
    var t' := InsertToken(t, row).value;
    forall k | k in t'.tokens ensures TokenReferences(t', t'.tokens[k]) {
      if k != row.id { assert TokenReferences(t, t.tokens[k]); }
    }
  }

  lemma MarkRotatedKeeps(t: Tables, id: Id, successor: Id)
    requires Constraints(t) && MarkRotated(t, id, successor).Ok?
    ensures Constraints(MarkRotated(t, id, successor).value)
  {
    var t' := MarkRotated(t, id, successor).value;
    forall k | k in t'.tokens ensures TokenReferences(t', t'.tokens[k]) {
      assert TokenReferences(t, t.tokens[k]);
    }
  }

  lemma RevokeFamiliesKeeps(t: Tables, families: set<Id>, now: Time)
    requires Constraints(t)
    ensures Constraints(RevokeFamilies(t, families, now))
  {
    var t' := RevokeFamilies(t, families, now);
    forall k | k in t'.tokens ensures TokenReferences(t', t'.tokens[k]) {
      assert TokenReferences(t, t.tokens[k]);
    }
  }
}
