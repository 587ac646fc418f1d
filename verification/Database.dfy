/**
 * A database connection, on which the `repo` functions run their statements in place.
 *
 * A transaction is a second connection that starts from the committed tables; what it did
 * becomes visible with `Commit` and is lost if it is dropped without one.
 */
module Database {
  import opened Wrappers
  import opened Schema
  import Statements

  type DbErr = Statements.DbErr

  /** The UPDATE, row by row. */
  method RevokeRows(before: map<Id, RefreshToken>, families: set<Id>, now: Time)
    returns (rows: map<Id, RefreshToken>, affected: nat)
    ensures rows.Keys == before.Keys
    ensures forall k :: k in rows ==>
              rows[k] == if before[k].familyId in families && before[k].revokedAt.None?
                         then before[k].(revokedAt := Some(now)) else before[k]
    ensures affected == |Statements.UnrevokedRows(before, families)|
  {
    rows, affected := before, 0;
    var pending := before.Keys;
    ghost var done: set<Id> := {};
    while pending != {}
      invariant pending <= before.Keys == rows.Keys
      invariant forall k :: k in rows ==> rows[k] == if k in done then before[k].(revokedAt := Some(now)) else before[k]
      invariant forall k :: k in done ==> k in before && k !in pending
      invariant forall k :: k in before && k !in pending ==>
                  (k in done <==> before[k].familyId in families && before[k].revokedAt.None?)
      invariant affected == |done|
    {
      var k :| k in pending;
      if rows[k].familyId in families && rows[k].revokedAt.None? {
        rows := rows[k := rows[k].(revokedAt := Some(now))];
        affected := affected + 1;
        done := done + {k};
      }
      pending := pending - {k};
    }
    assert done == Statements.UnrevokedRows(before, families);
  }

  /** The cascade to codes, row by row. */
  method CascadeCodes(before: map<Id, Code>, client: Id) returns (codes: map<Id, Code>)
    ensures forall k :: k in codes <==> k in before && before[k].clientId != client
    ensures forall k :: k in codes ==> codes[k] == before[k]
  {
    codes := before;
    var pending := before.Keys;
    while pending != {}
      invariant pending <= before.Keys
      invariant forall k :: k in codes <==> k in before && (k in pending || before[k].clientId != client)
      invariant forall k :: k in codes ==> codes[k] == before[k]
    {
      var k :| k in pending;
      if before[k].clientId == client {
        codes := codes - {k};
      }
      pending := pending - {k};
    }
  }

  /** The cascade to consents, row by row. */
  method CascadeConsents(before: map<(Id, Id), Consent>, client: Id) returns (consents: map<(Id, Id), Consent>)
    ensures forall key :: key in consents <==> key in before && key.1 != client
    ensures forall key :: key in consents ==> consents[key] == before[key]
  {
    consents := before;
    var pending := before.Keys;
    while pending != {}
      invariant pending <= before.Keys
      invariant forall key :: key in consents <==> key in before && (key in pending || key.1 != client)
      invariant forall key :: key in consents ==> consents[key] == before[key]
    {
      var key :| key in pending;
      if key.1 == client {
        consents := consents - {key};
      }
      pending := pending - {key};
    }
  }

  /** The cascade to refresh tokens, row by row; a surviving row forgets a code that is gone. */
  method CascadeTokens(before: map<Id, RefreshToken>, client: Id, codes: map<Id, Code>)
    returns (rows: map<Id, RefreshToken>)
    ensures forall k :: k in rows <==> k in before && before[k].clientId != client
    ensures forall k :: k in rows ==> rows[k] == before[k].(codeId := rows[k].codeId)
    ensures forall k :: k in rows ==>
              rows[k].codeId
              == if before[k].codeId.Some? && before[k].codeId.value !in codes then None else before[k].codeId
  {
    rows := before;
    var pending := before.Keys;
    while pending != {}
      invariant pending <= before.Keys
      invariant forall k :: k in rows <==> k in before && (k in pending || before[k].clientId != client)
      invariant forall k ::
                  k in rows ==> rows[k] == if k in pending then before[k] else Statements.Detached(before[k], codes)
    {
      var k :| k in pending;
      if before[k].clientId == client {
        rows := rows - {k};
      } else if before[k].codeId.Some? && before[k].codeId.value !in codes {
        rows := rows[k := before[k].(codeId := None)];
      }
      pending := pending - {k};
    }
  }

  /** Whether a row points at a successor that is not there. */
  method FindDangling(rows: map<Id, RefreshToken>) returns (found: bool)
    ensures found <==> Statements.Dangling(rows)
  {
    var pending := rows.Keys;
    while pending != {}
      invariant pending <= rows.Keys
      invariant forall k :: k in rows && k !in pending && rows[k].rotatedTo.Some? ==> rows[k].rotatedTo.value in rows
    {
      var k :| k in pending;
      if rows[k].rotatedTo.Some? && rows[k].rotatedTo.value !in rows {
        return true;
      }
      pending := pending - {k};
    }
    return false;
  }

  class Connection {
    var tables: Tables

    constructor (t: Tables)
      ensures tables == t
    {
      tables := t;
    }

    method Begin() returns (tx: Connection)
      ensures fresh(tx) && tx.tables == tables
    {
      tx := new Connection(tables);
    }

    method Commit(tx: Connection)
      modifies this
      ensures tables == old(tx.tables)
    {
      tables := tx.tables;
    }

    // ----------------------------------------------------------- repo::clients

    method FindClient(clientId: string) returns (found: Option<Client>)
      requires Constraints(tables)
      ensures found == Statements.ClientByName(tables, clientId)
    {
      if id :| id in tables.clients.Keys && tables.clients[id].clientId == clientId {
        return Some(tables.clients[id]);
      }
      return None;
    }

    method InsertClient(c: Client) returns (r: Result<(), DbErr>)
      modifies this
      ensures match Statements.InsertClient(old(tables), c)
              case Ok(t) => r == Ok(()) && tables == t
              case Err(e) => r == Err(e) && tables == old(tables)
    {
      if c.id in tables.clients || exists id | id in tables.clients.Keys :: tables.clients[id].clientId == c.clientId {
        return Err(Statements.ConstraintViolation);
      }
      tables := tables.(clients := tables.clients[c.id := c]);
      return Ok(());
    }

    method UpdateClientDetails(id: Id, name: string, uris: seq<string>, scopes: seq<string>, now: Time)
      modifies this
      ensures tables == Statements.UpdateClientDetails(old(tables), id, name, uris, scopes, now)
    {
      if id in tables.clients {
        var row := tables.clients[id].(name := name, redirectUris := uris, allowedScopes := scopes, updatedAt := now);
        tables := tables.(clients := tables.clients[id := row]);
      }
    }

    method UpdateClientSecret(id: Id, hash: string, now: Time)
      modifies this
      ensures tables == Statements.UpdateClientSecret(old(tables), id, hash, now)
    {
      if id in tables.clients {
        tables :=
            tables.(clients := tables.clients[id := tables.clients[id].(secretHash := Some(hash), updatedAt := now)]);
      }
    }

    /** The row, then the cascades; the whole statement fails if a surviving token would dangle. */
    method DeleteClient(id: Id) returns (r: Result<(), DbErr>)
      modifies this
      ensures match Statements.DeleteClient(old(tables), id)
              case Ok(t) => r == Ok(()) && tables == t
              case Err(e) => r == Err(e) && tables == old(tables)
    {
      var codes := CascadeCodes(tables.codes, id);
      var consents := CascadeConsents(tables.consents, id);
      var rows := CascadeTokens(tables.tokens, id, codes);
      var dangling := FindDangling(rows);
      assert codes == Statements.CodesWithout(tables, id);
      assert consents == Statements.ConsentsWithout(tables, id);
      assert rows == Statements.TokensWithout(tables, id);
      if dangling {
        return Err(Statements.ConstraintViolation);
      }
      tables := Tables(tables.clients - {id}, consents, codes, rows);
      return Ok(());
    }

    // ----------------------------------------------------------- repo::consents

    method UpsertConsent(user: Id, client: Id, scopes: seq<string>, now: Time) returns (r: Result<(), DbErr>)
      modifies this
      ensures match Statements.UpsertConsent(old(tables), user, client, scopes, now)
              case Ok(t) => r == Ok(()) && tables == t
              case Err(e) => r == Err(e) && tables == old(tables)
    {
      if client !in tables.clients {
        return Err(Statements.ConstraintViolation);
      }
      var key := (user, client);
      var row := if key in tables.consents then tables.consents[key] else Consent([], now, now, None);
      tables :=
          tables.(consents := tables.consents[key := row.(scopes := scopes, updatedAt := now, revokedAt := None)]);
      return Ok(());
    }

    // ----------------------------------------------------------- repo::authorization_codes

    method InsertCode(c: Code) returns (r: Result<(), DbErr>)
      modifies this
      ensures match Statements.InsertCode(old(tables), c)
              case Ok(t) => r == Ok(()) && tables == t
              case Err(e) => r == Err(e) && tables == old(tables)
    {
      if || c.id in tables.codes
         || (exists id | id in tables.codes.Keys :: tables.codes[id].codeHash == c.codeHash)
         || c.clientId !in tables.clients
      {
        return Err(Statements.ConstraintViolation);
      }
      tables := tables.(codes := tables.codes[c.id := c]);
      return Ok(());
    }

    method FindCode(hash: string) returns (found: Option<Code>)
      requires Constraints(tables)
      ensures found == Statements.CodeByHash(tables, hash)
    {
      if id :| id in tables.codes.Keys && tables.codes[id].codeHash == hash {
        return Some(tables.codes[id]);
      }
      return None;
    }

    /** Marks an unused code as used and returns it; None if it is unknown or already used. */
    method ClaimCode(hash: string, now: Time) returns (claimed: Option<Code>)
      requires Constraints(tables)
      modifies this
      ensures (tables, claimed) == Statements.ClaimCode(old(tables), hash, now)
      ensures Constraints(tables)
    {
      Statements.ClaimCodeKeeps(tables, hash, now);
      if id :| id in tables.codes.Keys && tables.codes[id].codeHash == hash && tables.codes[id].usedAt.None? {
        var row := tables.codes[id].(usedAt := Some(now));
        tables := tables.(codes := tables.codes[id := row]);
        return Some(row);
      }
      return None;
    }

    // ----------------------------------------------------------- repo::refresh_tokens

    method FindToken(hash: string) returns (found: Option<RefreshToken>)
      requires Constraints(tables)
      ensures found == Statements.TokenByHash(tables, hash)
    {
      if id :| id in tables.tokens.Keys && tables.tokens[id].tokenHash == hash {
        return Some(tables.tokens[id]);
      }
      return None;
    }

    method InsertToken(row: RefreshToken) returns (r: Result<(), DbErr>)
      modifies this
      ensures match Statements.InsertToken(old(tables), row)
              case Ok(t) => r == Ok(()) && tables == t
              case Err(e) => r == Err(e) && tables == old(tables)
    {
      if || row.id in tables.tokens
         || (exists id | id in tables.tokens.Keys :: tables.tokens[id].tokenHash == row.tokenHash)
         || row.clientId !in tables.clients
         || (row.codeId.Some? && row.codeId.value !in tables.codes)
         || (row.rotatedTo.Some? && row.rotatedTo.value !in tables.tokens)
      {
        return Err(Statements.ConstraintViolation);
      }
      tables := tables.(tokens := tables.tokens[row.id := row]);
      return Ok(());
    }

    method MarkRotated(id: Id, successor: Id) returns (r: Result<(), DbErr>)
      modifies this
      ensures match Statements.MarkRotated(old(tables), id, successor)
              case Ok(t) => r == Ok(()) && tables == t
              case Err(e) => r == Err(e) && tables == old(tables)
    {
      if id in tables.tokens {
        if successor !in tables.tokens {
          return Err(Statements.ConstraintViolation);
        }
        tables := tables.(tokens := tables.tokens[id := tables.tokens[id].(rotatedTo := Some(successor))]);
      }
      return Ok(());
    }

    /** Revokes every unrevoked row of the given families, row by row; counts them. */
    method RevokeFamilies(families: set<Id>, now: Time) returns (affected: nat)
      modifies this
      ensures tables == Statements.RevokeFamilies(old(tables), families, now)
      ensures affected == |Statements.UnrevokedRows(old(tables.tokens), families)|
    {
      var rows;
      rows, affected := RevokeRows(tables.tokens, families, now);
      assert rows == Statements.RevokeFamilies(tables, families, now).tokens;
      tables := tables.(tokens := rows);
    }

    method RevokeByCode(codeId: Id, now: Time) returns (affected: nat)
      modifies this
      ensures tables == Statements.RevokeFamilies(old(tables), Statements.FamiliesOfCode(old(tables), codeId), now)
      ensures affected == |Statements.UnrevokedRows(old(tables.tokens), Statements.FamiliesOfCode(old(tables), codeId))|
    {
      var families := Statements.FamiliesOfCode(tables, codeId);
      affected := RevokeFamilies(families, now);
    }
  }
}
