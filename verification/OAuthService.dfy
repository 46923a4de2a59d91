/**
 The OAuth2 services over mutable records: each row is one object, `replaced_by` is a reference, and
 every service call is proved to move the tables exactly as the state machine of module OAuth does.
 */
module OAuthService {
  import opened Wrappers
  import opened TokenLinks
  import opened OAuth

  class AuthorizationCode {
    const code: string
    const client: string
    const tenant: string
    const redirectUri: string
    const scope: string
    const challenge: string
    const challengeMethod: string
    const user: Option<string>
    const expiresAt: int
    var isConsumed: bool
    var consumedAt: Option<int>

    function Row(): Code
      reads this
    {
      Code(client, tenant, redirectUri, scope, challenge, challengeMethod, user, expiresAt, isConsumed, consumedAt)
    }

    constructor (code: string, row: Code)
      ensures this.code == code && Row() == row
    {
      this.code := code;
      client, tenant, redirectUri, scope := row.client, row.tenant, row.redirectUri, row.scope;
      challenge, challengeMethod, user := row.challenge, row.challengeMethod, row.user;
      expiresAt, isConsumed, consumedAt := row.expiresAt, row.consumed, row.consumedAt;
    }

    method Consume(now: int)
      modifies this
      ensures Row() == old(Row()).(consumed := true, consumedAt := Some(now))
    {
      isConsumed := true;
      consumedAt := Some(now);
    }
  }

  class RefreshToken {
    const token: string
    const client: string
    const tenant: string
    const user: string
    const scope: string
    const expiresAt: int
    var isRevoked: bool
    var revokedAt: Option<int>
    var replacedBy: Option<string>

    function Row(): Token
      reads this
    {
      Token(client, tenant, user, scope, expiresAt, isRevoked, revokedAt, replacedBy)
    }

    constructor (token: string, client: string, tenant: string, user: string, scope: string, expiresAt: int)
      ensures this.token == token && Row() == Token(client, tenant, user, scope, expiresAt, false, None, None)
    {
      this.token, this.client, this.tenant, this.user := token, client, tenant, user;
      this.scope, this.expiresAt := scope, expiresAt;
      isRevoked, revokedAt, replacedBy := false, None, None;
    }

    method Revoke(now: int)
      modifies this`isRevoked, this`revokedAt
      ensures Row() == old(Row()).(revoked := true, revokedAt := Some(now))
    {
      isRevoked := true;
      revokedAt := Some(now);
    }

    method Replace(child: string, now: int)
      modifies this
      ensures Row() == old(Row()).(replacedBy := Some(child), revoked := true, revokedAt := Some(now))
    {
      replacedBy := Some(child);
      Revoke(now);
    }
  }

  datatype ClientRow = ClientRow(isActive: bool, isConfidential: bool, secret: string)

  /** What a successful code exchange or rotation returns. */
  datatype Grant = Grant(user: string, tenant: string, scope: string, client: string, refreshToken: string)

  class Service {
    const env: Env
    var codes: map<string, AuthorizationCode>
    var tokens: map<string, RefreshToken>

    // The two tables as values; Valid ties them to the records.
    ghost var codeRows: map<string, Code>
    ghost var tokenRows: Table

    ghost predicate Valid()
      reads this, codes.Values, tokens.Values
    {
      CodesOk() && TokensOk()
    }

    ghost predicate CodesOk()
      reads this`codes, this`codeRows, codes.Values
    {
      codes.Keys == codeRows.Keys && forall k :: k in codes ==> codes[k].code == k && codes[k].Row() == codeRows[k]
    }

    ghost predicate TokensOk()
      reads this`tokens, this`tokenRows, tokens.Values
    {
      && tokens.Keys == tokenRows.Keys
      && forall k :: k in tokens ==> tokens[k].token == k && tokens[k].Row() == tokenRows[k]
    }

    ghost predicate Stored(record: RefreshToken)
      reads this`tokens
    {
      record.token in tokens && tokens[record.token] == record
    }

    ghost function View(): Store
      reads this`codeRows, this`tokenRows
    {
      Store(codeRows, tokenRows)
    }

    constructor (env: Env)
      ensures Valid() && this.env == env && View() == EMPTY
    {
      this.env := env;
      codes, tokens, codeRows, tokenRows := map[], map[], map[], map[];
    }

    // ---- Single-row writes ----

    method SaveRevocation(record: RefreshToken, now: int)
      requires Valid() && Stored(record)
      modifies this`tokenRows, record`isRevoked, record`revokedAt
      ensures Valid()
      ensures tokenRows == old(tokenRows)[record.token := old(tokenRows)[record.token].(
                revoked := true, revokedAt := Some(now))]
    {
      record.Revoke(now);
      tokenRows := tokenRows[record.token := tokenRows[record.token].(revoked := true, revokedAt := Some(now))];
    }

    method SaveRotation(record: RefreshToken, child: RefreshToken, now: int)
      requires Valid() && Stored(record)
      modifies this`tokenRows, record
      ensures Valid()
      ensures tokenRows == old(tokenRows)[record.token := old(tokenRows)[record.token].(
                replacedBy := Some(child.token), revoked := true, revokedAt := Some(now))]
    {
      record.Replace(child.token, now);
      tokenRows := tokenRows[record.token := tokenRows[record.token].(
                     replacedBy := Some(child.token), revoked := true, revokedAt := Some(now))];
    }

    method SaveConsumption(record: AuthorizationCode, now: int)
      requires Valid() && record.code in codes && codes[record.code] == record
      modifies this`codeRows, record
      ensures Valid()
      ensures codeRows == old(codeRows)[record.code := old(codeRows)[record.code].(
                consumed := true, consumedAt := Some(now))]
    {
      record.Consume(now);
      codeRows := codeRows[record.code := codeRows[record.code].(consumed := true, consumedAt := Some(now))];
    }

    // ---- Services ----

    /** One turn of the walk: revoke the row unless it is revoked, then load the row it links to, if any. */
    method Visit(record: RefreshToken, now: int) returns (next: RefreshToken?)
      requires Valid() && Stored(record) && record.token in tokenRows
      modifies this`tokenRows, record`isRevoked, record`revokedAt
      ensures Valid() && tokenRows == RevokeRow(old(tokenRows), record.token, now)
      ensures next == null ==> LinkOf(tokenRows, record.token).None?
      ensures next != null ==> Stored(next) && LinkOf(tokenRows, record.token) == Some(next.token)
    {
      if !record.isRevoked {
        SaveRevocation(record, now);
      }
      var link := record.replacedBy;
      next := if link.Some? && link.value in tokens then tokens[link.value] else null;
    }

    /** The loop itself, up to some `end` at which the walk has ended; it stops after `n` turns. */
    method WalkAndRevoke(record: RefreshToken, now: int, ghost end: nat) returns (ghost n: nat)
      requires Valid() && Stored(record) && Follow(tokenRows, record.token, end).None?
      modifies this`tokenRows, tokens.Values
      ensures Valid() && WalkAt(old(tokenRows), record.token, n, None, now, tokenRows)
    {
      ghost var before, rows, at := tokenRows, tokenRows, Some(record.token);
      var current: RefreshToken? := record;
      n := 0;
      while current != null
        invariant Valid()
        invariant current == null ==> at.None?
        invariant current != null ==> Stored(current) && at == Some(current.token)
        invariant tokenRows == rows && WalkAt(before, record.token, n, at, now, rows)
        decreases end - n
      {
        WalkStep(before, record.token, n, current.token, now, rows, end);
        rows := RevokeRow(rows, current.token, now);
        n, at := n + 1, LinkOf(rows, current.token);
        assert WalkAt(before, record.token, n, at, now, rows);
        current := Visit(current, now);
      }
    }

    /** Walks `replaced_by` from `record`, revoking each row that is not revoked yet. */
    method RevokeRefreshTokenChain(record: RefreshToken, now: int)
      requires Valid() && Stored(record) && WalkEnds(View().tokens, record.token)
      modifies this`tokenRows, tokens.Values
      ensures Valid() && View() == RevokeChain(old(View()), record.token, now)
    {
      ghost var before := tokenRows;
      ghost var end: nat :| Follow(before, record.token, end).None?;
      ghost var n := WalkAndRevoke(record, now, end);
      PrefixIsAll(before, record.token, n, now);
    }

    method StoreCode(code: string, row: Code)
      requires Valid() && code !in codes
      modifies this`codes, this`codeRows
      ensures Valid() && View() == old(View()).(codes := old(View()).codes[code := row])
    {
      var record := new AuthorizationCode(code, row);
      codes, codeRows := codes[code := record], codeRows[code := row];
    }

    /** `code` is a generated value, which is new. */
    method GenerateAuthorizationCode(code: string, isConfidential: bool, client: string, tenant: string,
                                     redirectUri: string,
                                     scope: string, challenge: string, challengeMethod: string, user: string, now: int)
      returns (r: Result<string, Error>)
      requires Valid() && code !in codes
      modifies this`codes, this`codeRows
      ensures Valid()
      ensures r == if isConfidential || challenge != "" then Success(code) else Failure(PkceRequired)
      ensures var row := Code(client, tenant, redirectUri, scope, challenge, challengeMethod, Some(user),
                              now + env.codeLifetime, false, None);
        && View() == Authorize(old(View()), isConfidential, code, row)
        && (r.Success? ==> View() == old(View()).(codes := old(View()).codes[code := row]))
        && (r.Failure? ==> View() == old(View()))
    {
      if !isConfidential && challenge == "" {
        return Failure(PkceRequired);
      }
      var row := Code(client, tenant, redirectUri, scope, challenge, challengeMethod, Some(user),
                      now + env.codeLifetime, false, None);
      StoreCode(code, row);
      return Success(code);
    }

    /** Creates the row for a generated reference `ref`, which is new. */
    method IssueRefreshToken(ref: string, client: string, tenant: string, user: string, scope: string, now: int)
      returns (record: RefreshToken)
      requires Valid() && ref !in tokens
      modifies this`tokens, this`tokenRows
      ensures Valid() && fresh(record) && record.token == ref && tokens == old(tokens)[ref := record]
      ensures tokenRows == old(tokenRows)[ref := FreshToken(env, client, tenant, user, scope, now)]
    {
      record := new RefreshToken(ref, client, tenant, user, scope, now + env.tokenLifetime);
      tokens, tokenRows := tokens[ref := record], tokenRows[ref := record.Row()];
    }

    /** The guards of a code exchange, in order. */
    method CheckAuthorizationCode(code: string, client: string, redirectUri: string, verifier: string, now: int)
      returns (e: Option<Error>)
      requires Valid()
      ensures e == ExchangeError(env, View(), code, client, redirectUri, verifier, now)
    {
      if code !in codes {
        return Some(NoSuchCode);
      }
      var record := codes[code];
      if record.isConsumed {
        return Some(AlreadyConsumed);
      }
      if now > record.expiresAt {
        return Some(CodeExpired);
      }
      if record.client != client {
        return Some(ClientMismatch);
      }
      if redirectUri != "" && record.redirectUri != redirectUri {
        return Some(RedirectMismatch);
      }
      if record.challenge != "" && verifier != "" {
        var computed := if record.challengeMethod == "S256" then env.s256(verifier) else verifier;
        if computed != record.challenge {
          return Some(PkceMismatch);
        }
      }
      return None;
    }

    method ConsumeAuthorizationCode(code: string, client: string, redirectUri: string, verifier: string, now: int,
                                    ref: string)
      returns (r: Result<Grant, Error>)
      requires Valid() && ref !in tokens
      modifies this`codeRows, this`tokens, this`tokenRows, codes.Values
      ensures Valid()
      ensures View() == Exchange(env, old(View()), code, client, redirectUri, verifier, now, ref)
      ensures match ExchangeError(env, old(View()), code, client, redirectUri, verifier, now)
              case Some(e) => r == Failure(e)
              case None =>
                var row := old(View()).codes[code];
                r == if row.user.None? then Failure(InvalidUser)
                     else Success(Grant(row.user.value, row.tenant, row.scope, client, ref))
    {
      var e := CheckAuthorizationCode(code, client, redirectUri, verifier, now);
      if e.Some? {
        return Failure(e.value);
      }
      var record := codes[code];
      SaveConsumption(record, now);
      if record.user.None? {
        return Failure(InvalidUser);
      }
      var token := IssueRefreshToken(ref, client, record.tenant, record.user.value, record.scope, now);
      return Success(Grant(record.user.value, record.tenant, record.scope, client, token.token));
    }

    method ConsumeRefreshToken(tokenRef: string, client: string, scope: string, now: int, ref: string)
      returns (r: Result<Grant, Error>)
      requires Valid() && ref !in tokens
      modifies this`tokens, this`tokenRows, tokens.Values
      ensures Valid()
      ensures View() == Refresh(env, old(View()), tokenRef, client, scope, now, ref)
      ensures match RefreshError(old(View()), tokenRef, client, scope, now)
              case Some(e) => r == Failure(e)
              case None =>
                var row := old(View()).tokens[tokenRef];
                r == Success(Grant(row.user, row.tenant, if scope == "" then row.scope else scope, client, ref))
      ensures r.Success? ==> ref in View().tokens && View().tokens[ref].scope == r.value.scope
    {
      if tokenRef !in tokens {
        return Failure(InvalidToken);
      }
      var record := tokens[tokenRef];
      if record.isRevoked {
        return Failure(TokenRevoked);
      }
      if now > record.expiresAt {
        return Failure(TokenExpired);
      }
      if record.client != client {
        return Failure(ClientMismatch);
      }
      var granted := if scope == "" then record.scope else scope;
      if !(ScopeSet(granted) <= ScopeSet(record.scope)) {
        return Failure(ScopeExceeded);
      }
      var child := IssueRefreshToken(ref, client, record.tenant, record.user, granted, now);
      SaveRotation(record, child, now);
      return Success(Grant(record.user, record.tenant, granted, client, child.token));
    }

    /**
     The revocation endpoint. `decoded` is the reference carried by the presented token, if it decodes.
     The response is always 200, so only the effect on the tables is stated.
     */
    method RevokePost(clients: map<string, ClientRow>, token: string, clientId: string, secret: string,
                      decoded: Option<string>, now: int)
      requires Valid() && (decoded.Some? ==> WalkEnds(View().tokens, decoded.value))
      modifies this`tokenRows, tokens.Values
      ensures Valid()
      ensures var known := token != "" && clientId != "" && clientId in clients && clients[clientId].isActive
                           && (clients[clientId].isConfidential ==> clients[clientId].secret == secret)
                           && decoded.Some?;
              View() == if known then RevokeEndpoint(old(View()), clientId, decoded.value, now) else old(View())
    {
      if token == "" || clientId == "" {
        return;
      }
      if clientId !in clients || !clients[clientId].isActive {
        return;
      }
      if clients[clientId].isConfidential && clients[clientId].secret != secret {
        return;
      }
      if decoded.None? || decoded.value !in tokens {
        return;
      }
      var record := tokens[decoded.value];
      if record.client != clientId {
        return;
      }
      if record.isRevoked {
        return;
      }
      RevokeRefreshTokenChain(record, now);
    }
  }
}
