/**
 The OAuth2 grant services as a state machine over two tables: authorization codes and refresh tokens.
 Every call carries its own clock reading, so nothing below depends on the order of clock values.
 */
module OAuth {
  import opened Wrappers
  import opened TokenLinks

  datatype Code = Code(
    client: string,
    tenant: string,
    redirectUri: string,
    scope: string,
    challenge: string,
    challengeMethod: string,
    user: Option<string>,
    expiresAt: int,
    consumed: bool,
    consumedAt: Option<int>)

  datatype Store = Store(codes: map<string, Code>, tokens: Table)

  /** Settings, and the S256 transform of a PKCE verifier, which is foreign to the repository. */
  datatype Env = Env(codeLifetime: int, tokenLifetime: int, s256: string -> string)

  datatype Error =
    | PkceRequired | NoSuchCode | AlreadyConsumed | CodeExpired | ClientMismatch | RedirectMismatch
    | PkceMismatch | InvalidUser | InvalidToken | TokenRevoked | TokenExpired | ScopeExceeded

  // ---- Scope strings ----

  /** What `str.split` treats as white space. */
  predicate IsSpace(c: char) {
    var n := c as int;
    || 9 <= n <= 13 || 28 <= n <= 32 || n == 0x85 || n == 0xA0 || n == 0x1680 || 0x2000 <= n <= 0x200A
    || n == 0x2028 || n == 0x2029 || n == 0x202F || n == 0x205F || n == 0x3000
  }

  /** The words of `s`, with `word` being the word already begun. */
  function WordsFrom(s: string, word: string): set<string> {
    var done := if word == "" then {} else {word};
    if s == "" then done
    else if IsSpace(s[0]) then done + WordsFrom(s[1..], "")
    else WordsFrom(s[1..], word + [s[0]])
  }

  function ScopeSet(scope: string): set<string> {
    WordsFrom(scope, "")
  }

  function GrantedScope(requested: string, original: string): string {
    if requested == "" then original else requested
  }

  // ---- The services ----

  function AuthorizeError(confidential: bool, challenge: string): Option<Error> {
    if !confidential && challenge == "" then Some(PkceRequired) else None
  }

  function Authorize(s: Store, confidential: bool, code: string, row: Code): Store {
    if AuthorizeError(confidential, row.challenge).Some? then s else s.(codes := s.codes[code := row])
  }

  /** The challenge that a verifier answers, by the method recorded with the code. */
  function Answer(env: Env, challengeMethod: string, verifier: string): string {
    if challengeMethod == "S256" then env.s256(verifier) else verifier
  }

  function ExchangeError(env: Env, s: Store, code: string, client: string, redirectUri: string,
                         verifier: string, now: int): Option<Error> {
    if code !in s.codes then Some(NoSuchCode) else
    var row := s.codes[code];
    if row.consumed then Some(AlreadyConsumed)
    else if now > row.expiresAt then Some(CodeExpired)
    else if row.client != client then Some(ClientMismatch)
    else if redirectUri != "" && row.redirectUri != redirectUri then Some(RedirectMismatch)
    else if row.challenge != "" && verifier != "" && Answer(env, row.challengeMethod, verifier) != row.challenge
    then Some(PkceMismatch)
    else None
  }

  function FreshToken(env: Env, client: string, tenant: string, user: string, scope: string, now: int): Token {
    Token(client, tenant, user, scope, now + env.tokenLifetime, false, None, None)
  }

  /** A code without a user is still consumed, but then no refresh token can be created for it. */
  function Exchange(env: Env, s: Store, code: string, client: string, redirectUri: string,
                    verifier: string, now: int, issued: string): Store {
    if ExchangeError(env, s, code, client, redirectUri, verifier, now).Some? then s else
    var row := s.codes[code];
    var codes := s.codes[code := row.(consumed := true, consumedAt := Some(now))];
    if row.user.None? then s.(codes := codes)
    else Store(codes, s.tokens[issued := FreshToken(env, client, row.tenant, row.user.value, row.scope, now)])
  }

  function RefreshError(s: Store, token: string, client: string, scope: string, now: int): Option<Error> {
    if token !in s.tokens then Some(InvalidToken) else
    var row := s.tokens[token];
    if row.revoked then Some(TokenRevoked)
    else if now > row.expiresAt then Some(TokenExpired)
    else if row.client != client then Some(ClientMismatch)
    else if !(ScopeSet(GrantedScope(scope, row.scope)) <= ScopeSet(row.scope)) then Some(ScopeExceeded)
    else None
  }

  function Refresh(env: Env, s: Store, token: string, client: string, scope: string, now: int, issued: string): Store {
    if RefreshError(s, token, client, scope, now).Some? then s else
    var row := s.tokens[token];
    var child := FreshToken(env, client, row.tenant, row.user, GrantedScope(scope, row.scope), now);
    var parent := row.(replacedBy := Some(issued), revoked := true, revokedAt := Some(now));
    s.(tokens := s.tokens[issued := child][token := parent])
  }

  ghost function RevokeChain(s: Store, token: string, now: int): Store {
    s.(tokens := RevokedFrom(s.tokens, token, now))
  }

  /** The guards of the revocation endpoint once the client is authenticated and the token decoded. */
  predicate RevokeAllowed(s: Store, client: string, token: string) {
    token in s.tokens && s.tokens[token].client == client && !s.tokens[token].revoked
  }

  ghost function RevokeEndpoint(s: Store, client: string, token: string, now: int): Store {
    if RevokeAllowed(s, client, token) then RevokeChain(s, token, now) else s
  }

  // ---- Runs ----

  datatype Call =
    | CallAuthorize(confidential: bool, code: string, row: Code)
    | CallExchange(code: string, client: string, redirectUri: string, verifier: string, now: int, issued: string)
    | CallRefresh(token: string, client: string, scope: string, now: int, issued: string)
    | CallRevokeChain(token: string, now: int)
    | CallRevokeEndpoint(client: string, token: string, now: int)

  ghost function Step(env: Env, s: Store, call: Call): Store {
    match call
    case CallAuthorize(confidential, code, row) => Authorize(s, confidential, code, row)
    case CallExchange(code, client, redirectUri, verifier, now, issued) =>
      Exchange(env, s, code, client, redirectUri, verifier, now, issued)
    case CallRefresh(token, client, scope, now, issued) => Refresh(env, s, token, client, scope, now, issued)
    case CallRevokeChain(token, now) => RevokeChain(s, token, now)
    case CallRevokeEndpoint(client, token, now) => RevokeEndpoint(s, client, token, now)
  }

  /** Generated values are new, and a code is created unconsumed. */
  predicate FreshCall(s: Store, call: Call) {
    match call
    case CallAuthorize(_, code, row) => code !in s.codes && !row.consumed
    case CallExchange(_, _, _, _, _, issued) => issued !in s.tokens
    case CallRefresh(_, _, _, _, issued) => issued !in s.tokens
    case _ => true
  }

  ghost predicate FreshRun(env: Env, s: Store, calls: seq<Call>)
    decreases |calls|
  {
    calls != [] ==> FreshCall(s, calls[0]) && FreshRun(env, Step(env, s, calls[0]), calls[1..])
  }

  ghost function Run(env: Env, s: Store, calls: seq<Call>): Store
    decreases |calls|
  {
    if calls == [] then s else Run(env, Step(env, s, calls[0]), calls[1..])
  }

  const EMPTY := Store(map[], map[])

  // ---- Chains ----

  /** For each code that has issued a token, the references of its chain, oldest first. */
  type Chains = map<string, seq<string>>

  ghost predicate At(chains: Chains, c: string, i: int, t: string) {
    c in chains && 0 <= i < |chains[c]| && chains[c][i] == t
  }

  /** One row of a chain: its link, its liveness and what it inherits from the code. */
  ghost predicate LinkOk(s: Store, c: string, chain: seq<string>, i: int)
    requires c in s.codes && 0 <= i < |chain|
  {
    chain[i] in s.tokens &&
    var row, code := s.tokens[chain[i]], s.codes[c];
    && row.replacedBy == (if i + 1 < |chain| then Some(chain[i + 1]) else None)
    && (i + 1 < |chain| ==> row.revoked)
    && row.client == code.client && row.tenant == code.tenant && Some(row.user) == code.user
    && ScopeSet(row.scope) <= ScopeSet(code.scope)
  }

  /** The tokens of `s` are exactly the disjoint chains `chains`, each started by a consumed code. */
  ghost predicate Shape(s: Store, chains: Chains) {
    && (forall c :: c in chains ==> c in s.codes && s.codes[c].consumed && chains[c] != [])
    && (forall c, i :: c in chains && 0 <= i < |chains[c]| ==> LinkOk(s, c, chains[c], i))
    && (forall t, c, i, d, j :: At(chains, c, i, t) && At(chains, d, j, t) ==> c == d && i == j)
    && (forall t :: t in s.tokens ==> exists c, i :: At(chains, c, i, t))
  }
}
