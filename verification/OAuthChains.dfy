/** What every run of the OAuth2 services keeps: disjoint chains, bounded liveness, lineage and permanence. */
module OAuthChains {
  import opened Wrappers
  import opened TokenLinks
  import opened OAuth

  // ---- Chains under one call ----

  lemma ExchangeKeepsShape(env: Env, s: Store, code: string, client: string, redirectUri: string,
                           verifier: string, now: int, issued: string, chains: Chains)
    requires Shape(s, chains) && issued !in s.tokens
    requires ExchangeError(env, s, code, client, redirectUri, verifier, now).None? && s.codes[code].user.Some?
    ensures Shape(Exchange(env, s, code, client, redirectUri, verifier, now, issued), chains[code := [issued]])
  {
    var s' := Exchange(env, s, code, client, redirectUri, verifier, now, issued);
    var chains' := chains[code := [issued]];
    forall c, i | c in chains' && 0 <= i < |chains'[c]| ensures LinkOk(s', c, chains'[c], i) {
      assert c != code ==> LinkOk(s, c, chains[c], i);
    }
    forall t | t in s'.tokens ensures exists c, i :: At(chains', c, i, t) {
      if t == issued {
        assert At(chains', code, 0, t);
      } else {
        var c, i :| At(chains, c, i, t);
        assert At(chains', c, i, t);
      }
    }
    forall t, c, i, d, j | At(chains', c, i, t) && At(chains', d, j, t) ensures c == d && i == j {
      assert c != code ==> At(chains, c, i, t) && LinkOk(s, c, chains[c], i);
      assert d != code ==> At(chains, d, j, t) && LinkOk(s, d, chains[d], j);
    }
  }

  /** An unrevoked token can only be the tail of its chain. */
  lemma LiveIsTail(s: Store, chains: Chains, c: string, i: int, t: string)
    requires Shape(s, chains) && At(chains, c, i, t)
    ensures t in s.tokens && (!s.tokens[t].revoked ==> i == |chains[c]| - 1)
  {
    assert LinkOk(s, c, chains[c], i);
  }

  lemma RefreshKeepsShape(env: Env, s: Store, token: string, client: string, scope: string, now: int,
                          issued: string, chains: Chains, c: string, i: int)
    requires Shape(s, chains) && issued !in s.tokens && At(chains, c, i, token)
    requires RefreshError(s, token, client, scope, now).None?
    ensures i == |chains[c]| - 1
    ensures Shape(Refresh(env, s, token, client, scope, now, issued), chains[c := chains[c] + [issued]])
  {
    LiveIsTail(s, chains, c, i, token);
    var s' := Refresh(env, s, token, client, scope, now, issued);
    var chains' := chains[c := chains[c] + [issued]];
    assert LinkOk(s, c, chains[c], i);
    forall d, j | d in chains' && 0 <= j < |chains'[d]| ensures LinkOk(s', d, chains'[d], j) {
      if d != c || j <= i {
        assert At(chains, d, j, chains[d][j]) && LinkOk(s, d, chains[d], j);
      }
    }
    forall t | t in s'.tokens ensures exists d, j :: At(chains', d, j, t) {
      if t == issued {
        assert At(chains', c, i + 1, t);
      } else {
        var d, j :| At(chains, d, j, t);
        assert At(chains', d, j, t);
      }
    }
    forall t, d, j, e, k | At(chains', d, j, t) && At(chains', e, k, t) ensures d == e && j == k {
      assert d != c || j <= i ==> At(chains, d, j, t) && LinkOk(s, d, chains[d], j);
      assert e != c || k <= i ==> At(chains, e, k, t) && LinkOk(s, e, chains[e], k);
    }
  }

  lemma RevokeKeepsShape(s: Store, token: string, now: int, chains: Chains)
    requires Shape(s, chains)
    ensures Shape(RevokeChain(s, token, now), chains)
  {
    var s' := RevokeChain(s, token, now);
    forall c, i | c in chains && 0 <= i < |chains[c]| ensures LinkOk(s', c, chains[c], i) {
      assert LinkOk(s, c, chains[c], i);
    }
  }

  /** Codes may be added or, if they start no chain, changed. */
  lemma CodesKeepShape(s: Store, codes: map<string, Code>, chains: Chains)
    requires Shape(s, chains)
    requires forall c :: c in chains ==> c in codes && codes[c] == s.codes[c]
    ensures Shape(s.(codes := codes), chains)
  {
    forall c, i | c in chains && 0 <= i < |chains[c]| ensures LinkOk(s.(codes := codes), c, chains[c], i) {
      assert LinkOk(s, c, chains[c], i);
    }
  }

  /** `before` can grow into `after`: chains are only added, or extended at a live tail. */
  ghost predicate Extends(s: Store, before: Chains, after: Chains) {
    forall c :: c in before ==>
      c in after && before[c] <= after[c] && (AllRevoked(s, before[c]) ==> after[c] == before[c])
  }

  ghost predicate AllRevoked(s: Store, chain: seq<string>) {
    forall t :: t in chain ==> t in s.tokens && s.tokens[t].revoked
  }

  lemma StepKeepsShape(env: Env, s: Store, call: Call, chains: Chains) returns (chains': Chains)
    requires Shape(s, chains) && FreshCall(s, call)
    ensures Shape(Step(env, s, call), chains') && Extends(s, chains, chains')
  {
    chains' := chains;
    match call {
      case CallAuthorize(confidential, code, row) =>
        CodesKeepShape(s, Authorize(s, confidential, code, row).codes, chains);
      case CallExchange(code, client, redirectUri, verifier, now, issued) =>
        if ExchangeError(env, s, code, client, redirectUri, verifier, now).None? {
          if s.codes[code].user.Some? {
            ExchangeKeepsShape(env, s, code, client, redirectUri, verifier, now, issued, chains);
            chains' := chains[code := [issued]];
          } else {
            CodesKeepShape(s, Exchange(env, s, code, client, redirectUri, verifier, now, issued).codes, chains);
          }
        }
      case CallRefresh(token, client, scope, now, issued) =>
        if RefreshError(s, token, client, scope, now).None? {
          var c, i :| At(chains, c, i, token);
          RefreshKeepsShape(env, s, token, client, scope, now, issued, chains, c, i);
          chains' := chains[c := chains[c] + [issued]];
        }
      case CallRevokeChain(token, now) => RevokeKeepsShape(s, token, now, chains);
      case CallRevokeEndpoint(client, token, now) => RevokeKeepsShape(s, token, now, chains);
    }
  }

  // ---- Chains under every run ----

  lemma {:induction false} RunKeepsShape(env: Env, s: Store, calls: seq<Call>, chains: Chains) returns (chains': Chains)
    requires Shape(s, chains) && FreshRun(env, s, calls)
    ensures Shape(Run(env, s, calls), chains')
    decreases |calls|
  {
    chains' := chains;
    if calls != [] {
      chains' := StepKeepsShape(env, s, calls[0], chains);
      chains' := RunKeepsShape(env, Step(env, s, calls[0]), calls[1..], chains');
    }
  }

  /** Every reachable store is made of disjoint chains, one for each code that issued a token. */
  lemma ReachableShape(env: Env, calls: seq<Call>)
    requires FreshRun(env, EMPTY, calls)
    ensures exists chains :: Shape(Run(env, EMPTY, calls), chains)
  {
    var chains := RunKeepsShape(env, EMPTY, calls, map[]);
  }

  /** Along a chain, following links is moving right; past the tail the walk has ended. */
  lemma {:induction false} FollowInChain(s: Store, chains: Chains, c: string, i: int, t: string, n: nat)
    requires Shape(s, chains) && At(chains, c, i, t)
    ensures Follow(s.tokens, t, n) == if i + n < |chains[c]| then Some(chains[c][i + n]) else None
  {
    assert LinkOk(s, c, chains[c], i);
    if n > 0 {
      FollowInChain(s, chains, c, i, t, n - 1);
      if i + n - 1 < |chains[c]| {
        assert LinkOk(s, c, chains[c], i + n - 1);
        assert i + n < |chains[c]| ==> LinkOk(s, c, chains[c], i + n);
      }
    }
  }

  /** The rows reachable from a chain member are the members from it to the tail. */
  lemma ReachesInChain(s: Store, chains: Chains, c: string, i: int, t: string, u: string)
    requires Shape(s, chains) && At(chains, c, i, t)
    ensures Reaches(s.tokens, t, u) <==> exists j :: i <= j && At(chains, c, j, u)
  {
    if Reaches(s.tokens, t, u) {
      var n: nat :| Follow(s.tokens, t, n) == Some(u);
      FollowInChain(s, chains, c, i, t, n);
      assert At(chains, c, i + n, u);
    }
    if j :| i <= j && At(chains, c, j, u) {
      FollowInChain(s, chains, c, i, t, j - i);
    }
  }

  /** In a reachable store the links form no cycle, so every walk ends, and no row is replaced into twice. */
  lemma ShapeIsAcyclic(s: Store, chains: Chains)
    requires Shape(s, chains)
    ensures Acyclic(s.tokens)
    ensures forall t, u ::
      t in s.tokens && u in s.tokens && s.tokens[t].replacedBy.Some?
      && s.tokens[t].replacedBy == s.tokens[u].replacedBy
      ==> t == u
  {
    forall t | t in s.tokens ensures !OnCycle(s.tokens, t) {
      var c, i :| At(chains, c, i, t);
      if OnCycle(s.tokens, t) {
        var n: nat :| n > 0 && Follow(s.tokens, t, n) == Some(t);
        FollowInChain(s, chains, c, i, t, n);
        assert At(chains, c, i + n, t);
      }
    }
    forall t, u | t in s.tokens && u in s.tokens && s.tokens[t].replacedBy.Some?
                  && s.tokens[t].replacedBy == s.tokens[u].replacedBy
      ensures t == u
    {
      var c, i :| At(chains, c, i, t);
      var d, j :| At(chains, d, j, u);
      assert LinkOk(s, c, chains[c], i) && LinkOk(s, d, chains[d], j);
      assert At(chains, c, i + 1, s.tokens[t].replacedBy.value);
      assert At(chains, d, j + 1, s.tokens[t].replacedBy.value);
    }
  }

  // ---- Liveness ----

  ghost function LiveTokens(s: Store): set<string> {
    set t | t in s.tokens && !s.tokens[t].revoked
  }

  ghost function ConsumedCodes(s: Store): set<string> {
    set c | c in s.codes && s.codes[c].consumed
  }

  lemma {:induction false} TailsBound(chains: Chains, live: set<string>, codes: set<string>)
    requires forall t :: t in live ==> exists c :: c in codes && c in chains && At(chains, c, |chains[c]| - 1, t)
    ensures |live| <= |codes|
    decreases live
  {
    if live != {} {
      var t :| t in live;
      var c :| c in codes && c in chains && At(chains, c, |chains[c]| - 1, t);
      TailsBound(chains, live - {t}, codes - {c});
    }
  }

  /** In every reachable store, no more tokens are unrevoked than codes have been consumed. */
  lemma LiveTokensBounded(env: Env, calls: seq<Call>)
    requires FreshRun(env, EMPTY, calls)
    ensures |LiveTokens(Run(env, EMPTY, calls))| <= |ConsumedCodes(Run(env, EMPTY, calls))|
  {
    var s := Run(env, EMPTY, calls);
    ReachableShape(env, calls);
    var chains :| Shape(s, chains);
    forall t | t in LiveTokens(s)
      ensures exists c :: c in ConsumedCodes(s) && c in chains && At(chains, c, |chains[c]| - 1, t)
    {
      var c, i :| At(chains, c, i, t);
      LiveIsTail(s, chains, c, i, t);
    }
    TailsBound(chains, LiveTokens(s), ConsumedCodes(s));
  }

  lemma {:induction false} ConsumedStays(env: Env, s: Store, calls: seq<Call>, code: string)
    requires FreshRun(env, s, calls) && code in s.codes && s.codes[code].consumed
    ensures code in Run(env, s, calls).codes && Run(env, s, calls).codes[code] == s.codes[code]
    decreases |calls|
  {
    if calls != [] {
      ConsumedStays(env, Step(env, s, calls[0]), calls[1..], code);
    }
  }

  /** An exchange that succeeds is the last for its code: after any later run, every further one is refused. */
  lemma CodeIsExchangedOnce(env: Env, s: Store, code: string, client: string, redirectUri: string, verifier: string,
                            now: int, issued: string, calls: seq<Call>,
                            client': string, redirectUri': string, verifier': string, later: int)
    requires ExchangeError(env, s, code, client, redirectUri, verifier, now).None?
    requires FreshRun(env, Exchange(env, s, code, client, redirectUri, verifier, now, issued), calls)
    ensures ExchangeError(env, Run(env, Exchange(env, s, code, client, redirectUri, verifier, now, issued), calls),
                          code, client', redirectUri', verifier', later) == Some(AlreadyConsumed)
  {
    ConsumedStays(env, Exchange(env, s, code, client, redirectUri, verifier, now, issued), calls, code);
  }

  /** An exchange that a guard refuses, or that spends a code for which no token can be created. */
  predicate ExchangeFails(env: Env, s: Store, code: string, client: string, redirectUri: string,
                          verifier: string, now: int) {
    ExchangeError(env, s, code, client, redirectUri, verifier, now).Some? || s.codes[code].user.None?
  }

  /** A failed exchange leaves the store unchanged exactly when a guard refused it. */
  lemma FailedExchangeIff(env: Env, s: Store, code: string, client: string, redirectUri: string, verifier: string,
                          now: int, issued: string)
    requires ExchangeFails(env, s, code, client, redirectUri, verifier, now)
    ensures Exchange(env, s, code, client, redirectUri, verifier, now, issued) == s <==>
            ExchangeError(env, s, code, client, redirectUri, verifier, now).Some?
  {
    if ExchangeError(env, s, code, client, redirectUri, verifier, now).None? {
      assert Exchange(env, s, code, client, redirectUri, verifier, now, issued).codes[code].consumed;
    }
  }

  ghost predicate AllHaveUsers(s: Store) {
    forall code :: code in s.codes ==> s.codes[code].user.Some?
  }

  /** Every code of the run was generated for a user. */
  predicate GeneratedForUsers(calls: seq<Call>) {
    forall k :: 0 <= k < |calls| && calls[k].CallAuthorize? ==> calls[k].row.user.Some?
  }

  lemma {:induction false} UsersStay(env: Env, s: Store, calls: seq<Call>)
    requires AllHaveUsers(s) && GeneratedForUsers(calls)
    ensures AllHaveUsers(Run(env, s, calls))
    decreases |calls|
  {
    if calls != [] {
      assert calls[0].CallAuthorize? ==> calls[0].row.user.Some?;
      UsersStay(env, Step(env, s, calls[0]), calls[1..]);
    }
  }

  /** In a store whose codes were all generated for users, an exchange issues a token or changes nothing. */
  lemma ExchangeIsWhole(env: Env, calls: seq<Call>, code: string, client: string, redirectUri: string,
                        verifier: string, now: int, issued: string)
    requires GeneratedForUsers(calls)
    ensures var s := Run(env, EMPTY, calls);
            ExchangeFails(env, s, code, client, redirectUri, verifier, now) ==>
              Exchange(env, s, code, client, redirectUri, verifier, now, issued) == s
  {
    UsersStay(env, EMPTY, calls);
  }

  // ---- Rotation ----

  /** Where a token stands: the tail of its chain, unrevoked, unexpired, with this client and scope. */
  ghost predicate IsUsableTail(s: Store, chains: Chains, token: string, client: string, scope: string, now: int)
    requires Shape(s, chains) && token in s.tokens
  {
    exists c :: c in chains && At(chains, c, |chains[c]| - 1, token)
                && client == s.codes[c].client && !s.tokens[token].revoked && now <= s.tokens[token].expiresAt
                && (scope == "" || ScopeSet(scope) <= ScopeSet(s.tokens[token].scope))
  }

  /** A rotation succeeds exactly on a usable tail, and otherwise leaves the store as it was. */
  lemma RefreshIff(env: Env, s: Store, chains: Chains, token: string, client: string, scope: string, now: int,
                   issued: string)
    requires Shape(s, chains) && issued !in s.tokens
    ensures RefreshError(s, token, client, scope, now).None? <==>
            token in s.tokens && IsUsableTail(s, chains, token, client, scope, now)
    ensures (issued in Refresh(env, s, token, client, scope, now, issued).tokens) <==>
            RefreshError(s, token, client, scope, now).None?
    ensures RefreshError(s, token, client, scope, now).Some? ==> Refresh(env, s, token, client, scope, now, issued) == s
  {
    if token in s.tokens {
      var c, i :| At(chains, c, i, token);
      LiveIsTail(s, chains, c, i, token);
      assert LinkOk(s, c, chains[c], i);
    }
  }

  /** Every token of a reachable store traces back to the consumed code whose grant it narrows. */
  lemma Lineage(env: Env, calls: seq<Call>, t: string)
    requires FreshRun(env, EMPTY, calls) && t in Run(env, EMPTY, calls).tokens
    ensures var s := Run(env, EMPTY, calls);
            exists chains, c, i :: Shape(s, chains) && At(chains, c, i, t)
              && Reaches(s.tokens, chains[c][0], t)
              && ScopeSet(s.tokens[t].scope) <= ScopeSet(s.codes[c].scope)
              && s.tokens[t].client == s.codes[c].client && s.tokens[t].tenant == s.codes[c].tenant
              && Some(s.tokens[t].user) == s.codes[c].user
  {
    var s := Run(env, EMPTY, calls);
    ReachableShape(env, calls);
    var chains :| Shape(s, chains);
    var c, i :| At(chains, c, i, t);
    assert LinkOk(s, c, chains[c], i);
    assert At(chains, c, 0, chains[c][0]);
    ReachesInChain(s, chains, c, 0, chains[c][0], t);
  }

  // ---- Revocation ----

  /** Revoking from any member revokes its whole chain and leaves every other chain alone. */
  lemma RevokeChainRevokesAll(s: Store, chains: Chains, c: string, i: int, t: string, now: int)
    requires Shape(s, chains) && At(chains, c, i, t)
    ensures AllRevoked(RevokeChain(s, t, now), chains[c])
    ensures forall u :: u in s.tokens && u !in chains[c] ==> RevokeChain(s, t, now).tokens[u] == s.tokens[u]
  {
    var s' := RevokeChain(s, t, now);
    forall u | u in chains[c] ensures u in s'.tokens && s'.tokens[u].revoked {
      var j :| 0 <= j < |chains[c]| && chains[c][j] == u;
      assert LinkOk(s, c, chains[c], j) && At(chains, c, j, u);
      ReachesInChain(s, chains, c, i, t, u);
      assert j >= i ==> Reaches(s.tokens, t, u);
    }
    forall u | u in s.tokens && u !in chains[c] ensures s'.tokens[u] == s.tokens[u] {
      ReachesInChain(s, chains, c, i, t, u);
    }
  }

  /** One call cannot revive, extend or touch a chain that is revoked throughout. */
  lemma RevokedChainStepFrozen(env: Env, s: Store, call: Call, chains: Chains, c: string)
    requires Shape(s, chains) && FreshCall(s, call) && c in chains && AllRevoked(s, chains[c])
    ensures forall t :: t in chains[c] ==> t in Step(env, s, call).tokens && Step(env, s, call).tokens[t] == s.tokens[t]
  {
  }

  /** Once a chain is revoked throughout, every later run leaves its rows, and its length, unchanged for ever. */
  lemma {:induction false} RevocationIsPermanent(env: Env, s: Store, calls: seq<Call>, chains: Chains, c: string)
    returns (chains': Chains)
    requires Shape(s, chains) && FreshRun(env, s, calls) && c in chains && AllRevoked(s, chains[c])
    ensures Shape(Run(env, s, calls), chains') && c in chains' && chains'[c] == chains[c]
    ensures AllRevoked(Run(env, s, calls), chains[c])
    ensures forall t :: t in chains[c] ==> Run(env, s, calls).tokens[t] == s.tokens[t]
    decreases |calls|
  {
    chains' := chains;
    if calls != [] {
      RevokedChainStepFrozen(env, s, calls[0], chains, c);
      chains' := StepKeepsShape(env, s, calls[0], chains);
      chains' := RevocationIsPermanent(env, Step(env, s, calls[0]), calls[1..], chains', c);
    }
  }

  /** After one revocation of any member, no later rotation of any member of that chain succeeds. */
  lemma NoRotationAfterRevocation(env: Env, s: Store, chains: Chains, c: string, i: int, t: string, now: int,
                                  calls: seq<Call>, u: string, client: string, scope: string, later: int)
    requires Shape(s, chains) && At(chains, c, i, t) && u in chains[c]
    requires FreshRun(env, RevokeChain(s, t, now), calls)
    ensures RefreshError(Run(env, RevokeChain(s, t, now), calls), u, client, scope, later) == Some(TokenRevoked)
  {
    RevokeChainRevokesAll(s, chains, c, i, t, now);
    RevokeKeepsShape(s, t, now, chains);
    var chains' := RevocationIsPermanent(env, RevokeChain(s, t, now), calls, chains, c);
  }

  /**
   The endpoint is described as revoking a token along with its whole chain. It returns early on a token
   that is already revoked, so it leaves the chain revoked exactly when the client may act on an unrevoked
   token, or nothing was left to revoke.
   */
  lemma EndpointRevokesChainIff(s: Store, chains: Chains, c: string, i: int, t: string, client: string, now: int)
    requires Shape(s, chains) && At(chains, c, i, t) && t in s.tokens
    ensures AllRevoked(RevokeEndpoint(s, client, t, now), chains[c]) <==>
            (client == s.codes[c].client && !s.tokens[t].revoked) || AllRevoked(s, chains[c])
  {
    assert LinkOk(s, c, chains[c], i);
    RevokeChainRevokesAll(s, chains, c, i, t, now);
  }

  /** When the endpoint does act, it acts on a tail, and so on one row only. */
  lemma EndpointTouchesOneRow(s: Store, chains: Chains, c: string, i: int, t: string, client: string, now: int)
    requires Shape(s, chains) && At(chains, c, i, t) && t in s.tokens
    ensures RevokeAllowed(s, client, t) ==> i == |chains[c]| - 1
    ensures forall u :: u in s.tokens && u != t ==> RevokeEndpoint(s, client, t, now).tokens[u] == s.tokens[u]
  {
    LiveIsTail(s, chains, c, i, t);
    forall u | u in s.tokens && u != t && RevokeAllowed(s, client, t) ensures !Reaches(s.tokens, t, u) {
      ReachesInChain(s, chains, c, i, t, u);
    }
  }

  /** A concrete run: after one rotation, presenting the first token to the endpoint leaves the second live. */
  lemma EndpointLeavesTailLive(env: Env, tenant: string, user: string, now: int)
    requires env.tokenLifetime >= 0
    ensures var row := Code("app", tenant, "https://app/", "read", "", "", Some(user), now, false, None);
            var calls := [CallAuthorize(true, "code", row), CallExchange("code", "app", "", "", now, "first"),
                          CallRefresh("first", "app", "", now, "second"), CallRevokeEndpoint("app", "first", now)];
            FreshRun(env, EMPTY, calls) && "second" in LiveTokens(Run(env, EMPTY, calls))
            && Reaches(Run(env, EMPTY, calls).tokens, "first", "second")
  {
    var row := Code("app", tenant, "https://app/", "read", "", "", Some(user), now, false, None);
    var calls := [CallAuthorize(true, "code", row), CallExchange("code", "app", "", "", now, "first"),
                  CallRefresh("first", "app", "", now, "second"), CallRevokeEndpoint("app", "first", now)];
    var s1 := Step(env, EMPTY, calls[0]);
    var s2 := Step(env, s1, calls[1]);
    var s3 := Step(env, s2, calls[2]);
    assert RefreshError(s2, "first", "app", "", now).None?;
    assert Step(env, s3, calls[3]) == s3;
    assert calls[1..][0] == calls[1] && calls[1..][1..] == calls[2..];
    assert calls[2..][1..] == calls[3..] && calls[3..][1..] == [];
    assert Run(env, s3, calls[3..]) == s3;
    assert Run(env, s2, calls[2..]) == s3;
    assert Run(env, s1, calls[1..]) == Run(env, s2, calls[2..]);
    assert Run(env, EMPTY, calls) == Run(env, s1, calls[1..]);
    assert FreshRun(env, s3, calls[3..]) && FreshRun(env, s2, calls[2..]) && FreshRun(env, s1, calls[1..]);
    assert Follow(s3.tokens, "first", 0) == Some("first");
    assert Follow(s3.tokens, "first", 1) == Some("second");
  }
}
