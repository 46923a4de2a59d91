/** What exchanges, rotations and revocations hand out and write, stated on rows and requests alone. */
module OAuthGrants {
  import opened Wrappers
  import opened TokenLinks
  import opened OAuth
  import opened OAuthChains

  // ---- Scopes ----

  /** Positions `i` to `j` of `s` hold a word: no space within, and a space or an end on either side. */
  predicate IsWord(s: string, i: int, j: int) {
    && 0 <= i < j <= |s|
    && (forall k :: i <= k < j ==> !IsSpace(s[k]))
    && (i == 0 || IsSpace(s[i - 1])) && (j == |s| || IsSpace(s[j]))
  }

  ghost predicate HasWord(s: string, w: string) {
    exists i, j :: IsWord(s, i, j) && s[i..j] == w
  }

  predicate NoSpace(word: string) {
    forall k :: 0 <= k < |word| ==> !IsSpace(word[k])
  }

  /** Behind a space, words are those of what follows it. */
  lemma WordsBehind(t: string, n: nat, i: int, j: int)
    requires n < |t| && IsSpace(t[n]) && i > n
    ensures IsWord(t, i, j) <==> IsWord(t[n + 1..], i - n - 1, j - n - 1)
    ensures IsWord(t, i, j) ==> t[i..j] == t[n + 1..][i - n - 1..j - n - 1]
  {
    var rest := t[n + 1..];
    assert forall k :: n < k < |t| ==> t[k] == rest[k - n - 1];
    if IsWord(rest, i - n - 1, j - n - 1) {
      forall k | i <= k < j ensures !IsSpace(t[k]) {
        assert !IsSpace(rest[k - n - 1]);
      }
    }
  }

  /** Before the first space there is one word or none. */
  lemma WordBefore(t: string, n: nat, i: int, j: int)
    requires n < |t| && IsSpace(t[n]) && NoSpace(t[..n]) && i <= n
    ensures IsWord(t, i, j) <==> i == 0 && j == n && n > 0
  {
    assert forall k :: 0 <= k < n ==> t[k] == t[..n][k];
    if IsWord(t, i, j) {
      assert IsSpace(t[n]) && !(i <= n < j);
    }
  }

  lemma FirstWord(t: string, n: nat, w: string)
    requires n < |t| && IsSpace(t[n]) && NoSpace(t[..n])
    ensures HasWord(t, w) <==> (w == t[..n] && w != "") || HasWord(t[n + 1..], w)
  {
    if HasWord(t, w) {
      var i, j :| IsWord(t, i, j) && t[i..j] == w;
      if i <= n { WordBefore(t, n, i, j); } else { WordsBehind(t, n, i, j); }
    }
    if w == t[..n] && w != "" {
      WordBefore(t, n, 0, n);
      assert t[0..n] == w;
    }
    if HasWord(t[n + 1..], w) {
      var i, j :| IsWord(t[n + 1..], i, j) && t[n + 1..][i..j] == w;
      WordsBehind(t, n, i + n + 1, j + n + 1);
    }
  }

  lemma OneWord(word: string, w: string)
    requires NoSpace(word)
    ensures HasWord(word, w) <==> w == word && word != ""
  {
    if HasWord(word, w) {
      var i, j :| IsWord(word, i, j) && word[i..j] == w;
      assert i == 0 && j == |word|;
    }
    if w == word && word != "" {
      assert IsWord(word, 0, |word|) && word[0..|word|] == w;
    }
  }

  lemma {:induction false} WordsFromAre(s: string, word: string, w: string)
    requires NoSpace(word)
    ensures w in WordsFrom(s, word) <==> HasWord(word + s, w)
    decreases |s|
  {
    if s == "" {
      OneWord(word, w);
      assert word + s == word;
    } else if IsSpace(s[0]) {
      WordsFromAre(s[1..], "", w);
      assert (word + s)[..|word|] == word && (word + s)[|word| + 1..] == s[1..] && "" + s[1..] == s[1..];
      FirstWord(word + s, |word|, w);
    } else {
      WordsFromAre(s[1..], word + [s[0]], w);
      assert word + s == word + [s[0]] + s[1..];
    }
  }

  /** A scope has exactly the words that stand in it. */
  lemma ScopeHasItsWords(scope: string, w: string)
    ensures w in ScopeSet(scope) <==> HasWord(scope, w)
  {
    WordsFromAre(scope, "", w);
    assert "" + scope == scope;
  }

  // ---- Rotation ----

  /** A rotation is refused unless each word that it asks for is a word of the presented token's scope. */
  lemma RotationIff(env: Env, s: Store, token: string, client: string, scope: string, now: int, issued: string)
    requires issued !in s.tokens
    ensures issued in Refresh(env, s, token, client, scope, now, issued).tokens <==>
            && token in s.tokens && !s.tokens[token].revoked && now <= s.tokens[token].expiresAt
            && client == s.tokens[token].client
            && (scope == "" || forall w :: HasWord(scope, w) ==> HasWord(s.tokens[token].scope, w))
  {
    if token in s.tokens {
      var row := s.tokens[token];
      forall w ensures w in ScopeSet(scope) <==> HasWord(scope, w) {
        ScopeHasItsWords(scope, w);
      }
      forall w ensures w in ScopeSet(row.scope) <==> HasWord(row.scope, w) {
        ScopeHasItsWords(row.scope, w);
      }
    }
  }

  /** The rows that a rotation writes: a live child with the scope asked for, and its revoked parent; no other. */
  lemma RotationWrites(env: Env, s: Store, token: string, client: string, scope: string, now: int, issued: string)
    requires issued !in s.tokens && issued in Refresh(env, s, token, client, scope, now, issued).tokens
    ensures var s' := Refresh(env, s, token, client, scope, now, issued);
      && token in s.tokens && s'.codes == s.codes
      && (scope != "" ==> s'.tokens[issued].scope == scope)
      && (scope == "" ==> s'.tokens[issued].scope == s.tokens[token].scope)
      && s'.tokens[issued] == Token(client, s.tokens[token].tenant, s.tokens[token].user, s'.tokens[issued].scope,
                                    now + env.tokenLifetime, false, None, None)
      && s'.tokens[token] == s.tokens[token].(replacedBy := Some(issued), revoked := true, revokedAt := Some(now))
      && forall t :: t in s.tokens && t != token ==> t in s'.tokens && s'.tokens[t] == s.tokens[t]
  {
  }

  /** The error of a refused rotation names something that is wrong with it. */
  lemma RotationErrorIsTrue(s: Store, token: string, client: string, scope: string, now: int)
    ensures match RefreshError(s, token, client, scope, now)
            case None => true
            case Some(InvalidToken) => token !in s.tokens
            case Some(TokenRevoked) => token in s.tokens && s.tokens[token].revoked
            case Some(TokenExpired) => token in s.tokens && now > s.tokens[token].expiresAt
            case Some(ClientMismatch) => token in s.tokens && s.tokens[token].client != client
            case Some(ScopeExceeded) =>
              token in s.tokens && exists w :: HasWord(scope, w) && !HasWord(s.tokens[token].scope, w)
            case Some(_) => false
  {
    if RefreshError(s, token, client, scope, now) == Some(ScopeExceeded) {
      var w :| w in ScopeSet(scope) && w !in ScopeSet(s.tokens[token].scope);
      ScopeHasItsWords(scope, w);
      ScopeHasItsWords(s.tokens[token].scope, w);
    }
  }

  // ---- Exchange ----

  /** The `k`-th call stored a code: the client is confidential, or it sent a challenge. */
  predicate Stores(calls: seq<Call>, k: int, code: string) {
    && 0 <= k < |calls| && calls[k].CallAuthorize? && calls[k].code == code
    && (calls[k].confidential || calls[k].row.challenge != "")
  }

  /** Up to its consumption the row is the stored one. */
  predicate SameGrant(row: Code, stored: Code) {
    row == stored.(consumed := row.consumed, consumedAt := row.consumedAt)
  }

  /** One call stores at most its own code, and changes no stored row but for its consumption. */
  lemma StepStores(env: Env, s: Store, call: Call, code: string)
    requires FreshCall(s, call)
    ensures code in s.codes ==>
      code in Step(env, s, call).codes && SameGrant(Step(env, s, call).codes[code], s.codes[code])
    ensures code !in s.codes ==>
            (code in Step(env, s, call).codes <==> Stores([call], 0, code))
            && (Stores([call], 0, code) ==> Step(env, s, call).codes[code] == call.row)
  {
  }

  lemma {:induction false} CodeKept(env: Env, s: Store, calls: seq<Call>, code: string)
    requires FreshRun(env, s, calls) && code in s.codes
    ensures code in Run(env, s, calls).codes && SameGrant(Run(env, s, calls).codes[code], s.codes[code])
    ensures forall k :: !Stores(calls, k, code)
    decreases |calls|
  {
    if calls != [] {
      StepStores(env, s, calls[0], code);
      CodeKept(env, Step(env, s, calls[0]), calls[1..], code);
      forall k ensures !Stores(calls, k, code) {
        assert k > 0 ==> !Stores(calls[1..], k - 1, code);
      }
    }
  }

  /** A code is there exactly when some call stored it, and then with what that call supplied. */
  lemma {:induction false} CodeOrigin(env: Env, s: Store, calls: seq<Call>, code: string)
    requires FreshRun(env, s, calls) && code !in s.codes
    ensures code in Run(env, s, calls).codes <==> exists k :: Stores(calls, k, code)
    ensures forall k :: Stores(calls, k, code) ==>
            code in Run(env, s, calls).codes && SameGrant(Run(env, s, calls).codes[code], calls[k].row)
    decreases |calls|
  {
    if calls != [] {
      var next := Step(env, s, calls[0]);
      StepStores(env, s, calls[0], code);
      assert Stores(calls, 0, code) <==> Stores([calls[0]], 0, code);
      if code in next.codes {
        CodeKept(env, next, calls[1..], code);
      } else {
        CodeOrigin(env, next, calls[1..], code);
      }
      forall k
        ensures Stores(calls, k, code) <==> (k == 0 && Stores(calls, 0, code)) || Stores(calls[1..], k - 1, code)
      {
      }
      if exists k :: Stores(calls[1..], k, code) {
        var k :| Stores(calls[1..], k, code);
        assert Stores(calls, k + 1, code);
      }
    }
  }

  /** The request answers the stored row: in time, from its client, with its redirect and its verifier. */
  predicate Answers(env: Env, row: Code, client: string, redirectUri: string, verifier: string, now: int) {
    && now <= row.expiresAt && row.client == client
    && (redirectUri == "" || redirectUri == row.redirectUri)
    && (row.challenge == "" || verifier == ""
        || (if row.challengeMethod == "S256" then env.s256(verifier) else verifier) == row.challenge)
  }

  /**
   After every run, an exchange issues its token exactly when an earlier call stored the code, for a user, it is not
   consumed yet, and the request answers what that call supplied.
   */
  lemma ExchangeIff(env: Env, calls: seq<Call>, code: string, client: string, redirectUri: string, verifier: string,
                    now: int, issued: string)
    requires FreshRun(env, EMPTY, calls) && issued !in Run(env, EMPTY, calls).tokens
    ensures var s := Run(env, EMPTY, calls);
            issued in Exchange(env, s, code, client, redirectUri, verifier, now, issued).tokens <==>
            exists k :: Stores(calls, k, code) && calls[k].row.user.Some?
                        && code in s.codes && !s.codes[code].consumed
                        && Answers(env, calls[k].row, client, redirectUri, verifier, now)
  {
    CodeOrigin(env, EMPTY, calls, code);
  }

  /** The error of a refused exchange names something that is wrong with it. */
  lemma ExchangeErrorIsTrue(env: Env, s: Store, code: string, client: string, redirectUri: string, verifier: string,
                            now: int)
    ensures match ExchangeError(env, s, code, client, redirectUri, verifier, now)
            case None => true
            case Some(NoSuchCode) => code !in s.codes
            case Some(AlreadyConsumed) => code in s.codes && s.codes[code].consumed
            case Some(CodeExpired) => code in s.codes && now > s.codes[code].expiresAt
            case Some(ClientMismatch) => code in s.codes && s.codes[code].client != client
            case Some(RedirectMismatch) =>
              code in s.codes && redirectUri != "" && redirectUri != s.codes[code].redirectUri
            case Some(PkceMismatch) =>
              && code in s.codes && verifier != "" && s.codes[code].challenge != ""
              && (if s.codes[code].challengeMethod == "S256" then env.s256(verifier) else verifier)
                 != s.codes[code].challenge
            case Some(_) => false
  {
  }

  /** The rows that a successful exchange writes: the consumed code, and a live token with its scope; no other. */
  lemma ExchangeWrites(env: Env, s: Store, code: string, client: string, redirectUri: string, verifier: string,
                       now: int, issued: string)
    requires issued !in s.tokens
    requires issued in Exchange(env, s, code, client, redirectUri, verifier, now, issued).tokens
    ensures var s' := Exchange(env, s, code, client, redirectUri, verifier, now, issued);
      && code in s.codes && s.codes[code].user.Some?
      && s'.codes == s.codes[code := s.codes[code].(consumed := true, consumedAt := Some(now))]
      && s'.tokens == s.tokens[issued := Token(client, s.codes[code].tenant, s.codes[code].user.value,
                                               s.codes[code].scope, now + env.tokenLifetime, false, None, None)]
  {
  }

  // ---- Revocation ----

  /** What the walk stamps: rows that it reaches and that were live, with the time of the call; no other row. */
  lemma RevocationStamps(s: Store, token: string, now: int, t: string)
    requires t in s.tokens
    ensures var row, row' := s.tokens[t], RevokeChain(s, token, now).tokens[t];
      && (Reaches(s.tokens, token, t) && !row.revoked ==>
            row'.revoked && row'.revokedAt == Some(now) && row' == row.(revoked := true, revokedAt := row'.revokedAt))
      && (row.revoked || !Reaches(s.tokens, token, t) ==> row' == row)
  {
  }
}
