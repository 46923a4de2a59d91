/**
 The `replaced_by` links between refresh-token rows, seen as a partial function on token references.
 Nothing here assumes how the links came about: the walk is studied on any table, cyclic or not.
 */
module TokenLinks {
  import opened Wrappers

  datatype Token = Token(
    client: string,
    tenant: string,
    user: string,
    scope: string,
    expiresAt: int,
    revoked: bool,
    revokedAt: Option<int>,
    replacedBy: Option<string>)

  type Table = map<string, Token>

  /** The row reached from `start` by following `replaced_by` `n` times; a missing row ends the walk. */
  function Follow(tokens: Table, start: string, n: nat): (r: Option<string>)
    ensures r.Some? ==> r.value in tokens
  {
    if n == 0 then
      if start in tokens then Some(start) else None
    else
      match Follow(tokens, start, n - 1)
      case None => None
      case Some(t) =>
        match tokens[t].replacedBy
        case None => None
        case Some(next) => if next in tokens then Some(next) else None
  }

  ghost predicate Reaches(tokens: Table, start: string, t: string) {
    exists n: nat :: Follow(tokens, start, n) == Some(t)
  }

  ghost predicate WalkEnds(tokens: Table, start: string) {
    exists n: nat :: Follow(tokens, start, n).None?
  }

  ghost predicate OnCycle(tokens: Table, t: string) {
    exists n: nat :: n > 0 && Follow(tokens, t, n) == Some(t)
  }

  ghost predicate Acyclic(tokens: Table) {
    forall t :: t in tokens ==> !OnCycle(tokens, t)
  }

  /** What revoking does to one row: a first revocation is stamped, an earlier one keeps its stamp. */
  function Revoked(row: Token, now: int): Token {
    if row.revoked then row else row.(revoked := true, revokedAt := Some(now))
  }

  /** The table after the revocation of one row. */
  function RevokeRow(rows: Table, t: string, now: int): (r: Table)
    requires t in rows
    ensures r.Keys == rows.Keys
  {
    if rows[t].revoked then rows else rows[t := rows[t].(revoked := true, revokedAt := Some(now))]
  }

  /** The table after every row reachable from `start` has been revoked, and no other touched. */
  ghost function RevokedFrom(tokens: Table, start: string, now: int): Table {
    map t | t in tokens :: if Reaches(tokens, start, t) then Revoked(tokens[t], now) else tokens[t]
  }

  /** The table after the first `n` rows of the walk from `start` have been visited in turn. */
  ghost function RevokedPrefix(tokens: Table, start: string, n: nat, now: int): (r: Table)
    ensures r.Keys == tokens.Keys
  {
    if n == 0 then tokens else
    var done := RevokedPrefix(tokens, start, n - 1, now);
    match Follow(tokens, start, n - 1)
    case None => done
    case Some(t) => RevokeRow(done, t, now)
  }

  lemma {:induction false} FollowStaysEnded(tokens: Table, start: string, n: nat, m: nat)
    requires n <= m && Follow(tokens, start, n).None?
    ensures Follow(tokens, start, m).None?
    decreases m - n
  {
    if n < m {
      FollowStaysEnded(tokens, start, n + 1, m);
    }
  }

  /** The walk composes: `i` steps, then `n` more from where they led. */
  lemma {:induction false} FollowCompose(tokens: Table, start: string, i: nat, n: nat)
    requires Follow(tokens, start, i).Some?
    ensures Follow(tokens, start, i + n) == Follow(tokens, Follow(tokens, start, i).value, n)
  {
    if n > 0 {
      FollowCompose(tokens, start, i, n - 1);
    }
  }

  ghost predicate SeenBefore(tokens: Table, start: string, n: nat, t: string) {
    exists i: nat :: i < n && Follow(tokens, start, i) == Some(t)
  }

  /** Visiting rows in turn revokes exactly those visited, once each, and leaves every link in place. */
  lemma {:induction false} PrefixRows(tokens: Table, start: string, n: nat, now: int, t: string)
    requires t in tokens
    ensures RevokedPrefix(tokens, start, n, now)[t].replacedBy == tokens[t].replacedBy
    ensures RevokedPrefix(tokens, start, n, now)[t]
            == if SeenBefore(tokens, start, n, t) then Revoked(tokens[t], now) else tokens[t]
  {
    if n > 0 {
      PrefixRows(tokens, start, n - 1, now, t);
      assert SeenBefore(tokens, start, n, t) <==>
             SeenBefore(tokens, start, n - 1, t) || Follow(tokens, start, n - 1) == Some(t);
    }
  }

  /** Where the revocation loop stands after `n` turns: at row `current`, with `rows` in the table. */
  ghost predicate WalkAt(tokens: Table, start: string, n: nat, current: Option<string>, now: int, rows: Table) {
    Follow(tokens, start, n) == current && rows == RevokedPrefix(tokens, start, n, now)
  }

  /** The row that `t` links to, if the link is set and the row exists. */
  function LinkOf(rows: Table, t: string): (r: Option<string>)
    requires t in rows
  {
    if rows[t].replacedBy.Some? && rows[t].replacedBy.value in rows then rows[t].replacedBy else None
  }

  /** One turn: stamp the current row and move along the link it holds now. The end comes strictly nearer. */
  lemma WalkStep(tokens: Table, start: string, n: nat, here: string, now: int, rows: Table, end: nat)
    requires WalkAt(tokens, start, n, Some(here), now, rows) && Follow(tokens, start, end).None?
    ensures here in rows && n < end
    ensures var rows' := RevokeRow(rows, here, now);
            WalkAt(tokens, start, n + 1, LinkOf(rows', here), now, rows')
  {
    PrefixRows(tokens, start, n, now, here);
    if end <= n {
      FollowStaysEnded(tokens, start, end, n);
    }
  }

  /** A prefix as long as an ended walk is the whole reachable set. */
  lemma PrefixIsAll(tokens: Table, start: string, n: nat, now: int)
    requires Follow(tokens, start, n).None?
    ensures RevokedPrefix(tokens, start, n, now) == RevokedFrom(tokens, start, now)
  {
    forall t | t in tokens
      ensures RevokedPrefix(tokens, start, n, now)[t] == RevokedFrom(tokens, start, now)[t]
    {
      PrefixRows(tokens, start, n, now, t);
      if Reaches(tokens, start, t) {
        var i: nat :| Follow(tokens, start, i) == Some(t);
        if i >= n {
          FollowStaysEnded(tokens, start, n, i);
        }
        assert SeenBefore(tokens, start, n, t);
      }
    }
  }

  ghost function Visited(tokens: Table, start: string, n: nat): set<string> {
    set i: nat | i < n && Follow(tokens, start, i).Some? :: Follow(tokens, start, i).value
  }

  /** While no visited row lies on a cycle, every step of a walk meets a new row. */
  lemma {:induction false} WalkVisitsNewRows(tokens: Table, start: string, n: nat)
    requires n > 0 ==> Follow(tokens, start, n - 1).Some?
    requires forall t :: Reaches(tokens, start, t) ==> !OnCycle(tokens, t)
    ensures |Visited(tokens, start, n)| == n && Visited(tokens, start, n) <= tokens.Keys
  {
    if n > 0 {
      var here := Follow(tokens, start, n - 1).value;
      WalkVisitsNewRows(tokens, start, n - 1);
      assert Visited(tokens, start, n) == Visited(tokens, start, n - 1) + {here};
      if here in Visited(tokens, start, n - 1) {
        var i: nat :| i < n - 1 && Follow(tokens, start, i) == Some(here);
        FollowCompose(tokens, start, i, n - 1 - i);
        assert OnCycle(tokens, here);
      }
    }
  }

  lemma {:induction false} CycleTurns(tokens: Table, t: string, n: nat, turns: nat)
    requires Follow(tokens, t, n) == Some(t)
    ensures Follow(tokens, t, n * turns) == Some(t)
  {
    if turns > 0 {
      CycleTurns(tokens, t, n, turns - 1);
      FollowCompose(tokens, t, n * (turns - 1), n);
      assert n * turns == n * (turns - 1) + n;
    } else {
      assert n * turns == 0;
      FollowStartsAt(tokens, t, n);
    }
  }

  lemma FollowStartsAt(tokens: Table, t: string, n: nat)
    requires Follow(tokens, t, n).Some?
    ensures Follow(tokens, t, 0) == Some(t)
  {
    if t !in tokens {
      FollowStaysEnded(tokens, t, 0, n);
    }
  }

  /** The walk from a row ends exactly when it meets no cycle. */
  lemma WalkEndsIff(tokens: Table, start: string)
    ensures WalkEnds(tokens, start) <==> forall t :: Reaches(tokens, start, t) ==> !OnCycle(tokens, t)
  {
    if forall t :: Reaches(tokens, start, t) ==> !OnCycle(tokens, t) {
      if Follow(tokens, start, |tokens|).Some? {
        WalkVisitsNewRows(tokens, start, |tokens| + 1);
        SubsetIsNotLarger(Visited(tokens, start, |tokens| + 1), tokens.Keys);
      }
    }
    if WalkEnds(tokens, start) {
      var end: nat :| Follow(tokens, start, end).None?;
      forall t | Reaches(tokens, start, t) ensures !OnCycle(tokens, t) {
        if OnCycle(tokens, t) {
          var i: nat :| Follow(tokens, start, i) == Some(t);
          var n: nat :| n > 0 && Follow(tokens, t, n) == Some(t);
          CycleTurns(tokens, t, n, end);
          FollowCompose(tokens, start, i, n * end);
          assert end <= n * end;
          FollowStaysEnded(tokens, start, end, i + n * end);
        }
      }
    }
  }

  lemma SubsetIsNotLarger<T>(a: set<T>, b: set<T>)
    requires a <= b
    ensures |a| <= |b|
  {
    assert b == a + (b - a);
  }

  /** On an acyclic table every walk ends. */
  lemma AcyclicWalksEnd(tokens: Table, start: string)
    requires Acyclic(tokens)
    ensures WalkEnds(tokens, start)
  {
    WalkEndsIff(tokens, start);
  }
}
