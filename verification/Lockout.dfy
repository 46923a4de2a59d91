/** Account lockout: a failure counter and a lock flag per email, and the login view that consults them. */
module Lockout {
  import opened Wrappers
  import opened TtlCache
  import opened Windows
  import opened CounterWindows

  datatype Settings = Settings(maxAttempts: int, duration: int)

  const ATTEMPTS := "auth:lockout:attempts:"
  const LOCKED := "auth:lockout:locked:"

  function Timeout(cfg: Settings): Option<nat> {
    if cfg.duration > 0 then Some(cfg.duration) else None
  }

  function AttemptsKey(email: string): string { ATTEMPTS + email }

  function LockedKey(email: string): string { LOCKED + email }

  /** No two of the four keys of two different emails are equal. */
  lemma KeysApart(e: string, f: string)
    ensures AttemptsKey(e) != LockedKey(f)
    ensures AttemptsKey(e) == AttemptsKey(f) <==> e == f
    ensures LockedKey(e) == LockedKey(f) <==> e == f
  {
    assert AttemptsKey(e)[13] != LockedKey(f)[13];
    assert AttemptsKey(e)[|ATTEMPTS|..] == e && AttemptsKey(f)[|ATTEMPTS|..] == f;
    assert LockedKey(e)[|LOCKED|..] == e && LockedKey(f)[|LOCKED|..] == f;
  }

  predicate IsLocked(s: State<int>, email: string) {
    Lookup(s, LockedKey(email)).Some? && Lookup(s, LockedKey(email)).value != 0
  }

  /** Delays between the cache operations of one call. */
  datatype Lags = Lags(incr: nat, reset: nat, lock: nat)

  /** The counting part of a recorded failure: the cache, the count it reached and when it was counted. */
  function CountFailure(s: State<int>, cfg: Settings, email: string, lags: Lags): (State<int>, int, int) {
    var key := AttemptsKey(email);
    if !Live(s, key) then (Put(s, key, 1, Timeout(cfg)), 1, s.now) else
    var s1 := Wait(s, lags.incr);
    if Live(s1, key) then (Bump(s1, key), s1.entries[key].value + 1, s1.now) else
    var s2 := Wait(s1, lags.reset);
    (Put(s2, key, 1, Timeout(cfg)), 1, s2.now)
  }

  function RecordFailure(s: State<int>, cfg: Settings, email: string, lags: Lags): State<int> {
    if cfg.maxAttempts == 0 then s else
    var (s1, n, _) := CountFailure(s, cfg, email, lags);
    if n >= cfg.maxAttempts then Put(Wait(s1, lags.lock), LockedKey(email), 1, Timeout(cfg)) else s1
  }

  function ClearLockout(s: State<int>, email: string): State<int> {
    Drop(Drop(s, AttemptsKey(email)), LockedKey(email))
  }

  method RecordFailedAttempt(cache: Cache<int>, cfg: Settings, email: string, lags: Lags)
    modifies cache
    ensures cache.View() == RecordFailure(old(cache.View()), cfg, email, lags)
  {
    if cfg.maxAttempts == 0 {
      return;
    }
    var key, timeout := ATTEMPTS + email, if cfg.duration > 0 then Some(cfg.duration as nat) else None;
    var n := 1;
    var added := cache.Add(key, 1, timeout);
    if !added {
      cache.Sleep(lags.incr);
      var bumped := Incr(cache, key);
      if bumped.Some? {
        n := bumped.value;
      } else {
        cache.Sleep(lags.reset);
        cache.Set(key, 1, timeout);
      }
    }
    if n >= cfg.maxAttempts {
      cache.Sleep(lags.lock);
      cache.Set(LOCKED + email, 1, timeout);
    }
  }

  method Clear(cache: Cache<int>, email: string)
    modifies cache
    ensures cache.View() == ClearLockout(old(cache.View()), email)
  {
    cache.Delete(ATTEMPTS + email);
    cache.Delete(LOCKED + email);
  }

  // ---- The login view ----

  /** What authentication answers: tokens, an authentication failure, or any other exception. */
  datatype Answer = Authenticated | Rejected | OtherError

  datatype Outcome = Blocked | LoggedIn | Failed(at: int) | Raised

  /** One login: gate, authentication lasting `check`, then recording or clearing. */
  function Login(s: State<int>, cfg: Settings, email: string, answer: Answer, check: nat, lags: Lags): (State<int>,
                 Outcome) {
    if IsLocked(s, email) then (s, Blocked) else
    var s1 := Wait(s, check);
    match answer
    case Authenticated => (ClearLockout(s1, email), LoggedIn)
    case Rejected => (RecordFailure(s1, cfg, email, lags), Failed(CountFailure(s1, cfg, email, lags).2))
    case OtherError => (s1, Raised)
  }

  method LoginPost(cache: Cache<int>, cfg: Settings, email: string, answer: Answer, check: nat, lags: Lags)
    returns (blocked: bool)
    modifies cache
    ensures cache.View() == Login(old(cache.View()), cfg, email, answer, check, lags).0
    ensures blocked <==> IsLocked(old(cache.View()), email)
    ensures blocked ==> cache.View() == old(cache.View())
    ensures !blocked && answer.OtherError? ==> cache.View() == Wait(old(cache.View()), check)
  {
    var lock := cache.Get(LOCKED + email);
    if lock.Some? && lock.value != 0 {
      return true;
    }
    cache.Sleep(check);
    match answer {
      case Authenticated => Clear(cache, email);
      case Rejected => RecordFailedAttempt(cache, cfg, email, lags);
      case OtherError =>
    }
    return false;
  }

  /** Who asks for an unlock: their own email, and whether they are a superuser or an admin of their tenant. */
  datatype Requester = Requester(email: string, superuser: bool, tenantAdmin: bool)

  method UnlockPost(cache: Cache<int>, who: Requester, email: string) returns (unlocked: bool)
    modifies cache
    ensures unlocked <==> who.email != email && (who.superuser || who.tenantAdmin)
    ensures cache.View() == if unlocked then ClearLockout(old(cache.View()), email) else old(cache.View())
  {
    if who.email == email {
      return false;
    }
    if !who.superuser {
      if !who.tenantAdmin {
        return false;
      }
    }
    Clear(cache, email);
    return true;
  }

  // ---- Runs ----

  datatype Event =
    | EvLogin(email: string, answer: Answer, gap: nat, check: nat, lags: Lags)
    | EvFailure(email: string, gap: nat, lags: Lags)  // recorded outside the login view, or by an overlapping login
    | EvClear(email: string, gap: nat)                // an unlock or a password change

  function Step(s: State<int>, cfg: Settings, ev: Event): State<int> {
    match ev
    case EvLogin(email, answer, gap, check, lags) => Login(Wait(s, gap), cfg, email, answer, check, lags).0
    case EvFailure(email, gap, lags) => RecordFailure(Wait(s, gap), cfg, email, lags)
    case EvClear(email, gap) => ClearLockout(Wait(s, gap), email)
  }

  function Run(s: State<int>, cfg: Settings, evs: seq<Event>): State<int> {
    if evs == [] then s else Step(Run(s, cfg, evs[..|evs| - 1]), cfg, evs[|evs| - 1])
  }

  /** The time at which this event checked the credentials of `email` and failed, if it did. */
  function FailureAt(s: State<int>, cfg: Settings, ev: Event, email: string): Option<int> {
    match ev
    case EvLogin(e, answer, gap, check, lags) =>
      var outcome := Login(Wait(s, gap), cfg, e, answer, check, lags).1;
      if e == email && outcome.Failed? then Some(outcome.at) else None
    case EvFailure(e, gap, lags) => if e == email then Some(CountFailure(Wait(s, gap), cfg, e, lags).2) else None
    case EvClear(_, _) => None
  }

  /** Failed checks of `email` at times in [from, to). */
  function Failures(s: State<int>, cfg: Settings, evs: seq<Event>, email: string, from: int, to: int): nat {
    if evs == [] then 0 else
    var at := FailureAt(Run(s, cfg, evs[..|evs| - 1]), cfg, evs[|evs| - 1], email);
    Failures(s, cfg, evs[..|evs| - 1], email, from, to) + (if at.Some? && from <= at.value < to then 1 else 0)
  }

  // ---- The counter never outlives the lock ----

  ghost predicate NotBefore(late: Option<int>, early: Option<int>) {
    late.Some? ==> early.Some? && early.value <= late.value
  }

  /** A live counter that has reached the threshold is covered by a live lock that does not expire before it. */
  ghost predicate LockCovers(s: State<int>, cfg: Settings, email: string) {
    var a, l := AttemptsKey(email), LockedKey(email);
    Live(s, a) && s.entries[a].value >= cfg.maxAttempts ==>
      Live(s, l) && s.entries[l].value != 0 && NotBefore(s.entries[l].expires, s.entries[a].expires)
  }

  /** Every live counter is positive, and expires when, and only when, the settings say so. */
  ghost predicate ExpiryFits(s: State<int>, cfg: Settings, email: string) {
    var a := AttemptsKey(email);
    Live(s, a) ==>
      && s.entries[a].value >= 1
      && if cfg.duration > 0 then s.entries[a].expires.Some? && s.entries[a].expires.value <= s.now + cfg.duration
         else s.entries[a].expires.None?
  }

  lemma RecordFailureCovers(s: State<int>, cfg: Settings, e: string, lags: Lags, email: string)
    requires cfg.maxAttempts != 0 && LockCovers(s, cfg, email) && ExpiryFits(s, cfg, email)
    ensures LockCovers(RecordFailure(s, cfg, e, lags), cfg, email)
    ensures ExpiryFits(RecordFailure(s, cfg, e, lags), cfg, email)
  {
    KeysApart(e, email);
    KeysApart(email, e);
    KeysApart(email, email);
    KeysApart(e, e);
  }

  lemma StepCovers(s: State<int>, cfg: Settings, ev: Event, email: string)
    requires cfg.maxAttempts != 0 && LockCovers(s, cfg, email) && ExpiryFits(s, cfg, email)
    ensures LockCovers(Step(s, cfg, ev), cfg, email) && ExpiryFits(Step(s, cfg, ev), cfg, email)
  {
    KeysApart(ev.email, email);
    KeysApart(email, ev.email);
    match ev {
      case EvLogin(e, answer, gap, check, lags) =>
        RecordFailureCovers(Wait(Wait(s, gap), check), cfg, e, lags, email);
      case EvFailure(e, gap, lags) => RecordFailureCovers(Wait(s, gap), cfg, e, lags, email);
      case EvClear(_, _) =>
    }
  }

  lemma {:induction false} RunCovers(s: State<int>, cfg: Settings, evs: seq<Event>, email: string)
    requires cfg.maxAttempts != 0 && LockCovers(s, cfg, email) && ExpiryFits(s, cfg, email)
    ensures LockCovers(Run(s, cfg, evs), cfg, email) && ExpiryFits(Run(s, cfg, evs), cfg, email)
  {
    if evs != [] {
      RunCovers(s, cfg, evs[..|evs| - 1], email);
      StepCovers(Run(s, cfg, evs[..|evs| - 1]), cfg, evs[|evs| - 1], email);
    }
  }

  /** At every call boundary of every run, whatever mix of logins, failures and unlocks led there. */
  lemma CounterNeverOutlivesLock(start: int, cfg: Settings, evs: seq<Event>, email: string)
    requires cfg.maxAttempts != 0
    ensures LockCovers(Run(State(map[], start), cfg, evs), cfg, email)
    ensures ExpiryFits(Run(State(map[], start), cfg, evs), cfg, email)
  {
    RunCovers(State(map[], start), cfg, evs, email);
  }

  /** A threshold of zero disables lockout: no event writes anything but a clear. */
  lemma ZeroDisables(s: State<int>, cfg: Settings, ev: Event)
    requires cfg.maxAttempts == 0
    ensures forall k :: k in Step(s, cfg, ev).entries ==> k in s.entries && Step(s, cfg, ev).entries[k] == s.entries[k]
  {
  }

  // ---- How many failed checks get through the gate ----

  /** Nothing in the run clears the lockout of `email`. */
  predicate Uncleared(evs: seq<Event>, email: string) {
    forall ev :: ev in evs && ev.email == email ==> !ev.EvClear? && !(ev.EvLogin? && ev.answer.Authenticated?)
  }

  /** A failure recorded under a live lock, by a login that passed the gate before the lock was set. */
  predicate Late(s: State<int>, ev: Event, email: string) {
    ev.email == email && ev.EvFailure? && IsLocked(Wait(s, ev.gap), email)
  }

  predicate NeverLate(s: State<int>, cfg: Settings, evs: seq<Event>, email: string) {
    evs == []
    || (&& NeverLate(s, cfg, evs[..|evs| - 1], email)
        && !Late(Run(s, cfg, evs[..|evs| - 1]), evs[|evs| - 1], email))
  }

  ghost predicate FailuresExplained(ws: seq<Window>, s: State<int>, cfg: Settings, email: string) {
    Explains(ws, s, AttemptsKey(email), Max(1, cfg.maxAttempts), cfg.duration)
  }

  /** One counted failure, below the threshold beforehand, extends the explanation by its time. */
  lemma CountFailureExplains(ws: seq<Window>, s: State<int>, cfg: Settings, email: string, lags: Lags)
    returns (ws': seq<Window>)
    requires cfg.duration > 0 && FailuresExplained(ws, s, cfg, email)
    requires Live(s, AttemptsKey(email)) ==> s.entries[AttemptsKey(email)].value < cfg.maxAttempts
    ensures FailuresExplained(ws', CountFailure(s, cfg, email, lags).0, cfg, email)
    ensures var at := CountFailure(s, cfg, email, lags).2;
            forall a, b :: Total(ws', a, b) == Total(ws, a, b) + (if a <= at < b then 1 else 0)
  {
    var key, cap := AttemptsKey(email), Max(1, cfg.maxAttempts);
    var s1 := Wait(s, lags.incr);
    var s2 := Wait(s1, lags.reset);
    FrameExplains(ws, s, s1, key, cap, cfg.duration);
    FrameExplains(ws, s1, s2, key, cap, cfg.duration);
    if !Live(s, key) {
      ws' := OpenExplains(ws, s, key, cap, cfg.duration);
    } else if Live(s1, key) {
      ws' := BumpExplains(ws, s1, key, cap, cfg.duration);
    } else {
      ws' := OpenExplains(ws, s2, key, cap, cfg.duration);
    }
  }

  /** The event leaves the counter of `email` alone. */
  lemma OtherEventFrames(s: State<int>, cfg: Settings, ev: Event, email: string)
    requires ev.email != email || (ev.EvLogin? && (IsLocked(Wait(s, ev.gap), email) || ev.answer.OtherError?))
    ensures var (s', a) := (Step(s, cfg, ev), AttemptsKey(email));
            && s.now <= s'.now && (a in s'.entries <==> a in s.entries)
            && (a in s.entries ==> s'.entries[a] == s.entries[a])
    ensures FailureAt(s, cfg, ev, email).None?
  {
    KeysApart(ev.email, email);
    KeysApart(email, ev.email);
  }

  /** A failure recorded while the email is not locked. */
  lemma RecordFailureExplains(ws: seq<Window>, s: State<int>, cfg: Settings, email: string, lags: Lags)
    returns (ws': seq<Window>)
    requires cfg.duration > 0 && cfg.maxAttempts != 0 && FailuresExplained(ws, s, cfg, email)
    requires Live(s, AttemptsKey(email)) ==> s.entries[AttemptsKey(email)].value < cfg.maxAttempts
    ensures FailuresExplained(ws', RecordFailure(s, cfg, email, lags), cfg, email)
    ensures var at := CountFailure(s, cfg, email, lags).2;
            forall a, b :: Total(ws', a, b) == Total(ws, a, b) + (if a <= at < b then 1 else 0)
  {
    ws' := CountFailureExplains(ws, s, cfg, email, lags);
    var counted := CountFailure(s, cfg, email, lags).0;
    KeysApart(email, email);
    FrameExplains(ws', counted, RecordFailure(s, cfg, email, lags), AttemptsKey(email),
                  Max(1, cfg.maxAttempts), cfg.duration);
  }

  /** Where the credentials of an event are found wrong, if the gate lets it that far. */
  function CheckedAt(s: State<int>, ev: Event): State<int> {
    Wait(Wait(s, ev.gap), if ev.EvLogin? then ev.check else 0)
  }

  /** An event that gets through to a failed check comes to a counter below the threshold. */
  lemma ChecksBelowThreshold(s: State<int>, cfg: Settings, ev: Event, email: string)
    requires LockCovers(s, cfg, email) && cfg.maxAttempts != 0
    requires ev.email == email && !IsLocked(Wait(s, ev.gap), email)
    requires (ev.EvFailure? || (ev.EvLogin? && ev.answer.Rejected?))
    ensures var s1 := CheckedAt(s, ev);
      && Step(s, cfg, ev) == RecordFailure(s1, cfg, email, ev.lags)
      && FailureAt(s, cfg, ev, email) == Some(CountFailure(s1, cfg, email, ev.lags).2)
      && (Live(s1, AttemptsKey(email)) ==> s1.entries[AttemptsKey(email)].value < cfg.maxAttempts)
  {
  }

  lemma FailureExplains(ws: seq<Window>, s: State<int>, cfg: Settings, ev: Event, email: string)
    returns (ws': seq<Window>)
    requires cfg.duration > 0 && cfg.maxAttempts != 0
    requires LockCovers(s, cfg, email) && FailuresExplained(ws, s, cfg, email)
    requires ev.email == email && !IsLocked(Wait(s, ev.gap), email)
    requires (ev.EvFailure? || (ev.EvLogin? && ev.answer.Rejected?))
    ensures FailuresExplained(ws', Step(s, cfg, ev), cfg, email)
    ensures var at := FailureAt(s, cfg, ev, email);
            at.Some? && forall a, b :: Total(ws', a, b) == Total(ws, a, b) + (if a <= at.value < b then 1 else 0)
  {
    ChecksBelowThreshold(s, cfg, ev, email);
    var s1 := CheckedAt(s, ev);
    FrameExplains(ws, s, s1, AttemptsKey(email), Max(1, cfg.maxAttempts), cfg.duration);
    ws' := RecordFailureExplains(ws, s1, cfg, email, ev.lags);
  }

  lemma StepExplains(ws: seq<Window>, s: State<int>, cfg: Settings, ev: Event, email: string) returns (ws': seq<Window>)
    requires cfg.duration > 0 && cfg.maxAttempts != 0
    requires LockCovers(s, cfg, email) && FailuresExplained(ws, s, cfg, email)
    requires Uncleared([ev], email) && !Late(s, ev, email)
    ensures FailuresExplained(ws', Step(s, cfg, ev), cfg, email)
    ensures var at := FailureAt(s, cfg, ev, email);
            forall a, b :: Total(ws', a, b) == Total(ws, a, b) + (if at.Some? && a <= at.value < b then 1 else 0)
  {
    assert ev in [ev];
    if ev.email != email || IsLocked(Wait(s, ev.gap), email) || (ev.EvLogin? && ev.answer.OtherError?) {
      OtherEventFrames(s, cfg, ev, email);
      FrameExplains(ws, s, Step(s, cfg, ev), AttemptsKey(email), Max(1, cfg.maxAttempts), cfg.duration);
      ws' := ws;
    } else {
      ws' := FailureExplains(ws, s, cfg, ev, email);
    }
  }

  /** A counter left by an earlier run opened its window one duration before it expires. */
  lemma HistoryExplained(s: State<int>, cfg: Settings, email: string) returns (ws: seq<Window>)
    requires cfg.duration > 0 && ExpiryFits(s, cfg, email)
    ensures FailuresExplained(ws, s, cfg, email)
    ensures forall a, b :: Total(ws, a, b) == 0
  {
    var key := AttemptsKey(email);
    ws := [];
    if Live(s, key) {
      ws := [Window(s.entries[key].expires.value - cfg.duration, [])];
      assert ws[..0] == [];
    }
  }

  lemma {:induction false} RunExplained(s: State<int>, cfg: Settings, evs: seq<Event>, email: string)
    returns (ws: seq<Window>)
    requires cfg.duration > 0 && cfg.maxAttempts != 0 && Uncleared(evs, email) && NeverLate(s, cfg, evs, email)
    requires LockCovers(s, cfg, email) && ExpiryFits(s, cfg, email)
    ensures FailuresExplained(ws, Run(s, cfg, evs), cfg, email)
    ensures forall a, b :: Total(ws, a, b) == Failures(s, cfg, evs, email, a, b)
    decreases |evs|
  {
    if evs == [] {
      ws := HistoryExplained(s, cfg, email);
    } else {
      var before, ev := evs[..|evs| - 1], evs[|evs| - 1];
      ws := RunExplained(s, cfg, before, email);
      RunCovers(s, cfg, before, email);
      ws := StepExplains(ws, Run(s, cfg, before), cfg, ev, email);
    }
  }

  /**
   After any history at all, with no clear from then on and no failure recorded under a live lock, an interval of
   length L sees at most (ceil(L / D) + 1) * MAX failed checks.
   */
  lemma FailureBound(start: int, cfg: Settings, history: seq<Event>, evs: seq<Event>, email: string,
                     from: int, length: nat)
    requires cfg.duration > 0 && cfg.maxAttempts != 0 && Uncleared(evs, email)
    requires NeverLate(Run(State(map[], start), cfg, history), cfg, evs, email)
    ensures Failures(Run(State(map[], start), cfg, history), cfg, evs, email, from, from + length)
            <= (CeilDiv(length, cfg.duration) + 1) * Max(1, cfg.maxAttempts)
  {
    CounterNeverOutlivesLock(start, cfg, history, email);
    var ws := RunExplained(Run(State(map[], start), cfg, history), cfg, evs, email);
    TotalBound(ws, cfg.duration, Max(1, cfg.maxAttempts), from, length);
  }

  /** Logins that do not overlap are never late. */
  lemma {:induction false} SerialIsNeverLate(s: State<int>, cfg: Settings, evs: seq<Event>, email: string)
    requires forall ev :: ev in evs && ev.email == email ==> ev.EvLogin?
    ensures NeverLate(s, cfg, evs, email)
  {
    if evs != [] {
      assert evs[|evs| - 1] in evs;
      SerialIsNeverLate(s, cfg, evs[..|evs| - 1], email);
    }
  }

  // ---- Manual unlock only ----

  /** All failed checks of `email` in the run. */
  function AllFailures(s: State<int>, cfg: Settings, evs: seq<Event>, email: string): nat {
    if evs == [] then 0 else
    AllFailures(s, cfg, evs[..|evs| - 1], email)
    + (if FailureAt(Run(s, cfg, evs[..|evs| - 1]), cfg, evs[|evs| - 1], email).Some? then 1 else 0)
  }

  /** The failures counted since the last clear. */
  function Counted(s: State<int>, email: string): int {
    if AttemptsKey(email) in s.entries then s.entries[AttemptsKey(email)].value else 0
  }

  /** With no duration nothing expires, and the lock is there exactly when the count has reached the threshold. */
  ghost predicate Standing(s: State<int>, cfg: Settings, email: string) {
    var a, l := AttemptsKey(email), LockedKey(email);
    && (a in s.entries ==> s.entries[a].expires.None? && s.entries[a].value >= 1)
    && (l in s.entries ==> s.entries[l] == Entry(1, None))
    && (l in s.entries <==> a in s.entries && s.entries[a].value >= cfg.maxAttempts)
  }

  lemma RecordFailureStanding(s: State<int>, cfg: Settings, e: string, lags: Lags, email: string)
    requires cfg.duration <= 0 && cfg.maxAttempts != 0 && Standing(s, cfg, email)
    ensures Standing(RecordFailure(s, cfg, e, lags), cfg, email)
    ensures Counted(RecordFailure(s, cfg, e, lags), email) == Counted(s, email) + (if e == email then 1 else 0)
  {
    KeysApart(e, email);
    KeysApart(email, e);
  }

  lemma StepStanding(s: State<int>, cfg: Settings, ev: Event, email: string)
    requires cfg.duration <= 0 && cfg.maxAttempts != 0 && Standing(s, cfg, email)
    ensures Standing(Step(s, cfg, ev), cfg, email)
  {
    match ev
    case EvLogin(e, answer, gap, check, lags) =>
      RecordFailureStanding(Wait(Wait(s, gap), check), cfg, e, lags, email);
      ClearStanding(Wait(Wait(s, gap), check), cfg, e, email);
    case EvFailure(e, gap, lags) => RecordFailureStanding(Wait(s, gap), cfg, e, lags, email);
    case EvClear(e, gap) => ClearStanding(Wait(s, gap), cfg, e, email);
  }

  lemma ClearStanding(s: State<int>, cfg: Settings, e: string, email: string)
    requires Standing(s, cfg, email)
    ensures Standing(ClearLockout(s, e), cfg, email)
    ensures e != email ==> Counted(ClearLockout(s, e), email) == Counted(s, email)
  {
    KeysApart(e, email);
    KeysApart(email, e);
  }

  /** Without a clear each failed check counts one; it is made at the threshold or above exactly when it is late. */
  lemma StepCounts(s: State<int>, cfg: Settings, ev: Event, email: string)
    requires cfg.duration <= 0 && cfg.maxAttempts != 0 && Standing(s, cfg, email) && Uncleared([ev], email)
    ensures var failed := FailureAt(s, cfg, ev, email).Some?;
            && Counted(Step(s, cfg, ev), email) == Counted(s, email) + (if failed then 1 else 0)
            && (failed && Counted(s, email) >= Max(1, cfg.maxAttempts) <==> Late(s, ev, email))
  {
    assert ev in [ev];
    match ev
    case EvLogin(e, answer, gap, check, lags) =>
      RecordFailureStanding(Wait(Wait(s, gap), check), cfg, e, lags, email);
      ClearStanding(Wait(Wait(s, gap), check), cfg, e, email);
    case EvFailure(e, gap, lags) => RecordFailureStanding(Wait(s, gap), cfg, e, lags, email);
    case EvClear(e, gap) => ClearStanding(Wait(s, gap), cfg, e, email);
  }

  lemma {:induction false} RunStanding(s: State<int>, cfg: Settings, evs: seq<Event>, email: string)
    requires cfg.duration <= 0 && cfg.maxAttempts != 0 && Standing(s, cfg, email)
    ensures Standing(Run(s, cfg, evs), cfg, email)
  {
    if evs != [] {
      RunStanding(s, cfg, evs[..|evs| - 1], email);
      StepStanding(Run(s, cfg, evs[..|evs| - 1]), cfg, evs[|evs| - 1], email);
    }
  }

  lemma {:induction false} UnclearedCount(s: State<int>, cfg: Settings, evs: seq<Event>, email: string)
    requires cfg.duration <= 0 && cfg.maxAttempts != 0 && Standing(s, cfg, email) && Uncleared(evs, email)
    ensures var n := AllFailures(s, cfg, evs, email);
            && Counted(Run(s, cfg, evs), email) == Counted(s, email) + n
            && (n == 0 || Counted(s, email) + n <= Max(1, cfg.maxAttempts) <==> NeverLate(s, cfg, evs, email))
  {
    if evs != [] {
      var before, ev := evs[..|evs| - 1], evs[|evs| - 1];
      UnclearedCount(s, cfg, before, email);
      RunStanding(s, cfg, before, email);
      StepCounts(Run(s, cfg, before), cfg, ev, email);
    }
  }

  /**
   With duration 0, after any history and with no clear from then on: the failures since the last clear stay
   within MAX exactly when none is recorded under the lock; and the email is locked exactly from the MAX-th on.
   */
  lemma ManualUnlockIff(start: int, cfg: Settings, history: seq<Event>, evs: seq<Event>, email: string)
    requires cfg.duration <= 0 && cfg.maxAttempts != 0 && Uncleared(evs, email)
    ensures var s := Run(State(map[], start), cfg, history);
            var before, n := Counted(s, email), AllFailures(s, cfg, evs, email);
            && before >= 0
            && (n == 0 || before + n <= Max(1, cfg.maxAttempts) <==> NeverLate(s, cfg, evs, email))
            && (IsLocked(Run(s, cfg, evs), email) <==> before + n >= Max(1, cfg.maxAttempts))
  {
    var s := Run(State(map[], start), cfg, history);
    RunStanding(State(map[], start), cfg, history, email);
    UnclearedCount(s, cfg, evs, email);
    RunStanding(s, cfg, evs, email);
  }

  // ---- Locks end, and have a cause ----

  /** A live lock expires within one duration from now. */
  ghost predicate LockTimed(s: State<int>, cfg: Settings, email: string) {
    var l := LockedKey(email);
    Live(s, l) ==> s.entries[l].expires.Some? && s.entries[l].expires.value <= s.now + cfg.duration
  }

  lemma StepLockTimed(s: State<int>, cfg: Settings, ev: Event, email: string)
    requires cfg.duration > 0 && LockTimed(s, cfg, email)
    ensures LockTimed(Step(s, cfg, ev), cfg, email)
  {
    KeysApart(ev.email, email);
    KeysApart(email, ev.email);
  }

  lemma {:induction false} RunLockTimed(start: int, cfg: Settings, evs: seq<Event>, email: string)
    requires cfg.duration > 0
    ensures LockTimed(Run(State(map[], start), cfg, evs), cfg, email)
  {
    if evs != [] {
      RunLockTimed(start, cfg, evs[..|evs| - 1], email);
      StepLockTimed(Run(State(map[], start), cfg, evs[..|evs| - 1]), cfg, evs[|evs| - 1], email);
    }
  }

  /** The lock of `s'`, if there is one, is still that of `s`. */
  ghost predicate OldLock(s: State<int>, s': State<int>, email: string) {
    var l := LockedKey(email);
    s.now <= s'.now && (l in s'.entries ==> l in s.entries && s'.entries[l] == s.entries[l])
  }

  lemma StepOldLock(s: State<int>, cfg: Settings, ev: Event, email: string)
    requires FailureAt(s, cfg, ev, email).None?
    ensures OldLock(s, Step(s, cfg, ev), email)
  {
    KeysApart(ev.email, email);
    KeysApart(email, ev.email);
  }

  lemma {:induction false} QuietOldLock(s: State<int>, cfg: Settings, evs: seq<Event>, email: string)
    requires AllFailures(s, cfg, evs, email) == 0
    ensures OldLock(s, Run(s, cfg, evs), email)
  {
    if evs != [] {
      QuietOldLock(s, cfg, evs[..|evs| - 1], email);
      StepOldLock(Run(s, cfg, evs[..|evs| - 1]), cfg, evs[|evs| - 1], email);
    }
  }

  /** With a duration, an email for which no failure is recorded for that long is not locked, whatever came before. */
  lemma UnlocksInTime(start: int, cfg: Settings, history: seq<Event>, evs: seq<Event>, email: string)
    requires cfg.duration > 0
    ensures var s := Run(State(map[], start), cfg, history);
            var s' := Run(s, cfg, evs);
            AllFailures(s, cfg, evs, email) == 0 && s.now + cfg.duration <= s'.now ==> !IsLocked(s', email)
  {
    var s := Run(State(map[], start), cfg, history);
    RunLockTimed(start, cfg, history, email);
    if AllFailures(s, cfg, evs, email) == 0 {
      QuietOldLock(s, cfg, evs, email);
    }
  }

  /** A failure that brings the counter to the threshold locks the email for exactly the duration from then on. */
  lemma LockLasts(s: State<int>, cfg: Settings, ev: Event, email: string, d: nat)
    requires cfg.duration > 0 && cfg.maxAttempts != 0 && FailureAt(s, cfg, ev, email).Some?
    requires AttemptsKey(email) in Step(s, cfg, ev).entries
    requires Step(s, cfg, ev).entries[AttemptsKey(email)].value >= cfg.maxAttempts
    ensures IsLocked(Wait(Step(s, cfg, ev), d), email) <==> d < cfg.duration
  {
    KeysApart(email, email);
  }

  /** The event clears the lockout of `email`: an unlock, or a login that gets through. */
  predicate Clears(s: State<int>, ev: Event, email: string) {
    ev.email == email
    && (ev.EvClear? || (ev.EvLogin? && ev.answer.Authenticated? && !IsLocked(Wait(s, ev.gap), email)))
  }

  /** Failed checks of `email` since its last clear. */
  function SinceClear(s: State<int>, cfg: Settings, evs: seq<Event>, email: string): nat {
    if evs == [] then 0
    else
      var before, ev := Run(s, cfg, evs[..|evs| - 1]), evs[|evs| - 1];
      if Clears(before, ev, email) then 0
      else SinceClear(s, cfg, evs[..|evs| - 1], email) + if FailureAt(before, cfg, ev, email).Some? then 1 else 0
  }

  /** The counter has counted no more than `n` failures, and a lock means at least the threshold of them. */
  ghost predicate Grounded(s: State<int>, cfg: Settings, email: string, n: nat) {
    var a, l := AttemptsKey(email), LockedKey(email);
    && (Live(s, a) ==> s.entries[a].value <= n)
    && (Live(s, l) ==> cfg.maxAttempts != 0 && n >= Max(1, cfg.maxAttempts))
  }

  lemma RecordGrounded(s: State<int>, cfg: Settings, e: string, lags: Lags, email: string, n: nat)
    requires Grounded(s, cfg, email, n)
    ensures Grounded(RecordFailure(s, cfg, e, lags), cfg, email, if e == email then n + 1 else n)
  {
    KeysApart(e, email);
    KeysApart(email, e);
  }

  lemma ClearGrounded(s: State<int>, cfg: Settings, e: string, email: string, n: nat)
    requires Grounded(s, cfg, email, n)
    ensures Grounded(ClearLockout(s, e), cfg, email, if e == email then 0 else n)
  {
    KeysApart(e, email);
    KeysApart(email, e);
  }

  lemma StepGrounded(s: State<int>, cfg: Settings, ev: Event, email: string, n: nat)
    requires Grounded(s, cfg, email, n)
    ensures Grounded(Step(s, cfg, ev), cfg, email,
                     if Clears(s, ev, email) then 0 else n + if FailureAt(s, cfg, ev, email).Some? then 1 else 0)
  {
    match ev
    case EvLogin(e, answer, gap, check, lags) =>
      RecordGrounded(Wait(Wait(s, gap), check), cfg, e, lags, email, n);
      ClearGrounded(Wait(Wait(s, gap), check), cfg, e, email, n);
    case EvFailure(e, gap, lags) => RecordGrounded(Wait(s, gap), cfg, e, lags, email, n);
    case EvClear(e, gap) => ClearGrounded(Wait(s, gap), cfg, e, email, n);
  }

  lemma {:induction false} RunGrounded(start: int, cfg: Settings, evs: seq<Event>, email: string)
    ensures Grounded(Run(State(map[], start), cfg, evs), cfg, email, SinceClear(State(map[], start), cfg, evs, email))
  {
    if evs != [] {
      RunGrounded(start, cfg, evs[..|evs| - 1], email);
      StepGrounded(Run(State(map[], start), cfg, evs[..|evs| - 1]), cfg, evs[|evs| - 1], email,
                   SinceClear(State(map[], start), cfg, evs[..|evs| - 1], email));
    }
  }

  /** In every run, with any duration: a locked email has had max(1, MAX) failures or more since its last clear. */
  lemma LockedForCause(start: int, cfg: Settings, evs: seq<Event>, email: string)
    ensures IsLocked(Run(State(map[], start), cfg, evs), email) ==>
            cfg.maxAttempts != 0 && SinceClear(State(map[], start), cfg, evs, email) >= Max(1, cfg.maxAttempts)
  {
    RunGrounded(start, cfg, evs, email);
  }
}
