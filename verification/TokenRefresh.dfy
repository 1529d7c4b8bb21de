/** `stardustlib/auth_client.py` and `stardustlib/credential_store.py`: several
    processes of one user share a refresh token that the server rotates, through
    a lock file and a credential file. */
module TokenRefresh {
  import opened Rows

  /** What a process has in memory and what the credential file holds. */
  datatype Tokens = Tokens(access: Option<nat>, refresh: Option<nat>, expiresAt: real)

  const NO_TOKENS := Tokens(None, None, 0.0)

  /** Seconds before expiry at which a token is renewed, and how long to wait for
      the lock. */
  const MARGIN := 60.0
  const LOCK_TIMEOUT := 10.0

  /** Good for use without a refresh. */
  predicate Fresh(t: Tokens, now: real) {
    t.access.Some? && now < t.expiresAt - MARGIN
  }

  /** `_reload_tokens_from_store`: an unreadable or missing file changes nothing. */
  function Reloaded(memory: Tokens, file: Option<Tokens>, readable: bool): Tokens {
    if readable && file.Some? then file.value else memory
  }

  /** Where a process is inside `get_valid_token`. */
  datatype Stage =
    | Idle
    | Waiting(deadline: real)
    | Locked
    | Ready
    | InFlight(token: nat)
    | Granted(tokens: Tokens)
    | Rejected
    | Leaving

  datatype Process = Process(memory: Tokens, stage: Stage)

  /** `latest` is the refresh token the server issued last, the only one it
      accepts, and not even that once the session is `revoked`. */
  datatype State = State(
    latest: nat, revoked: bool, file: Option<Tokens>, lock: Option<nat>, procs: map<nat, Process>, now: real)

  datatype Action =
    | Call(i: nat)
    | Acquire(i: nat)
    | TimeOut(i: nat)
    | Reload(i: nat, readable: bool)
    | Send(i: nat)
    | Undelivered(i: nat)
    | Answer(i: nat, access: nat, refresh: nat, expiresAt: real)
    | Persist(i: nat)
    | Release(i: nat)
    | Revoke
    | Tick(t: real)
    | LoseReply(i: nat, refresh: nat)
    | SetKeyPassword(i: nat)
    | Clear(i: nat)

  predicate Enabled(s: State, a: Action) {
    if a.Revoke? then true
    else if a.Tick? then s.now <= a.t
    else a.i in s.procs && Can(s, s.procs[a.i], a)
  }

  predicate Can(s: State, p: Process, a: Action) {
    match a
    case Call(_) => p.stage.Idle? && p.memory.access.Some?
    case Acquire(_) => p.stage.Waiting? && s.lock == None
    case TimeOut(_) => p.stage.Waiting? && s.lock != None && s.now > p.stage.deadline
    case Reload(_, readable) => p.stage.Locked?
    case Send(_) => p.stage.Ready?
    case Undelivered(_) => p.stage.InFlight?
    case Answer(_, access, refresh, expiresAt) => p.stage.InFlight? && refresh != s.latest
    case Persist(_) => p.stage.Granted? || p.stage.Rejected?
    case Release(_) => p.stage.Leaving?
    case LoseReply(_, refresh) => p.stage.InFlight? && refresh != s.latest
    case _ => p.stage.Idle?
  }

  function AtStage(s: State, i: nat, stage: Stage): State
    requires i in s.procs
  {
    s.(procs := s.procs[i := s.procs[i].(stage := stage)])
  }

  /** The server looks at a presented token. */
  predicate Accepts(s: State, token: nat) {
    token == s.latest && !s.revoked
  }

  function Next(s: State, a: Action): State {
    if !Enabled(s, a) then s
    else
      match a
      case Revoke => s.(revoked := true)
      case Tick(t) => s.(now := t)
      case Call(i) =>
        if s.now < s.procs[i].memory.expiresAt - MARGIN then s
        else AtStage(s, i, Waiting(s.now + LOCK_TIMEOUT))
      case Acquire(i) => AtStage(s.(lock := Some(i)), i, Locked)
      case TimeOut(i) => AtStage(s, i, Idle)
      case Reload(i, readable) =>
        var memory := Reloaded(s.procs[i].memory, s.file, readable);
        s.(procs := s.procs[i := Process(memory, if Fresh(memory, s.now) then Leaving else Ready)])
      case Send(i) =>
        var refresh := s.procs[i].memory.refresh;
        AtStage(s, i, if refresh.Some? then InFlight(refresh.value) else Leaving)
      case Undelivered(i) => AtStage(s, i, Leaving)
      case Answer(i, access, refresh, expiresAt) =>
        if Accepts(s, s.procs[i].stage.token) then
          AtStage(s.(latest := refresh), i, Granted(Tokens(Some(access), Some(refresh), expiresAt)))
        else
          AtStage(s, i, Rejected)
      case Persist(i) =>
        var tokens := if s.procs[i].stage.Granted? then s.procs[i].stage.tokens else NO_TOKENS;
        s.(file := Some(tokens), procs := s.procs[i := Process(tokens, Leaving)])
      case Release(i) => AtStage(s.(lock := None), i, Idle)
      case LoseReply(i, refresh) =>
        AtStage(if Accepts(s, s.procs[i].stage.token) then s.(latest := refresh) else s, i, Leaving)
      case SetKeyPassword(i) => s.(file := Some(s.procs[i].memory))
      case Clear(i) => s.(file := None, lock := None)
  }

  function After(s: State, run: seq<Action>): State {
    if run == [] then s else Next(After(s, run[..|run| - 1]), run[|run| - 1])
  }

  /** After a login: the file has the latest refresh token, nobody is refreshing.
      What the processes have in memory may be long out of date. */
  predicate Init(s: State) {
    && s.lock == None && s.file.Some? && s.file.value.refresh in {None, Some(s.latest)}
    && forall i | i in s.procs :: s.procs[i].stage.Idle?
  }

  /** A readable store, no lost replies, and nobody who writes the file or removes
      the lock outside it. */
  predicate Clean(a: Action) {
    !a.LoseReply? && !a.SetKeyPassword? && !a.Clear? && (a.Reload? ==> a.readable)
  }

  predicate CleanRun(run: seq<Action>) {
    forall k | 0 <= k < |run| :: Clean(run[k])
  }

  predicate InSection(stage: Stage) {
    !stage.Idle? && !stage.Waiting?
  }

  /** The credential file is up to date, except while its writer holds the lock. */
  predicate FileOk(s: State) {
    && s.file.Some?
    && (s.file.value.refresh in {None, Some(s.latest)} || (s.lock.Some? && s.lock.value in s.procs && s.procs[s.lock.value].stage.Granted?))
  }

  predicate ProcessOk(s: State, i: nat) {
    i in s.procs && s.file.Some? &&
    var p, file := s.procs[i], s.file.value;
    && (InSection(p.stage) <==> s.lock == Some(i))
    && match p.stage
       case Ready => p.memory == file && !Fresh(file, s.now)
       case InFlight(token) => token == s.latest && file.refresh == Some(token) && !Fresh(file, s.now)
       case Granted(tokens) => tokens.refresh == Some(s.latest)
       case Rejected => s.revoked
       case _ => true
  }

  predicate Inv(s: State) {
    && FileOk(s)
    && (s.lock.Some? ==> s.lock.value in s.procs)
    && (forall i | i in s.procs :: ProcessOk(s, i))
  }

  lemma InitInv(s: State)
    requires Init(s)
    ensures Inv(s)
  {
  }

  lemma OthersOk(s: State, s': State, i: nat, j: nat)
    requires Inv(s) && j in s.procs && i != j && i in s'.procs && s'.procs == s.procs[i := s'.procs[i]]
    requires s.lock == Some(i) || (s'.file == s.file && s'.latest == s.latest && s'.lock in {s.lock, Some(i)} && (s'.lock != s.lock ==> s.lock == None))
    requires s'.lock in {s.lock, Some(i), None} && s'.now == s.now && s'.revoked == s.revoked && s'.file.Some?
    ensures ProcessOk(s', j)
  {
    assert ProcessOk(s, j);
  }

  lemma NextInv(s: State, a: Action)
    requires Inv(s) && Clean(a)
    ensures Inv(Next(s, a))
  {
    var s' := Next(s, a);
    if Enabled(s, a) {
      if a.Revoke? || a.Tick? {
        forall j | j in s'.procs ensures ProcessOk(s', j) { assert ProcessOk(s, j); }
      } else {
        assert ProcessOk(s, a.i);
        forall j | j in s'.procs && j != a.i ensures ProcessOk(s', j) { OthersOk(s, s', a.i, j); }
      }
    }
  }

  lemma {:induction false} RunInv(s: State, run: seq<Action>)
    requires Init(s) && CleanRun(run)
    ensures Inv(After(s, run))
  {
    if run == [] {
      InitInv(s);
    } else {
      var n := |run| - 1;
      RunInv(s, run[..n]);
      assert Clean(run[n]);
      NextInv(After(s, run[..n]), run[n]);
    }
  }

  /** At any moment of any clean run, however many processes there are: at most one
      refresh request is under way, it presents the token the server issued last,
      and the credential file had no token that was good for use. */
  lemma AtMostOneRefresh(s: State, run: seq<Action>, i: nat, j: nat)
    requires Init(s) && CleanRun(run)
    requires var t := After(s, run); i in t.procs && j in t.procs && t.procs[i].stage.InFlight? && t.procs[j].stage.InFlight?
    ensures var t := After(s, run);
      i == j && t.procs[i].stage.token == t.latest && t.file.Some? && !Fresh(t.file.value, t.now)
  {
    RunInv(s, run);
    assert ProcessOk(After(s, run), i) && ProcessOk(After(s, run), j);
  }

  /** So nobody is ever turned away unless the session was revoked. */
  lemma NeverRejected(s: State, run: seq<Action>, i: nat)
    requires Init(s) && CleanRun(run)
    ensures var t := After(s, run); i in t.procs && t.procs[i].stage.Rejected? ==> t.revoked
  {
    RunInv(s, run);
    if i in After(s, run).procs { assert ProcessOk(After(s, run), i); }
  }

  /** A request goes out exactly when the file, read under the lock, holds a
      refresh token but no access token with a minute to live; a process that finds
      a fresh one sends none. */
  lemma SendsOnlyWhenStale(s: State, run: seq<Action>, i: nat)
    requires Init(s) && CleanRun(run) && Enabled(After(s, run), Reload(i, true))
    ensures var t := After(s, run);
      var after := After(s, run + [Reload(i, true), Send(i)]);
      && t.file.Some? && i in after.procs
      && (after.procs[i].stage.InFlight? <==> !Fresh(t.file.value, t.now) && t.file.value.refresh.Some?)
      && (Fresh(t.file.value, t.now) ==> after.procs[i] == Process(t.file.value, Leaving))
  {
    var t := After(s, run);
    RunInv(s, run);
    assert ProcessOk(t, i);
    var both := run + [Reload(i, true), Send(i)];
    assert both[..|both| - 1] == run + [Reload(i, true)];
    assert (run + [Reload(i, true)])[..|run|] == run;
    hide Inv;
    assert After(s, both) == Next(Next(t, Reload(i, true)), Send(i));
  }

  /* What happens without the guards. */

  /** The state when process `i` has called, got the lock, read the file, asked,
      and the server has answered. */
  function Attempt(s: State, i: nat, access: nat, refresh: nat, expiresAt: real): State {
    After(s, [Call(i), Acquire(i), Reload(i, true), Send(i), Answer(i, access, refresh, expiresAt)])
  }

  lemma AfterSnoc(s: State, run: seq<Action>, a: Action)
    ensures After(s, run + [a]) == Next(After(s, run), a)
  {
    assert (run + [a])[..|run|] == run;
  }

  lemma AttemptSteps(s: State, i: nat, access: nat, refresh: nat, expiresAt: real)
    ensures Attempt(s, i, access, refresh, expiresAt)
         == Next(Next(Next(Next(Next(s, Call(i)), Acquire(i)), Reload(i, true)), Send(i)), Answer(i, access, refresh, expiresAt))
  {
    hide Next;
    AfterSnoc(s, [], Call(i));
    assert [] + [Call(i)] == [Call(i)];
    AfterSnoc(s, [Call(i)], Acquire(i));
    assert [Call(i)] + [Acquire(i)] == [Call(i), Acquire(i)];
    AfterSnoc(s, [Call(i), Acquire(i)], Reload(i, true));
    assert [Call(i), Acquire(i)] + [Reload(i, true)] == [Call(i), Acquire(i), Reload(i, true)];
    AfterSnoc(s, [Call(i), Acquire(i), Reload(i, true)], Send(i));
    assert [Call(i), Acquire(i), Reload(i, true)] + [Send(i)] == [Call(i), Acquire(i), Reload(i, true), Send(i)];
    AfterSnoc(s, [Call(i), Acquire(i), Reload(i, true), Send(i)], Answer(i, access, refresh, expiresAt));
    assert [Call(i), Acquire(i), Reload(i, true), Send(i)] + [Answer(i, access, refresh, expiresAt)]
        == [Call(i), Acquire(i), Reload(i, true), Send(i), Answer(i, access, refresh, expiresAt)];
  }

  /** A refresh succeeds iff the file has the token the server issued last. */
  lemma RefreshSucceedsIff(s: State, i: nat, access: nat, refresh: nat, expiresAt: real)
    requires i in s.procs && s.procs[i].stage.Idle? && s.lock == None && refresh != s.latest
    requires s.procs[i].memory.access.Some? && s.now >= s.procs[i].memory.expiresAt - MARGIN
    requires s.file.Some? && !Fresh(s.file.value, s.now) && s.file.value.refresh.Some?
    ensures var t := Attempt(s, i, access, refresh, expiresAt);
      && i in t.procs && (t.procs[i].stage.Granted? || t.procs[i].stage.Rejected?)
      && (t.procs[i].stage.Granted? <==> s.file.value.refresh == Some(s.latest) && !s.revoked)
  {
    AttemptSteps(s, i, access, refresh, expiresAt);
  }

  /** A lost reply leaves the file behind the server iff the request was accepted,
      which it is unless the session was revoked. */
  lemma LostReplyKeepsFileIff(s: State, i: nat, refresh: nat)
    requires Inv(s) && Enabled(s, LoseReply(i, refresh))
    ensures FileOk(Next(s, LoseReply(i, refresh))) <==> s.revoked
  {
    assert ProcessOk(s, i);
  }

  predicate HasLatest(s: State) {
    s.file.Some? && s.file.value.refresh == Some(s.latest)
  }

  /** Changing the key password writes all tokens from memory, whoever holds the
      lock. The file stays in order iff that memory is not out of date, or the lock
      holder is about to overwrite it anyway; it has a token the server accepts iff
      memory has, so a memory without tokens wipes a valid one. */
  lemma SetKeyPasswordKeepsFileIff(s: State, i: nat)
    requires Inv(s) && Enabled(s, SetKeyPassword(i))
    ensures var t := Next(s, SetKeyPassword(i));
      && (FileOk(t) <==>
            s.procs[i].memory.refresh in {None, Some(s.latest)} || (s.lock.Some? && s.procs[s.lock.value].stage.Granted?))
      && (HasLatest(t) <==> s.procs[i].memory.refresh == Some(s.latest))
  {
    assert ProcessOk(s, i);
    if s.lock.Some? { assert ProcessOk(s, s.lock.value); }
  }

  /** Whoever refreshes holds the lock. */
  predicate LockHeld(s: State) {
    forall i | i in s.procs && InSection(s.procs[i].stage) :: s.lock == Some(i)
  }

  /** Logging out keeps the lock in order iff nobody was refreshing. */
  lemma ClearKeepsLockIff(s: State, k: nat)
    requires Inv(s) && Enabled(s, Clear(k))
    ensures LockHeld(Next(s, Clear(k))) <==> s.lock == None
  {
    if s.lock.Some? { assert ProcessOk(s, s.lock.value); }
    forall i | i in s.procs ensures InSection(s.procs[i].stage) <==> s.lock == Some(i) { assert ProcessOk(s, i); }
  }

  /** Then a second request can start beside the first. */
  lemma ClearAllowsSecondRequest(s: State, i: nat, j: nat, k: nat)
    requires Inv(s) && i in s.procs && s.procs[i].stage.InFlight? && Enabled(s, Clear(k))
    requires j in s.procs && s.procs[j].stage.Waiting? && s.procs[j].memory.refresh.Some? && !Fresh(s.procs[j].memory, s.now)
    ensures var t := Next(Next(Next(Next(s, Clear(k)), Acquire(j)), Reload(j, true)), Send(j));
      i != j && i in t.procs && j in t.procs && t.procs[i].stage.InFlight? && t.procs[j].stage.InFlight?
  {
  }
}
