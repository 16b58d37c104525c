/**
 * What holds in every state of every run of the login protocol: the safety of
 * the session list, and that a login that succeeds can be used.
 */
module LoginRuns {
  import opened Sequences
  import opened Sessions
  import opened AuthStore
  import opened LoginProtocol

  ghost predicate IsNext(s: State, env: Env, now: int, step: Step, t: State) {
    ADMIN_USER_ID in s.auth.accounts && FreshToken(s, step) && t == Next(s, env, now, step)
  }

  /** A run: the states visited and the timed steps between them. */
  ghost predicate IsRun(states: seq<State>, env: Env, trace: seq<(int, Step)>) {
    |states| == |trace| + 1
    && forall i :: 0 <= i < |trace| ==> IsNext(states[i], env, trace[i].0, trace[i].1, states[i + 1])
  }

  /** Who the stored sessions of a configuration were issued to before the first step, and when. */
  function StoredTokens(l: seq<Session>): map<string, Issued> {
    if l == [] then map[]
    else StoredTokens(l[..|l| - 1])[l[|l| - 1].tokenHash := Issued(OwnerId(l[|l| - 1]), 0, l[|l| - 1].createdAt)]
  }

  /** One account and time per token. */
  ghost predicate OneTokenOneAccount(l: seq<Session>) {
    forall x, y :: x in l && y in l && x.tokenHash == y.tokenHash ==>
      OwnerId(x) == OwnerId(y) && x.createdAt == y.createdAt
  }

  /** A server starts on a stored configuration: enabled accounts own its sessions, and a token is
      stored for one account and time. */
  ghost predicate Stored(a: Auth) {
    && WellFormed(a) && MirrorOk(a.store)
    && (forall x :: x in a.store.sessions ==> OwnerId(x) in a.accounts && a.accounts[OwnerId(x)].enabled)
    && OneTokenOneAccount(a.store.sessions)
  }

  function Started(a: Auth): State {
    State(a, map[], 1, StoredTokens(a.store.sessions), map[])
  }

  lemma {:induction false} StoredTokensKnown(l: seq<Session>)
    requires OneTokenOneAccount(l)
    ensures forall x :: x in l ==>
              x.tokenHash in StoredTokens(l) && StoredTokens(l)[x.tokenHash] == Issued(OwnerId(x), 0, x.createdAt)
  {
    if l != [] {
      var front, last := l[..|l| - 1], l[|l| - 1];
      assert forall x :: x in l <==> x in front || x == last;
      assert OneTokenOneAccount(front);
      StoredTokensKnown(front);
    }
  }

  lemma {:induction false} StoredTokensFrom(l: seq<Session>, h: string)
    requires h in StoredTokens(l)
    ensures StoredTokens(l)[h].at == 0 && exists x :: x in l && x.createdAt == StoredTokens(l)[h].time
  {
    var front, last := l[..|l| - 1], l[|l| - 1];
    if h == last.tokenHash {
      assert last in l;
    } else {
      StoredTokensFrom(front, h);
      assert forall x :: x in front ==> x in l;
    }
  }

  /** Tokens were issued at positive times up to now. */
  ghost predicate IssuedBy(s: State, now: int) {
    forall h :: h in s.issued ==> 0 < s.issued[h].time <= now
  }

  lemma StartedSessions(a: Auth)
    requires Stored(a)
    ensures SessionsOk(Started(a))
  {
    StoredTokensKnown(a.store.sessions);
    hide StoredTokens, WellFormed, MirrorOk;
    var s := Started(a);
    forall x | x in a.store.sessions ensures SessionOk(s, x) {
      assert s.issued[x.tokenHash] == Issued(OwnerId(x), 0, x.createdAt);
    }
  }

  lemma StartedHistory(a: Auth, now: int)
    ensures HistoryOk(Started(a))
    ensures (forall x :: x in a.store.sessions ==> 0 < x.createdAt <= now) ==> IssuedBy(Started(a), now)
  {
    hide StoredTokens;
    forall h | h in StoredTokens(a.store.sessions)
      ensures StoredTokens(a.store.sessions)[h].at == 0
      ensures exists x :: x in a.store.sessions && x.createdAt == StoredTokens(a.store.sessions)[h].time
    {
      StoredTokensFrom(a.store.sessions, h);
    }
  }

  /** Whatever configuration a server starts on, the first state of its runs meets the invariant. */
  lemma StartedInv(a: Auth, now: int)
    requires Stored(a)
    ensures Inv(Started(a))
    ensures (forall x :: x in a.store.sessions ==> 0 < x.createdAt <= now) ==> IssuedBy(Started(a), now)
  {
    StartedSessions(a);
    StartedHistory(a, now);
    hide SessionsOk, HistoryOk, IssuedBy, StoredTokens, WellFormed, MirrorOk, OneTokenOneAccount;
  }

  lemma {:induction false} RunKeeps(states: seq<State>, env: Env, trace: seq<(int, Step)>, i: nat)
    requires IsRun(states, env, trace) && Inv(states[0]) && i <= |trace|
    ensures Inv(states[i])
  {
    if i > 0 {
      RunKeeps(states, env, trace, i - 1);
      assert IsNext(states[i - 1], env, trace[i - 1].0, trace[i - 1].1, states[i]);
      StepKeeps(states[i - 1], env, trace[i - 1].0, trace[i - 1].1);
    }
  }

  /**
   * Whatever is interleaved: every session a reader sees belongs to an account
   * that exists and is enabled, and its token was issued to that account no
   * earlier than the account's last administrative password change, disabling
   * or deletion.
   */
  lemma SessionsAreCurrent(states: seq<State>, env: Env, trace: seq<(int, Step)>, i: nat, x: Session)
    requires IsRun(states, env, trace) && Inv(states[0]) && i <= |trace|
    requires x in Iter(states[i].auth.store)
    ensures var s, u := states[i], OwnerId(x);
            && u in s.auth.accounts && s.auth.accounts[u].enabled
            && x.tokenHash in s.issued && s.issued[x.tokenHash].owner == u
            && BarrierOf(s, u) <= s.issued[x.tokenHash].at
  {
    RunKeeps(states, env, trace, i);
    MirrorHidesSlot(states[i].auth.store);
    assert SessionOk(states[i], x);
  }

  /** A token never opens another account than the one it was issued to. */
  lemma TokensKeepTheirOwner(states: seq<State>, env: Env, trace: seq<(int, Step)>, i: nat, now: int, hash: string)
    requires IsRun(states, env, trace) && Inv(states[0]) && i <= |trace|
    ensures var s := states[i];
            var who := CurrentUser(s.auth, now, Some(hash));
            who.Some? ==> hash in s.issued && who == Some(s.issued[hash].owner)
  {
    var s := states[i];
    FindFrom(s.auth.store, now, Some(hash));
    var r := Find(s.auth.store, now, Some(hash));
    if r.Some? {
      SessionsAreCurrent(states, env, trace, i, r.value);
    }
  }

  // ------------------------------------------------------------ a login that succeeds can be used

  /** A run's clock is positive and does not run backwards. */
  ghost predicate ForwardClock(trace: seq<(int, Step)>) {
    forall i, j :: 0 <= i <= j < |trace| ==> 0 < trace[i].0 <= trace[j].0
  }

  lemma {:induction false} RunIssuedBy(states: seq<State>, env: Env, trace: seq<(int, Step)>, i: nat)
    requires IsRun(states, env, trace) && Inv(states[0]) && ForwardClock(trace) && i < |trace|
    requires IssuedBy(states[0], trace[0].0)
    ensures IssuedBy(states[i], trace[i].0)
  {
    hide Next;
    if i > 0 {
      RunIssuedBy(states, env, trace, i - 1);
      assert IsNext(states[i - 1], env, trace[i - 1].0, trace[i - 1].1, states[i]);
      StepIssuedBy(states[i - 1], env, trace[i - 1].0, trace[i - 1].1);
      assert trace[i - 1].0 <= trace[i].0;
    }
  }

  lemma StepIssuedBy(s: State, env: Env, now: int, step: Step)
    requires ADMIN_USER_ID in s.auth.accounts && IssuedBy(s, now) && now > 0
    ensures IssuedBy(Next(s, env, now, step), now)
  {
    hide CommitOf, UpdateUser, SetCredentials, DeleteUser, CreateUser, SetTotp, Link, Unlink;
    hide CheckLogin, CheckSsoOn, CheckOidc2faOn, Drop, ClearAll, ClearOthers;
  }

  lemma TokenWorks(b: Auth, st: Store, now: int, u: string, hash: string)
    requires MirrorOk(st) && OlderThan(st.sessions, now, hash)
    requires now > 0 && IsSha256Hex(hash) && u != "" && u in b.accounts && b.accounts[u].enabled
    requires b.store == Issue(st, now, hash, u)
    ensures CurrentUser(b, now, Some(hash)) == Some(u)
  {
    IssuedIsFound(st, now, u, hash);
    assert OwnerId(Entry(st, now, hash, u)) == u;
  }

  lemma SignedInEnabled(a: Auth, b: Auth, now: int, u: string, hash: string)
    requires WellFormed(a) && SignedIn(a, b, now, u, hash)
    ensures u != "" && u in b.accounts && b.accounts[u].enabled
  {
    assert b.accounts[u].(recovery := a.accounts[u].recovery) == a.accounts[u];
  }

  lemma SignedInWorks(a: Auth, b: Auth, now: int, u: string, hash: string)
    requires WellFormed(a) && MirrorOk(a.store) && OlderThan(a.store.sessions, now, hash)
    requires now > 0 && IsSha256Hex(hash) && SignedIn(a, b, now, u, hash)
    ensures CurrentUser(b, now, Some(hash)) == Some(u)
  {
    SignedInEnabled(a, b, now, u, hash);
    var st: Store :| st.sessions == a.store.sessions && st.slot == a.store.slot && b.store == Issue(st, now, hash, u);
    TokenWorks(b, st, now, u, hash);
  }

  lemma OlderSessions(s: State, now: int, hash: string)
    requires Inv(s) && IssuedBy(s, now) && hash !in s.issued
    ensures OlderThan(s.auth.store.sessions, now, hash)
  {
    forall x | x in s.auth.store.sessions
      ensures x.tokenHash != hash && SortKey(x) <= now
    {
      assert SessionOk(s, x);
    }
  }

  lemma CommitWorks(s: State, env: Env, now: int, p: Pending, hash: string)
    requires Inv(s) && IssuedBy(s, now) && now > 0 && hash !in s.issued && IsSha256Hex(hash)
    ensures var o := CommitOf(s.auth, env, now, p, hash);
            o.Done? ==> CurrentUser(o.auth, now, Some(hash)) == Some(o.uid)
  {
    var o := CommitOf(s.auth, env, now, p, hash);
    if o.Done? {
      OlderSessions(s, now, hash);
      CommitSignsIn(s.auth, env, now, p, hash);
      SignedInWorks(s.auth, o.auth, now, o.uid, hash);
    }
  }

  /** With a clock that does not run backwards, a commit that succeeds leaves a token that works at once:
      the cap never throws the new session out. */
  lemma LoginWorks(states: seq<State>, env: Env, trace: seq<(int, Step)>, i: nat)
    requires IsRun(states, env, trace) && Inv(states[0]) && ForwardClock(trace) && i < |trace|
    requires IssuedBy(states[0], trace[0].0)
    requires trace[i].1.Commit? && trace[i].1.client in states[i].pending && IsSha256Hex(trace[i].1.hash)
    requires ADMIN_USER_ID in states[i].auth.accounts
    ensures var s, now, hash := states[i], trace[i].0, trace[i].1.hash;
            var o := CommitOf(s.auth, env, now, s.pending[trace[i].1.client], hash);
            o.Done? ==> CurrentUser(states[i + 1].auth, now, Some(hash)) == Some(o.uid)
  {
    RunKeeps(states, env, trace, i);
    RunIssuedBy(states, env, trace, i);
    assert trace[i].0 <= trace[i].0;
    assert IsNext(states[i], env, trace[i].0, trace[i].1, states[i + 1]);
    CommitWorks(states[i], env, trace[i].0, states[i].pending[trace[i].1.client], trace[i].1.hash);
  }
}
