/**
 * The two phases of a login against each other: whom a check lets on, and that
 * its commit signs in that account unless something in between concerns it.
 */
module LoginPhases {
  import opened Sequences
  import opened Sessions
  import opened AuthStore
  import opened LoginProtocol
  import opened LoginRuns
  import opened SsoLinks
  import opened Usernames

  /** The second factor an account asks for: none, a right one-time code or a stored recovery code. */
  predicate FactorAccepts(env: Env, now: int, acct: Account, code: string) {
    acct.totp.enabled && acct.totp.secret != "" ==>
      env.totpOk(acct.totp.secret, code, now) || CodeOpensRow(env, acct.recovery, code)
  }

  /** Of the rows, left are all but one that the code opens when it was needed as a recovery code, else all. */
  predicate RowsAfter(env: Env, needed: bool, rows: seq<string>, code: string, left: seq<string>) {
    if !needed then left == rows
    else exists i: nat | i < |rows| :: OpensRow(env, rows[i], code) && left == rows[..i] + rows[i + 1..]
  }

  /** A password login of the account needs a recovery code: two-factor is on and the code is no one-time code. */
  predicate NeedsRow(env: Env, now: int, acct: Account, code: string) {
    acct.totp.enabled && acct.totp.secret != "" && !env.totpOk(acct.totp.secret, code, now)
  }

  lemma ConsumeLeaves(env: Env, rows: seq<string>, code: string)
    requires Consume(env, rows, code).Some?
    ensures exists i: nat | i < |rows| ::
              OpensRow(env, rows[i], code) && Consume(env, rows, code).value == rows[..i] + rows[i + 1..]
  {
    var i := FirstRow(env, rows, CleanCode(code));
    assert OpensRow(env, rows[i], code);
  }

  /** The stored session lifetime after a login that does or does not ask to be remembered. */
  function DaysAfter(st: Store, remember: bool): int {
    if remember && (st.rememberDays == 0 || st.rememberDays == 30) then 60 else st.rememberDays
  }

  /** A typed code counts character by character: capitals and digits as they are, small letters as their capitals,
      and everything else not at all. */
  lemma {:induction false} TypedCode(a: string, b: string, c: char)
    ensures CleanCode(a + b) == CleanCode(a) + CleanCode(b)
    ensures 'A' <= c <= 'Z' || '0' <= c <= '9' ==> CleanCode([c]) == [c]
    ensures 'a' <= c <= 'z' ==> CleanCode([c]) == [('A' as int + (c as int - 'a' as int)) as char]
    ensures !('A' <= c <= 'Z' || '0' <= c <= '9' || 'a' <= c <= 'z') ==> CleanCode([c]) == ""
  {
    assert CleanCode([c][1..]) == "";
    if a == "" {
      assert a + b == b;
    } else {
      TypedCode(a[1..], b, c);
      assert (a + b)[1..] == a[1..] + b;
    }
  }

  // ------------------------------------------------------------ both phases on one configuration

  lemma PasswordCheck(a: Auth, env: Env, now: int, name: string, password: string, code: string, remember: bool)
    requires WellFormed(a) && name != ""
    ensures var req, u := CheckLogin(a, env, now, name, password, code, remember),
                          FindUserForLogin(a, env, name, password);
            && (u.Some? ==> LoginHit(a, env, name, password, u.value))
            && (req.Some? <==> u.Some? && FactorAccepts(env, now, a.accounts[u.value], code))
            && (req.Some? ==> (req.value.byRecovery <==> NeedsRow(env, now, a.accounts[u.value], code)))
  {
    FoundMatches(a, env, name, password);
    var u := FindUserForLogin(a, env, name, password);
    if u.Some? {
      ConsumeIsOpening(env, a.accounts[u.value].recovery, code);
    }
    hide FindUserForLogin, WellFormed, Consume, CodeOpensRow;
  }

  lemma IssueKeepsDays(st: Store, now: int, hash: string, uid: string)
    ensures Issue(st, now, hash, uid).rememberDays == st.rememberDays
  {
    hide Extended;
  }

  /** A commit of what a check handed on, on a configuration that finds the same account for the name and the
      password with the same factor and rows. */
  lemma PasswordCommit(
    a: Auth, b: Auth, env: Env, now: int, later: int, name: string, password: string, code: string, remember: bool,
    hash: string, u: string)
    requires ADMIN_USER_ID in a.accounts && ADMIN_USER_ID in b.accounts && u in a.accounts && u in b.accounts
    requires FindUserForLogin(a, env, name, password) == FindUserForLogin(b, env, name, password) == Some(u)
    requires a.accounts[u].totp == b.accounts[u].totp && a.accounts[u].recovery == b.accounts[u].recovery
    requires CheckLogin(a, env, now, name, password, code, remember).Some?
    requires a.accounts[u].totp.enabled && a.accounts[u].totp.secret != ""
             && env.totpOk(a.accounts[u].totp.secret, code, now) ==>
               env.totpOk(a.accounts[u].totp.secret, code, later)
    ensures var o := CommitLogin(b, env, later, CheckLogin(a, env, now, name, password, code, remember).value, hash);
            && o.Done? && o.uid == u && u in o.auth.accounts
            && RowsAfter(env, NeedsRow(env, now, b.accounts[u], code), b.accounts[u].recovery, code,
                         o.auth.accounts[u].recovery)
            && o.auth.store.rememberDays == DaysAfter(b.store, remember)
            && CurrentStore(b, o.auth, later, u, hash)
  {
    var acct := b.accounts[u];
    var st := Remembered(b, remember).store;
    IssueKeepsDays(st, later, hash, u);
    if Consume(env, acct.recovery, code).Some? {
      ConsumeLeaves(env, acct.recovery, code);
    }
    hide Issue, FindUserForLogin, Consume, OpensRow;
    assert st.rememberDays == DaysAfter(b.store, remember);
    assert st.sessions == b.store.sessions && st.slot == b.store.slot;
    hide RememberDays;
  }

  /** The store after a session for u is issued, but for the stored lifetime. */
  ghost predicate CurrentStore(a: Auth, b: Auth, now: int, u: string, hash: string) {
    exists st: Store :: st.sessions == a.store.sessions && st.slot == a.store.slot && b.store == Issue(st, now, hash, u)
  }

  /**
   * A password login is let on exactly when some account is found whose second
   * factor accepts the code. What it hands on then signs in that account on the
   * same configuration, spends a recovery code exactly when one was needed, and
   * lengthens the session lifetime exactly when asked to remember.
   */
  lemma PasswordPhases(
    a: Auth, env: Env, now: int, name: string, password: string, code: string, remember: bool, hash: string)
    requires WellFormed(a) && name != ""
    ensures var req, u := CheckLogin(a, env, now, name, password, code, remember),
                          FindUserForLogin(a, env, name, password);
            && (u.Some? ==> LoginHit(a, env, name, password, u.value))
            && (req.Some? <==> u.Some? && FactorAccepts(env, now, a.accounts[u.value], code))
            && (req.Some? ==>
                  var o := CommitLogin(a, env, now, req.value, hash);
                  && o.Done? && o.uid == u.value && u.value in o.auth.accounts
                  && RowsAfter(env, NeedsRow(env, now, a.accounts[u.value], code), a.accounts[u.value].recovery, code,
                               o.auth.accounts[u.value].recovery)
                  && o.auth.store.rememberDays == DaysAfter(a.store, remember))
  {
    PasswordCheck(a, env, now, name, password, code, remember);
    assert ADMIN_USER_ID in a.accounts;
    hide CheckLogin, CommitLogin, FindUserForLogin, RowsAfter, FactorAccepts, WellFormed;
    var u := FindUserForLogin(a, env, name, password);
    if CheckLogin(a, env, now, name, password, code, remember).Some? {
      PasswordCommit(a, a, env, now, now, name, password, code, remember, hash, u.value);
    }
  }

  /** A login checked while no factor was on does not get in past one turned on since: whatever code was typed, the
      commit asks for the empty one. */
  lemma FactorOnMeanwhile(
    a: Auth, b: Auth, env: Env, now: int, later: int, name: string, password: string, code: string, remember: bool,
    hash: string, u: string)
    requires ADMIN_USER_ID in a.accounts && ADMIN_USER_ID in b.accounts && u in a.accounts && u in b.accounts
    requires FindUserForLogin(a, env, name, password) == FindUserForLogin(b, env, name, password) == Some(u)
    requires !(a.accounts[u].totp.enabled && a.accounts[u].totp.secret != "")
    requires b.accounts[u].totp.enabled && b.accounts[u].totp.secret != ""
    ensures CheckLogin(a, env, now, name, password, code, remember).Some?
    ensures CommitLogin(b, env, later, CheckLogin(a, env, now, name, password, code, remember).value, hash).Done?
       <==> env.totpOk(b.accounts[u].totp.secret, "", later)
  {
    hide FindUserForLogin, Issue;
  }

  /** An SSO login is let on exactly when its identity resolves and no factor is on, or a Plex login brings a right
      one-time code; what it hands on signs in whomever the identity resolves to at the commit. */
  lemma SsoPhases(
    a: Auth, b: Auth, env: Env, now: int, later: int, p: Provider, subject: string, code: string, hash: string)
    requires WellFormed(a) && ADMIN_USER_ID in b.accounts
    ensures var made, u := CheckSsoOn(a, env, now, p, subject, code), Resolve(a, p, subject);
            && (made.Some? <==>
                  && u.Some? && SsoHit(a, p, subject, u.value)
                  && (a.accounts[u.value].totp.enabled && a.accounts[u.value].totp.secret != "" ==>
                        p == Plex && env.totpOk(a.accounts[u.value].totp.secret, code, now)))
            && (made.Some? && Resolve(b, p, subject).Some? ==>
                  CommitOf(b, env, later, made.value, hash)
                  == SignIn(b, later, hash, Resolve(b, p, subject).value))
  {
    hide Issue;
    ResolveEnabled(a, p, subject);
  }

  lemma Oidc2faCommit(
    b: Auth, env: Env, later: int, subject: string, byRecovery: bool, code: string, hash: string, u: string)
    requires ADMIN_USER_ID in b.accounts && Resolve(b, Oidc, subject) == Some(u) && u in b.accounts
    requires byRecovery ==> Consume(env, b.accounts[u].recovery, code).Some?
    ensures var o := CommitOidc2fa(b, env, later, subject, byRecovery, code, hash);
            && o.Done? && o.uid == u && u in o.auth.accounts && CurrentStore(b, o.auth, later, u, hash)
            && RowsAfter(env, byRecovery, b.accounts[u].recovery, code, o.auth.accounts[u].recovery)
  {
    if byRecovery {
      ConsumeLeaves(env, b.accounts[u].recovery, code);
    }
    hide Issue, Resolve, Consume, OpensRow;
    var o := CommitOidc2fa(b, env, later, subject, byRecovery, code, hash);
    assert o.auth.store == Issue(b.store, later, hash, u);
  }

  lemma Oidc2faCheck(a: Auth, env: Env, now: int, subject: string, code: string, u: string)
    requires WellFormed(a) && Resolve(a, Oidc, subject) == Some(u)
    ensures u in a.accounts
    ensures var made, acct := CheckOidc2faOn(a, env, now, subject, code), a.accounts[u];
            && (made.Some? <==> env.totpOk(acct.totp.secret, code, now) || CodeOpensRow(env, acct.recovery, code))
            && (made.Some? ==> made.value == ByOidc2fa(subject, !env.totpOk(acct.totp.secret, code, now), code))
            && (made.Some? && made.value.byRecovery ==> Consume(env, acct.recovery, code).Some?)
  {
    ResolveEnabled(a, Oidc, subject);
    ConsumeIsOpening(env, a.accounts[u].recovery, code);
    hide Resolve, Consume, CodeOpensRow;
  }

  /** The OIDC second factor is let on exactly when the identity resolves to an account and the code is right, as a
      one-time code or as a stored recovery code, which its commit then spends. */
  lemma Oidc2faPhases(
    a: Auth, b: Auth, env: Env, now: int, later: int, subject: string, code: string, hash: string, u: string)
    requires WellFormed(a) && ADMIN_USER_ID in b.accounts && Resolve(a, Oidc, subject) == Some(u)
    ensures u in a.accounts
    ensures var made, acct := CheckOidc2faOn(a, env, now, subject, code), a.accounts[u];
            && (made.Some? <==> env.totpOk(acct.totp.secret, code, now) || CodeOpensRow(env, acct.recovery, code))
            && (made.Some? && Resolve(b, Oidc, subject) == Some(u) && u in b.accounts
                && b.accounts[u].recovery == acct.recovery ==>
                  var o := CommitOf(b, env, later, made.value, hash);
                  && o.Done? && o.uid == u && u in o.auth.accounts && CurrentStore(b, o.auth, later, u, hash)
                  && RowsAfter(env, !env.totpOk(acct.totp.secret, code, now), acct.recovery, code,
                               o.auth.accounts[u].recovery))
  {
    Oidc2faCheck(a, env, now, subject, code, u);
    hide CheckOidc2faOn, CommitOidc2fa, CommitLogin, CommitSso, Resolve, Consume, CodeOpensRow, WellFormed;
    hide RowsAfter, CurrentStore;
    var made := CheckOidc2faOn(a, env, now, subject, code);
    if made.Some? && Resolve(b, Oidc, subject) == Some(u) && u in b.accounts
       && b.accounts[u].recovery == a.accounts[u].recovery {
      Oidc2faCommit(b, env, later, subject, made.value.byRecovery, code, hash, u);
    }
  }

  // ------------------------------------------------------------ from the check to the commit

  /** The step begins or ends a login of the client. */
  predicate ByClient(step: Step, client: nat) {
    match step
    case Check(c, _, _, _, _) => c == client
    case CheckSso(c, _, _, _) => c == client
    case CheckOidc2fa(c, _, _) => c == client
    case Commit(c, _) => c == client
    case _ => false
  }

  lemma StepLeavesPending(s: State, env: Env, now: int, step: Step, client: nat)
    requires ADMIN_USER_ID in s.auth.accounts && !ByClient(step, client) && client in s.pending
    ensures var t := Next(s, env, now, step);
            client in t.pending && t.pending[client] == s.pending[client]
  {
    hide CommitOf, UpdateUser, SetCredentials, DeleteUser, CreateUser, SetTotp, Link, Unlink;
    hide CheckLogin, CheckSsoOn, CheckOidc2faOn, Drop, ClearAll, ClearOthers;
  }

  /** Nothing the client does comes between the steps j and i. */
  predicate Alone(trace: seq<(int, Step)>, j: nat, i: nat, client: nat)
    requires i <= |trace|
  {
    forall k :: j < k < i ==> !ByClient(trace[k].1, client)
  }

  lemma {:induction false} PendingStays(
    states: seq<State>, env: Env, trace: seq<(int, Step)>, j: nat, i: nat, client: nat)
    requires IsRun(states, env, trace) && j < i <= |trace| && Alone(trace, j, i, client)
    requires client in states[j + 1].pending
    ensures client in states[i].pending && states[i].pending[client] == states[j + 1].pending[client]
  {
    hide Next, ByClient;
    if j + 1 < i {
      PendingStays(states, env, trace, j, i - 1, client);
      assert IsNext(states[i - 1], env, trace[i - 1].0, trace[i - 1].1, states[i]);
      StepLeavesPending(states[i - 1], env, trace[i - 1].0, trace[i - 1].1, client);
    }
  }

  /** What a login depends on is the same in both configurations. */
  predicate SameLogin(a: Auth, b: Auth, u: string) {
    && u in a.accounts && u in b.accounts
    && var x, y := a.accounts[u], b.accounts[u];
       && x.username == y.username && x.password == y.password && x.enabled == y.enabled
       && x.totp == y.totp && x.recovery == y.recovery
  }

  lemma CheckLeavesPending(
    s: State, env: Env, now: int, client: nat, name: string, password: string, code: string, remember: bool)
    requires ADMIN_USER_ID in s.auth.accounts
    ensures var req := CheckLogin(s.auth, env, now, name, password, code, remember);
            var t := Next(s, env, now, Check(client, name, password, code, remember));
            && t.auth == s.auth
            && (req.Some? ==> client in t.pending && t.pending[client] == ByPassword(req.value))
            && (req.None? ==> t.pending == s.pending)
  {
    hide CheckLogin;
  }

  /** A right check and, on the configuration of later, a right commit, from a state that holds the request. */
  lemma CommitSucceeds(s: State, env: Env, later: int, p: Pending, hash: string, u: string)
    requires Inv(s) && IssuedBy(s, later) && later > 0 && hash !in s.issued && IsSha256Hex(hash)
    requires u in s.auth.accounts && s.auth.accounts[u].enabled
    requires var o := CommitOf(s.auth, env, later, p, hash);
             o.Done? && o.uid == u && u in o.auth.accounts
    ensures CurrentUser(CommitOf(s.auth, env, later, p, hash).auth, later, Some(hash)) == Some(u)
  {
    hide CommitOf, CurrentUser, Inv;
    CommitWorks(s, env, later, p, hash);
  }

  /**
   * A login with the right name and password, and a code that the second factor
   * accepts if one is on, signs in its account at the commit: whatever happens in
   * between, if it leaves that account's name, password, factor and recovery
   * codes and the account enabled, and a one-time code is still right then.
   */
  lemma PasswordLoginSucceeds(
    states: seq<State>, env: Env, trace: seq<(int, Step)>, j: nat, i: nat, u: string)
    requires IsRun(states, env, trace) && Inv(states[0]) && NamesUnique(states[0].auth, env)
    requires j < i < |trace| && ForwardClock(trace) && IssuedBy(states[0], trace[0].0)
    requires trace[j].1.Check? && trace[i].1.Commit? && trace[i].1.client == trace[j].1.client
    requires Alone(trace, j, i, trace[j].1.client) && IsSha256Hex(trace[i].1.hash)
    requires var Check(_, name, password, code, _) := trace[j].1;
             && name != "" && env.casefold(name) != "" && LoginHit(states[j].auth, env, name, password, u)
             && FactorAccepts(env, trace[j].0, states[j].auth.accounts[u], code)
             && (states[j].auth.accounts[u].totp.enabled && states[j].auth.accounts[u].totp.secret != ""
                 && env.totpOk(states[j].auth.accounts[u].totp.secret, code, trace[j].0) ==>
                   env.totpOk(states[j].auth.accounts[u].totp.secret, code, trace[i].0))
    requires SameLogin(states[j].auth, states[i].auth, u)
    ensures CurrentUser(states[i + 1].auth, trace[i].0, Some(trace[i].1.hash)) == Some(u)
    ensures u in states[i + 1].auth.accounts
    ensures var Check(_, _, _, code, remember) := trace[j].1;
            && RowsAfter(env, NeedsRow(env, trace[j].0, states[j].auth.accounts[u], code),
                         states[i].auth.accounts[u].recovery, code, states[i + 1].auth.accounts[u].recovery)
            && states[i + 1].auth.store.rememberDays == DaysAfter(states[i].auth.store, remember)
  {
    var Check(client, name, password, code, remember) := trace[j].1;
    var now, later, hash := trace[j].0, trace[i].0, trace[i].1.hash;
    var s, t := states[j], states[i];
    RunKeeps(states, env, trace, j);
    RunKeeps(states, env, trace, i);
    RunIssuedBy(states, env, trace, i);
    assert IsNext(s, env, now, trace[j].1, states[j + 1]);
    assert IsNext(t, env, later, trace[i].1, states[i + 1]);
    assert 0 < later by { assert trace[i].0 <= trace[i].0; }
    LoginIsUnambiguous(states, env, trace, j, name, password, u);
    LoginIsUnambiguous(states, env, trace, i, name, password, u);
    WellFormedOf(s);
    PasswordCheck(s.auth, env, now, name, password, code, remember);
    CheckLeavesPending(s, env, now, client, name, password, code, remember);
    PendingStays(states, env, trace, j, i, client);
    PasswordCommit(s.auth, t.auth, env, now, later, name, password, code, remember, hash, u);
    CommitSucceeds(t, env, later, t.pending[client], hash, u);
  }

  lemma WellFormedOf(s: State)
    requires Inv(s)
    ensures WellFormed(s.auth)
  {
  }

  /** A login whose name and password match no account, or whose code the factor refuses, changes nothing. */
  lemma PasswordLoginRefused(
    s: State, env: Env, now: int, client: nat, name: string, password: string, code: string, remember: bool)
    requires WellFormed(s.auth) && name != ""
    requires forall u :: LoginHit(s.auth, env, name, password, u) ==>
               !FactorAccepts(env, now, s.auth.accounts[u], code)
    ensures var t := Next(s, env, now, Check(client, name, password, code, remember));
            t.auth == s.auth && t.pending == s.pending && t.issued == s.issued
  {
    PasswordCheck(s.auth, env, now, name, password, code, remember);
    CheckLeavesPending(s, env, now, client, name, password, code, remember);
    hide CheckLogin, FindUserForLogin, FactorAccepts, WellFormed;
  }

  lemma SsoLeavesPending(s: State, env: Env, now: int, client: nat, p: Provider, subject: string, code: string)
    requires ADMIN_USER_ID in s.auth.accounts
    ensures var made, t := CheckSsoOn(s.auth, env, now, p, subject, code),
                           Next(s, env, now, CheckSso(client, p, subject, code));
            made.Some? ==> client in t.pending && t.pending[client] == made.value
    ensures var made, t := CheckOidc2faOn(s.auth, env, now, subject, code),
                           Next(s, env, now, CheckOidc2fa(client, subject, code));
            made.Some? ==> client in t.pending && t.pending[client] == made.value
  {
    hide CheckSsoOn, CheckOidc2faOn;
  }

  /** An SSO login with a linked identity, and a right one-time code if its account asks for one, signs in that
      account at the commit, if the identity is linked to it then. */
  lemma SsoLoginSucceeds(states: seq<State>, env: Env, trace: seq<(int, Step)>, j: nat, i: nat, u: string)
    requires IsRun(states, env, trace) && Inv(states[0]) && Injective(states[0].auth)
    requires j < i < |trace| && ForwardClock(trace) && IssuedBy(states[0], trace[0].0)
    requires trace[j].1.CheckSso? && trace[i].1.Commit? && trace[i].1.client == trace[j].1.client
    requires Alone(trace, j, i, trace[j].1.client) && IsSha256Hex(trace[i].1.hash)
    requires var CheckSso(_, p, subject, code) := trace[j].1;
             && SsoHit(states[j].auth, p, subject, u) && SsoHit(states[i].auth, p, subject, u)
             && (states[j].auth.accounts[u].totp.enabled && states[j].auth.accounts[u].totp.secret != "" ==>
                   p == Plex && env.totpOk(states[j].auth.accounts[u].totp.secret, code, trace[j].0))
    ensures CurrentUser(states[i + 1].auth, trace[i].0, Some(trace[i].1.hash)) == Some(u)
  {
    var CheckSso(client, p, subject, code) := trace[j].1;
    var now, later, hash := trace[j].0, trace[i].0, trace[i].1.hash;
    var s, t := states[j], states[i];
    hide Next, CurrentUser, CheckSsoOn, CommitOf, Inv, Resolve, WellFormed, ByClient, Injective, Issue;
    BothResolve(states, env, trace, j, i, p, subject, u);
    assert IsNext(s, env, now, trace[j].1, states[j + 1]);
    SsoPhases(s.auth, t.auth, env, now, later, p, subject, code, hash);
    SsoLeavesPending(s, env, now, client, p, subject, code);
    PendingStays(states, env, trace, j, i, client);
    PendingSignsIn(states, env, trace, i, u);
  }

  lemma BothResolve(
    states: seq<State>, env: Env, trace: seq<(int, Step)>, j: nat, i: nat, p: Provider, subject: string, u: string)
    requires IsRun(states, env, trace) && Inv(states[0]) && Injective(states[0].auth) && j <= i < |trace|
    requires SsoHit(states[j].auth, p, subject, u) && SsoHit(states[i].auth, p, subject, u)
    ensures WellFormed(states[j].auth) && WellFormed(states[i].auth)
    ensures Resolve(states[j].auth, p, subject) == Resolve(states[i].auth, p, subject) == Some(u)
    ensures u in states[i].auth.accounts && states[i].auth.accounts[u].enabled
  {
    hide Resolve;
    RunKeeps(states, env, trace, j);
    RunKeeps(states, env, trace, i);
    WellFormedOf(states[j]);
    WellFormedOf(states[i]);
    RunInjective(states, env, trace, j);
    RunInjective(states, env, trace, i);
    ResolveIsLink(states[j].auth, p, subject, u);
    ResolveIsLink(states[i].auth, p, subject, u);
  }

  /** A commit in a run that signs u in leaves a token that opens u at once. */
  lemma PendingSignsIn(states: seq<State>, env: Env, trace: seq<(int, Step)>, i: nat, u: string)
    requires IsRun(states, env, trace) && Inv(states[0]) && i < |trace|
    requires ForwardClock(trace) && IssuedBy(states[0], trace[0].0)
    requires trace[i].1.Commit? && trace[i].1.client in states[i].pending && IsSha256Hex(trace[i].1.hash)
    requires WellFormed(states[i].auth) && u in states[i].auth.accounts && states[i].auth.accounts[u].enabled
    requires var o := CommitOf(states[i].auth, env, trace[i].0, states[i].pending[trace[i].1.client], trace[i].1.hash);
             o.Done? && o.uid == u && u in o.auth.accounts
    ensures CurrentUser(states[i + 1].auth, trace[i].0, Some(trace[i].1.hash)) == Some(u)
    ensures states[i + 1].auth
         == CommitOf(states[i].auth, env, trace[i].0, states[i].pending[trace[i].1.client], trace[i].1.hash).auth
  {
    hide CommitOf, CurrentUser, Inv, WellFormed;
    var later := trace[i].0;
    RunKeeps(states, env, trace, i);
    RunIssuedBy(states, env, trace, i);
    assert 0 < later by { assert trace[i].0 <= trace[i].0; }
    assert IsNext(states[i], env, later, trace[i].1, states[i + 1]);
    CommitSucceeds(states[i], env, later, states[i].pending[trace[i].1.client], trace[i].1.hash, u);
  }

  /** An OIDC login through the second factor signs in its account likewise, and spends the recovery code exactly
      when that was needed. */
  lemma Oidc2faLoginSucceeds(states: seq<State>, env: Env, trace: seq<(int, Step)>, j: nat, i: nat, u: string)
    requires IsRun(states, env, trace) && Inv(states[0]) && Injective(states[0].auth)
    requires j < i < |trace| && ForwardClock(trace) && IssuedBy(states[0], trace[0].0)
    requires trace[j].1.CheckOidc2fa? && trace[i].1.Commit? && trace[i].1.client == trace[j].1.client
    requires Alone(trace, j, i, trace[j].1.client) && IsSha256Hex(trace[i].1.hash)
    requires var CheckOidc2fa(_, subject, code) := trace[j].1;
             && SsoHit(states[j].auth, Oidc, subject, u) && SsoHit(states[i].auth, Oidc, subject, u)
             && (env.totpOk(states[j].auth.accounts[u].totp.secret, code, trace[j].0)
                 || CodeOpensRow(env, states[j].auth.accounts[u].recovery, code))
             && states[i].auth.accounts[u].recovery == states[j].auth.accounts[u].recovery
    ensures CurrentUser(states[i + 1].auth, trace[i].0, Some(trace[i].1.hash)) == Some(u)
    ensures u in states[i + 1].auth.accounts
    ensures var CheckOidc2fa(_, _, code), was := trace[j].1, states[j].auth.accounts[u];
            RowsAfter(env, !env.totpOk(was.totp.secret, code, trace[j].0), was.recovery, code,
                      states[i + 1].auth.accounts[u].recovery)
  {
    var CheckOidc2fa(client, subject, code) := trace[j].1;
    var now, later, hash := trace[j].0, trace[i].0, trace[i].1.hash;
    var s, t := states[j], states[i];
    hide Next, CurrentUser, CheckOidc2faOn, CommitOf, Inv, Resolve, WellFormed, ByClient, Injective, RowsAfter;
    hide CodeOpensRow;
    BothResolve(states, env, trace, j, i, Oidc, subject, u);
    assert IsNext(s, env, now, trace[j].1, states[j + 1]);
    Oidc2faPhases(s.auth, t.auth, env, now, later, subject, code, hash, u);
    SsoLeavesPending(s, env, now, client, Oidc, subject, code);
    PendingStays(states, env, trace, j, i, client);
    PendingSignsIn(states, env, trace, i, u);
  }
}
