/**
 * All interleavings of two-phase logins with administration. A client first
 * checks a snapshot and later commits on the latest configuration; between the
 * two any other step may run. The clock, the record of issued tokens and the
 * barrier of each account are history: no step reads them.
 */
module LoginProtocol {
  import opened Sequences
  import opened Sessions
  import opened AuthStore

  datatype Pending =
    | ByPassword(req: LoginReq)
    | BySso(provider: Provider, subject: string)
    | ByOidc2fa(subject: string, byRecovery: bool, code: string)

  datatype Step =
    | Check(client: nat, name: string, password: string, code: string, remember: bool)
    | CheckSso(client: nat, provider: Provider, subject: string, code: string)
    | CheckOidc2fa(client: nat, subject: string, code: string)
    | Commit(client: nat, hash: string)
    | Create(uid: string, name: string, enabled: bool, digest: string)
    | Update(uid: string, patch: Patch)
    | Delete(uid: string)
    | Credentials(name: string, newDigest: Option<string>, hash: string)
    | Totp2(uid: string, totp: Totp, token: Option<string>)
    | LinkId(token: Option<string>, provider: Provider, subject: string, requested: string)
    | UnlinkId(token: Option<string>, provider: Provider, requested: string)
    | Logout(token: Option<string>)
    | LogoutAll
    | LogoutOthers(token: Option<string>)

  /** To whom, at which step and at what time a token was issued. */
  datatype Issued = Issued(owner: string, at: nat, time: int)

  datatype State = State(
    auth: Auth, pending: map<nat, Pending>,
    clock: nat, issued: map<string, Issued>, barrier: map<string, nat>)

  // ------------------------------------------------------------ steps

  /** First phase of an SSO login: a Plex login verifies its one-time code here, an OIDC login
      of an account with two-factor goes through CheckOidc2fa instead. */
  function CheckSsoOn(a: Auth, env: Env, now: int, p: Provider, subject: string, code: string): Option<Pending> {
    match Resolve(a, p, subject)
    case None => None
    case Some(u) =>
      if u !in a.accounts || !TotpOn(a.accounts[u].totp) then Some(BySso(p, subject))
      else if p == Plex && env.totpOk(a.accounts[u].totp.secret, code, now) then Some(BySso(p, subject))
      else None
  }

  function CheckOidc2faOn(a: Auth, env: Env, now: int, subject: string, code: string): Option<Pending> {
    match Resolve(a, Oidc, subject)
    case None => None
    case Some(u) =>
      if u !in a.accounts then None
      else if env.totpOk(a.accounts[u].totp.secret, code, now) then Some(ByOidc2fa(subject, false, code))
      else if Consume(env, a.accounts[u].recovery, code).Some? then Some(ByOidc2fa(subject, true, code))
      else None
  }

  function Awaiting(s: State, client: nat, p: Option<Pending>): State {
    match p
    case None => s
    case Some(x) => s.(pending := s.pending[client := x])
  }

  function CommitOf(a: Auth, env: Env, now: int, p: Pending, hash: string): Outcome
    requires ADMIN_USER_ID in a.accounts
  {
    match p
    case ByPassword(req) => CommitLogin(a, env, now, req, hash)
    case BySso(provider, subject) => CommitSso(a, now, provider, subject, hash)
    case ByOidc2fa(subject, byRecovery, code) => CommitOidc2fa(a, env, now, subject, byRecovery, code, hash)
  }

  function Saved(s: State, o: Outcome): State {
    match o
    case Raised => s
    case Done(a, _) => s.(auth := a)
  }

  function SavedLogin(s: State, o: Outcome, now: int, hash: string): State {
    match o
    case Raised => s
    case Done(a, u) => s.(auth := a, issued := s.issued[hash := Issued(u, s.clock, now)])
  }

  function Barred(s: State, uid: string): State {
    s.(barrier := s.barrier[uid := s.clock])
  }

  function WithStore(s: State, st: Store): State {
    s.(auth := s.auth.(store := st))
  }

  function Effect(s: State, env: Env, now: int, step: Step): State
    requires ADMIN_USER_ID in s.auth.accounts
  {
    var a := s.auth;
    match step
    case Check(client, name, password, code, remember) =>
      var req := CheckLogin(a, env, now, name, password, code, remember);
      if req.None? then s else Awaiting(s, client, Some(ByPassword(req.value)))
    case CheckSso(client, p, subject, code) => Awaiting(s, client, CheckSsoOn(a, env, now, p, subject, code))
    case CheckOidc2fa(client, subject, code) => Awaiting(s, client, CheckOidc2faOn(a, env, now, subject, code))
    case Commit(client, hash) =>
      if client !in s.pending then s
      else
        var r := SavedLogin(s, CommitOf(a, env, now, s.pending[client], hash), now, hash);
        r.(pending := s.pending - {client})
    case Create(uid, name, enabled, digest) => Saved(s, CreateUser(a, env, uid, name, enabled, digest))
    case Update(uid, patch) =>
      var o := UpdateUser(a, env, now, uid, patch);
      if o.Done? && (patch.password.Some? || patch.enabled == Some(false)) then Barred(Saved(s, o), uid)
      else Saved(s, o)
    case Delete(uid) =>
      var r := Saved(s, DeleteUser(a, now, uid));
      if uid in a.order then Barred(r, uid) else r
    case Credentials(name, digest, hash) =>
      var o := SetCredentials(a, env, now, name, digest, hash);
      if o.Done? then Barred(SavedLogin(s, o, now, hash), ADMIN_USER_ID) else s
    case Totp2(uid, totp, token) => Saved(s, SetTotp(a, now, uid, totp, token))
    case LinkId(token, p, subject, requested) => Saved(s, Link(a, now, token, p, subject, requested))
    case UnlinkId(token, p, requested) => Saved(s, Unlink(a, now, token, p, requested))
    case Logout(token) => WithStore(s, Drop(a.store, now, token))
    case LogoutAll => WithStore(s, ClearAll(a.store))
    case LogoutOthers(token) => WithStore(s, ClearOthers(a.store, now, token))
  }

  function Next(s: State, env: Env, now: int, step: Step): State
    requires ADMIN_USER_ID in s.auth.accounts
  {
    Effect(s, env, now, step).(clock := s.clock + 1)
  }

  /** New tokens are fresh. */
  predicate FreshToken(s: State, step: Step) {
    match step
    case Commit(_, hash) => hash !in s.issued
    case Credentials(_, _, hash) => hash !in s.issued
    case _ => true
  }

  // ------------------------------------------------------------ safety of the session list

  function BarrierOf(s: State, u: string): nat {
    if u in s.barrier then s.barrier[u] else 0
  }

  /** The session's account exists and is enabled, the token was issued to it, and after its last
      password change by an administrator, disabling or deletion. */
  ghost predicate SessionOk(s: State, x: Session) {
    && OwnerId(x) in s.auth.accounts && s.auth.accounts[OwnerId(x)].enabled
    && x.tokenHash in s.issued && s.issued[x.tokenHash].owner == OwnerId(x)
    && BarrierOf(s, OwnerId(x)) <= s.issued[x.tokenHash].at
    && x.createdAt == s.issued[x.tokenHash].time
  }

  ghost predicate SessionsOk(s: State) {
    forall x :: x in s.auth.store.sessions ==> SessionOk(s, x)
  }

  ghost predicate HistoryOk(s: State) {
    && (forall h :: h in s.issued ==> s.issued[h].at < s.clock)
    && (forall u :: u in s.barrier ==> s.barrier[u] < s.clock)
  }

  ghost predicate AuthOk(s: State) {
    WellFormed(s.auth) && MirrorOk(s.auth.store) && SessionsOk(s)
  }

  ghost predicate Inv(s: State) {
    AuthOk(s) && HistoryOk(s)
  }

  lemma FindLoginEnabled(a: Auth, env: Env, name: string, password: string)
    requires WellFormed(a)
    ensures var r := FindUserForLogin(a, env, name, password);
            r.Some? ==> r.value in a.accounts && a.accounts[r.value].enabled
  {
  }

  lemma ResolveEnabled(a: Auth, p: Provider, subject: string)
    requires WellFormed(a)
    ensures var r := Resolve(a, p, subject);
            r.Some? ==> r.value in a.accounts && a.accounts[r.value].enabled && Linked(a, r.value, p, subject)
  {
  }

  /** The accounts other than in recovery codes, and the token list other than in the new session, are untouched. */
  ghost predicate SignedIn(a: Auth, b: Auth, now: int, u: string, hash: string) {
    && u in a.accounts && a.accounts[u].enabled
    && b.order == a.order && b.accounts.Keys == a.accounts.Keys
    && (forall v :: v in a.accounts ==> b.accounts[v].(recovery := a.accounts[v].recovery) == a.accounts[v])
    && exists st: Store :: st.sessions == a.store.sessions && st.slot == a.store.slot
         && b.store == Issue(st, now, hash, u)
  }

  lemma CommitSignsIn(a: Auth, env: Env, now: int, p: Pending, hash: string)
    requires WellFormed(a)
    ensures var o := CommitOf(a, env, now, p, hash);
            o.Done? ==> SignedIn(a, o.auth, now, o.uid, hash)
  {
    match p {
      case ByPassword(req) => PasswordSignsIn(a, env, now, req, hash);
      case BySso(provider, subject) => SsoSignsIn(a, now, provider, subject, hash);
      case ByOidc2fa(subject, byRecovery, code) => Oidc2faSignsIn(a, env, now, subject, byRecovery, code, hash);
    }
  }

  lemma PasswordSignsIn(a: Auth, env: Env, now: int, req: LoginReq, hash: string)
    requires WellFormed(a)
    ensures var o := CommitLogin(a, env, now, req, hash);
            o.Done? ==> SignedIn(a, o.auth, now, o.uid, hash)
  {
    hide Issue;
    FindLoginEnabled(a, env, req.name, req.password);
    var o := CommitLogin(a, env, now, req, hash);
    if o.Done? {
      hide FindUserForLogin, WellFormed, Consume;
      var st := Remembered(a, req.remember).store;
      assert o.auth.store == Issue(st, now, hash, o.uid);
    }
  }

  lemma SsoSignsIn(a: Auth, now: int, p: Provider, subject: string, hash: string)
    requires WellFormed(a)
    ensures var o := CommitSso(a, now, p, subject, hash);
            o.Done? ==> SignedIn(a, o.auth, now, o.uid, hash)
  {
    hide Issue;
    ResolveEnabled(a, p, subject);
  }

  lemma Oidc2faSignsIn(a: Auth, env: Env, now: int, subject: string, byRecovery: bool, code: string, hash: string)
    requires WellFormed(a)
    ensures var o := CommitOidc2fa(a, env, now, subject, byRecovery, code, hash);
            o.Done? ==> SignedIn(a, o.auth, now, o.uid, hash)
  {
    hide Issue;
    ResolveEnabled(a, Oidc, subject);
    var o := CommitOidc2fa(a, env, now, subject, byRecovery, code, hash);
    if o.Done? {
      hide Resolve, WellFormed, Consume;
      assert o.auth.store == Issue(a.store, now, hash, o.uid);
    }
  }

  lemma SignedInWellFormed(a: Auth, b: Auth, now: int, u: string, hash: string)
    requires WellFormed(a) && SignedIn(a, b, now, u, hash)
    ensures WellFormed(b)
  {
    assert b.accounts[ADMIN_USER_ID].(recovery := a.accounts[ADMIN_USER_ID].recovery) == a.accounts[ADMIN_USER_ID];
  }

  lemma SignedInStore(a: Auth, b: Auth, now: int, u: string, hash: string)
    requires MirrorOk(a.store) && SignedIn(a, b, now, u, hash)
    ensures MirrorOk(b.store) && From(b.store.sessions, a.store.sessions, now, IssueOp(hash, u))
  {
    var st: Store :| st.sessions == a.store.sessions && st.slot == a.store.slot && b.store == Issue(st, now, hash, u);
    MirrorStep(st, now, IssueOp(hash, u));
    ApplyFrom(st, now, IssueOp(hash, u));
  }

  lemma IssueKeeps(s: State, t: State, now: int, u: string, hash: string)
    requires Inv(s) && hash !in s.issued
    requires SignedIn(s.auth, t.auth, now, u, hash)
    requires t.issued == s.issued[hash := Issued(u, s.clock, now)] && t.barrier == s.barrier
    ensures AuthOk(t)
  {
    hide Issue;
    SignedInWellFormed(s.auth, t.auth, now, u, hash);
    SignedInStore(s.auth, t.auth, now, u, hash);
    forall x | x in t.auth.store.sessions
      ensures SessionOk(t, x)
    {
      var v := OwnerId(x);
      if x in s.auth.store.sessions {
        assert SessionOk(s, x);
        assert t.auth.accounts[v].(recovery := s.auth.accounts[v].recovery) == s.auth.accounts[v];
      } else {
        assert t.auth.accounts[u].(recovery := s.auth.accounts[u].recovery) == s.auth.accounts[u];
      }
    }
  }

  /** An operation that only removes sessions keeps the invariant, whatever happens to accounts
      and barriers that none of the remaining sessions belong to. */
  lemma ShrinkKeeps(s: State, t: State, now: int, op: Op)
    requires AuthOk(s) && !op.IssueOp?
    requires t.auth.store == Apply(s.auth.store, now, op) && t.issued == s.issued
    requires forall x :: x in t.auth.store.sessions && x in s.auth.store.sessions && SessionOk(s, x) ==> SessionOk(t, x)
    ensures MirrorOk(t.auth.store) && SessionsOk(t)
  {
    MirrorStep(s.auth.store, now, op);
    ApplyFrom(s.auth.store, now, op);
  }

  lemma CommitKeeps(s: State, env: Env, now: int, client: nat, hash: string)
    requires Inv(s) && hash !in s.issued
    ensures AuthOk(Next(s, env, now, Commit(client, hash)))
  {
    hide CommitOf;
    if client in s.pending {
      var o := CommitOf(s.auth, env, now, s.pending[client], hash);
      CommitSignsIn(s.auth, env, now, s.pending[client], hash);
      hide WellFormed, SignedIn, SessionsOk;
      if o.Done? {
        IssueKeeps(s, Next(s, env, now, Commit(client, hash)), now, o.uid, hash);
      } else {
        Unchanged(s, Next(s, env, now, Commit(client, hash)));
      }
    } else {
      Unchanged(s, Next(s, env, now, Commit(client, hash)));
    }
  }

  lemma Unchanged(s: State, t: State)
    requires AuthOk(s) && t.auth == s.auth && t.issued == s.issued && t.barrier == s.barrier
    ensures AuthOk(t)
  {
    forall x | x in t.auth.store.sessions
      ensures SessionOk(t, x)
    {
      assert SessionOk(s, x);
    }
  }

  lemma CreateKeeps(s: State, env: Env, now: int, step: Step)
    requires AuthOk(s) && step.Create?
    ensures AuthOk(Next(s, env, now, step))
  {
    var t := Next(s, env, now, step);
    forall x | x in t.auth.store.sessions
      ensures SessionOk(t, x)
    {
      assert SessionOk(s, x);
    }
  }

  /** Accounts of both keep their recovery rows and links, those of a stay except gone, all but switched
      stay as enabled as they were, and new ones have no links. */
  ghost predicate Framed(a: Auth, b: Auth, gone: string, switched: string) {
    && (forall u :: u in a.accounts && u in b.accounts ==>
          && b.accounts[u].recovery == a.accounts[u].recovery && b.accounts[u].links == a.accounts[u].links
          && (u != switched ==> b.accounts[u].enabled == a.accounts[u].enabled))
    && (forall u :: u in a.accounts && u != gone ==> u in b.accounts)
    && (forall u :: u in b.accounts && u !in a.accounts ==> b.accounts[u].links == map[])
  }

  function Patched(acct: Account, patch: Patch): Account {
    acct.(username := if patch.username.Some? then patch.username.value else acct.username,
          enabled := if patch.enabled.Some? then patch.enabled.value else acct.enabled,
          password := if patch.password.Some? then patch.password.value else acct.password)
  }

  /** An accepted update writes one account and nothing else of the table. */
  lemma UpdateWrites(a: Auth, env: Env, now: int, uid: string, patch: Patch)
    requires UpdateUser(a, env, now, uid, patch).Done?
    ensures uid in a.accounts
    ensures UpdateUser(a, env, now, uid, patch).auth.accounts == a.accounts[uid := Patched(a.accounts[uid], patch)]
  {
    hide ClearUser, UsernameInUse;
  }

  lemma UpdateFramed(a: Auth, env: Env, now: int, uid: string, patch: Patch)
    requires UpdateUser(a, env, now, uid, patch).Done?
    ensures var b := UpdateUser(a, env, now, uid, patch).auth;
            Framed(a, b, "", if patch.enabled.Some? then uid else "")
            && (patch.enabled.Some? ==> b.accounts[uid].enabled == patch.enabled.value)
  {
    UpdateWrites(a, env, now, uid, patch);
    hide UpdateUser;
  }

  lemma UpdateKeeps(s: State, env: Env, now: int, uid: string, patch: Patch)
    requires AuthOk(s)
    ensures AuthOk(Next(s, env, now, Update(uid, patch)))
  {
    hide UpdateUser;
    var t := Next(s, env, now, Update(uid, patch));
    var o := UpdateUser(s.auth, env, now, uid, patch);
    if o.Raised? {
      Unchanged(s, t);
    } else {
      UpdateFacts(s.auth, env, now, uid, patch);
      UpdateFramed(s.auth, env, now, uid, patch);
      forall x | x in t.auth.store.sessions
        ensures SessionOk(t, x)
      {
        assert SessionOk(s, x);
      }
    }
  }

  lemma ClearFacts(st: Store, now: int, uid: string)
    requires MirrorOk(st) && uid != "" && uid != ADMIN_USER_ID
    ensures var r := ClearUser(st, now, uid);
            MirrorOk(r) && forall x :: x in r.sessions ==> x in st.sessions && OwnerId(x) != uid
  {
    ApplyFrom(st, now, ClearUserOp(uid));
    MirrorStep(st, now, ClearUserOp(uid));
    ClearUserClears(st, now, uid);
  }

  lemma SwitchedFacts(a: Auth, now: int, uid: string, enabled: Option<bool>)
    requires WellFormed(a) && MirrorOk(a.store) && uid in a.order
    ensures var b := Switched(a, now, uid, enabled);
            && WellFormed(b) && MirrorOk(b.store)
            && (forall x :: x in b.store.sessions ==>
                  x in a.store.sessions && (enabled == Some(false) ==> OwnerId(x) != uid))
  {
    ClearFacts(a.store, now, uid);
  }

  lemma RekeyedFacts(a: Auth, now: int, uid: string, digest: Option<string>)
    requires WellFormed(a) && MirrorOk(a.store) && uid in a.order
    ensures var b := Rekeyed(a, now, uid, digest);
            && WellFormed(b) && MirrorOk(b.store)
            && (forall x :: x in b.store.sessions ==> x in a.store.sessions && (digest.Some? ==> OwnerId(x) != uid))
  {
    ClearFacts(a.store, now, uid);
  }

  /** What an accepted update does to the sessions: it keeps some, and none of the account's own
      when it disables the account or replaces its password. */
  lemma UpdateFacts(a: Auth, env: Env, now: int, uid: string, patch: Patch)
    requires WellFormed(a) && MirrorOk(a.store)
    requires UpdateUser(a, env, now, uid, patch).Done?
    ensures var b := UpdateUser(a, env, now, uid, patch).auth;
            && WellFormed(b) && MirrorOk(b.store)
            && (forall x :: x in b.store.sessions ==> x in a.store.sessions)
            && (patch.password.Some? || patch.enabled == Some(false)
                ==> forall x :: x in b.store.sessions ==> OwnerId(x) != uid)
  {
    var r := Renamed(a, uid, patch.username);
    SwitchedFacts(r, now, uid, patch.enabled);
    RekeyedFacts(Switched(r, now, uid, patch.enabled), now, uid, patch.password);
  }

  lemma DeleteWellFormed(a: Auth, uid: string)
    requires WellFormed(a) && uid in a.order
    ensures WellFormed(Auth(a.store, a.accounts - {uid}, Without(a.order, uid)))
  {
    WithoutDistinct(a.order, uid);
  }

  lemma DeleteFacts(a: Auth, now: int, uid: string)
    requires WellFormed(a) && MirrorOk(a.store) && uid in a.order
    ensures var b := DeleteUser(a, now, uid).auth;
            && WellFormed(b) && MirrorOk(b.store)
            && b.accounts == a.accounts - {uid}
            && (forall x :: x in b.store.sessions ==> x in a.store.sessions && OwnerId(x) != uid)
  {
    DeleteWellFormed(a, uid);
    assert uid != "" && uid != ADMIN_USER_ID;
    ClearFacts(a.store, now, uid);
    hide ClearUser, Without, Distinct, MirrorOk;
  }

  lemma DeleteKeeps(s: State, env: Env, now: int, uid: string)
    requires AuthOk(s)
    ensures AuthOk(Next(s, env, now, Delete(uid)))
  {
    var t := Next(s, env, now, Delete(uid));
    if uid in s.auth.order {
      DeleteFacts(s.auth, now, uid);
      forall x | x in t.auth.store.sessions
        ensures SessionOk(t, x)
      {
        assert SessionOk(s, x);
      }
    } else {
      Unchanged(s, t);
    }
  }

  lemma CredentialsFacts(a: Auth, env: Env, now: int, name: string, digest: Option<string>, hash: string)
    requires WellFormed(a) && SetCredentials(a, env, now, name, digest, hash).Done?
    ensures var b := SetCredentials(a, env, now, name, digest, hash).auth;
            && WellFormed(b) && MirrorOk(b.store)
            && (forall x :: x in b.store.sessions
                  ==> x.tokenHash == hash && x.owner == Id(ADMIN_USER_ID) && x.createdAt == now)
  {
    hide Issue;
    var st := ClearAll(a.store);
    MirrorStep(st, now, IssueOp(hash, ADMIN_USER_ID));
    IssueFrom(st, now, hash, ADMIN_USER_ID);
  }

  lemma CredentialsKeeps(s: State, env: Env, now: int, name: string, digest: Option<string>, hash: string)
    requires AuthOk(s)
    ensures AuthOk(Next(s, env, now, Credentials(name, digest, hash)))
  {
    hide Issue;
    var t := Next(s, env, now, Credentials(name, digest, hash));
    if SetCredentials(s.auth, env, now, name, digest, hash).Raised? {
      Unchanged(s, t);
    } else {
      CredentialsFacts(s.auth, env, now, name, digest, hash);
      hide SetCredentials;
    }
  }

  lemma TotpFacts(a: Auth, now: int, uid: string, totp: Totp, token: Option<string>)
    requires WellFormed(a) && MirrorOk(a.store) && SetTotp(a, now, uid, totp, token).Done?
    ensures var b := SetTotp(a, now, uid, totp, token).auth;
            && WellFormed(b) && MirrorOk(b.store)
            && b.accounts.Keys == a.accounts.Keys
            && (forall u :: u in a.accounts ==> b.accounts[u].enabled == a.accounts[u].enabled)
            && (forall x :: x in b.store.sessions ==> x in a.store.sessions)
  {
    hide Prune, Iter, MirrorOk;
    ApplyFrom(a.store, now, ClearUserExceptOp(uid, token));
    MirrorStep(a.store, now, ClearUserExceptOp(uid, token));
  }

  lemma TotpKeeps(s: State, env: Env, now: int, uid: string, totp: Totp, token: Option<string>)
    requires AuthOk(s)
    ensures AuthOk(Next(s, env, now, Totp2(uid, totp, token)))
  {
    var t := Next(s, env, now, Totp2(uid, totp, token));
    if SetTotp(s.auth, now, uid, totp, token).Done? {
      TotpFacts(s.auth, now, uid, totp, token);
      forall x | x in t.auth.store.sessions
        ensures SessionOk(t, x)
      {
        assert SessionOk(s, x);
      }
    } else {
      Unchanged(s, t);
    }
  }

  /** Linking and unlinking change links alone. */
  ghost predicate Relinked(a: Auth, b: Auth) {
    && b.store == a.store && b.order == a.order && b.accounts.Keys == a.accounts.Keys
    && forall u :: u in a.accounts ==> b.accounts[u].(links := a.accounts[u].links) == a.accounts[u]
  }

  lemma LinkRelinks(a: Auth, now: int, token: Option<string>, p: Provider, subject: string, requested: string)
    ensures var o := Link(a, now, token, p, subject, requested); o.Done? ==> Relinked(a, o.auth)
    ensures var o := Unlink(a, now, token, p, requested); o.Done? ==> Relinked(a, o.auth)
  {
    hide CurrentUser, TargetForLink, IdentityInUse;
  }

  lemma RelinkedKeeps(s: State, t: State)
    requires AuthOk(s) && Relinked(s.auth, t.auth) && t.issued == s.issued && t.barrier == s.barrier
    ensures AuthOk(t)
  {
    assert t.auth.accounts[ADMIN_USER_ID].(links := s.auth.accounts[ADMIN_USER_ID].links)
        == s.auth.accounts[ADMIN_USER_ID];
    forall x | x in t.auth.store.sessions
      ensures SessionOk(t, x)
    {
      assert SessionOk(s, x);
      assert t.auth.accounts[OwnerId(x)].(links := s.auth.accounts[OwnerId(x)].links) == s.auth.accounts[OwnerId(x)];
    }
  }

  lemma LinkKeeps(s: State, env: Env, now: int, step: Step)
    requires AuthOk(s) && (step.LinkId? || step.UnlinkId?)
    ensures AuthOk(Next(s, env, now, step))
  {
    if step.LinkId? {
      LinkRelinks(s.auth, now, step.token, step.provider, step.subject, step.requested);
    } else {
      LinkRelinks(s.auth, now, step.token, step.provider, "", step.requested);
    }
    hide Link, Unlink, AuthOk, Relinked;
    var t := Next(s, env, now, step);
    assert t.auth == s.auth || Relinked(s.auth, t.auth);
    if t.auth == s.auth {
      Unchanged(s, t);
    } else {
      RelinkedKeeps(s, t);
    }
  }

  lemma LogoutKeeps(s: State, env: Env, now: int, step: Step)
    requires AuthOk(s) && (step.Logout? || step.LogoutAll? || step.LogoutOthers?)
    ensures AuthOk(Next(s, env, now, step))
  {
    var t := Next(s, env, now, step);
    match step {
      case Logout(token) => ShrinkKeeps(s, t, now, DropOp(token));
      case LogoutAll => ShrinkKeeps(s, t, now, ClearAllOp);
      case LogoutOthers(token) => ShrinkKeeps(s, t, now, ClearOthersOp(token));
    }
  }

  lemma StepHistory(s: State, env: Env, now: int, step: Step)
    requires ADMIN_USER_ID in s.auth.accounts && HistoryOk(s)
    ensures HistoryOk(Next(s, env, now, step))
  {
    hide CommitOf, UpdateUser, SetCredentials, DeleteUser, CreateUser, SetTotp, Link, Unlink;
    hide CheckLogin, CheckSsoOn, CheckOidc2faOn, Drop, ClearAll, ClearOthers;
  }

  /** Every step that may be taken keeps the invariant. */
  lemma StepKeeps(s: State, env: Env, now: int, step: Step)
    requires Inv(s) && FreshToken(s, step)
    ensures Inv(Next(s, env, now, step))
  {
    StepHistory(s, env, now, step);
    hide Next, HistoryOk, WellFormed, SessionsOk;
    match step {
      case Check(_, _, _, _, _) => Unchanged(s, Next(s, env, now, step));
      case CheckSso(_, _, _, _) => Unchanged(s, Next(s, env, now, step));
      case CheckOidc2fa(_, _, _) => Unchanged(s, Next(s, env, now, step));
      case Commit(client, hash) => CommitKeeps(s, env, now, client, hash);
      case Create(_, _, _, _) => CreateKeeps(s, env, now, step);
      case Update(uid, patch) => UpdateKeeps(s, env, now, uid, patch);
      case Delete(uid) => DeleteKeeps(s, env, now, uid);
      case Credentials(name, digest, hash) => CredentialsKeeps(s, env, now, name, digest, hash);
      case Totp2(uid, totp, token) => TotpKeeps(s, env, now, uid, totp, token);
      case LinkId(_, _, _, _) => LinkKeeps(s, env, now, step);
      case UnlinkId(_, _, _) => LinkKeeps(s, env, now, step);
      case Logout(_) => LogoutKeeps(s, env, now, step);
      case LogoutAll => LogoutKeeps(s, env, now, step);
      case LogoutOthers(_) => LogoutKeeps(s, env, now, step);
    }
  }
}
