/**
 * Against which account the second factor of an SSO login was checked. The
 * check and the commit resolve the identity each for itself, so they may mean
 * different accounts, or the factor may have been off at the check.
 */
module FactorChecks {
  import opened Sequences
  import opened Sessions
  import opened AccountFrames
  import opened AuthStore
  import opened LoginProtocol
  import opened LoginRuns
  import opened SsoLinks
  import opened Samples

  /** What a check by this client leaves to be committed. */
  function Produces(s: State, env: Env, now: int, step: Step, client: nat): Option<Pending>
    requires ADMIN_USER_ID in s.auth.accounts
  {
    match step
    case Check(c, name, password, code, remember) =>
      var req := CheckLogin(s.auth, env, now, name, password, code, remember);
      if c == client && req.Some? then Some(ByPassword(req.value)) else None
    case CheckSso(c, p, subject, code) => if c == client then CheckSsoOn(s.auth, env, now, p, subject, code) else None
    case CheckOidc2fa(c, subject, code) => if c == client then CheckOidc2faOn(s.auth, env, now, subject, code) else None
    case _ => None
  }

  /** The account an SSO check looked at. */
  function AccountAt(s: State, step: Step): Option<string> {
    match step
    case CheckSso(_, p, subject, _) => Resolve(s.auth, p, subject)
    case CheckOidc2fa(_, subject, _) => Resolve(s.auth, Oidc, subject)
    case _ => None
  }

  /** The check verified the second factor of u. */
  predicate ChecksFactor(s: State, env: Env, now: int, step: Step, u: string) {
    AccountAt(s, step) == Some(u) && u in s.auth.accounts &&
    var acct := s.auth.accounts[u];
    match step
    case CheckSso(_, p, _, code) => p == Plex && TotpOn(acct.totp) && env.totpOk(acct.totp.secret, code, now)
    case CheckOidc2fa(_, _, code) =>
      env.totpOk(acct.totp.secret, code, now) || Consume(env, acct.recovery, code).Some?
    case _ => false
  }

  predicate FactorOn(s: State, u: string) {
    u in s.auth.accounts && TotpOn(s.auth.accounts[u].totp)
  }

  // ------------------------------------------------------------ the check behind a commit

  lemma StepPending(s: State, env: Env, now: int, step: Step, client: nat)
    requires ADMIN_USER_ID in s.auth.accounts && client in Next(s, env, now, step).pending
    ensures var t, made := Next(s, env, now, step), Produces(s, env, now, step, client);
            if made.Some? then t.pending[client] == made.value
            else client in s.pending && t.pending[client] == s.pending[client]
  {
    hide CommitOf, UpdateUser, SetCredentials, DeleteUser, CreateUser, SetTotp, Link, Unlink;
    hide CheckLogin, CheckSsoOn, CheckOidc2faOn, Drop, ClearAll, ClearOthers;
  }

  /** Every pending login comes from a check by its client, which nothing has replaced since. */
  lemma {:induction false} CheckBehind(states: seq<State>, env: Env, trace: seq<(int, Step)>, i: nat, client: nat)
    returns (j: nat)
    requires IsRun(states, env, trace) && states[0].pending == map[] && i <= |trace| && client in states[i].pending
    ensures j < i && ADMIN_USER_ID in states[j].auth.accounts
    ensures Produces(states[j], env, trace[j].0, trace[j].1, client) == Some(states[i].pending[client])
    ensures forall k :: j < k < i ==>
              client in states[k].pending && states[k].pending[client] == states[i].pending[client]
  {
    hide Next, Produces;
    assert i > 0;
    assert IsNext(states[i - 1], env, trace[i - 1].0, trace[i - 1].1, states[i]);
    StepPending(states[i - 1], env, trace[i - 1].0, trace[i - 1].1, client);
    if Produces(states[i - 1], env, trace[i - 1].0, trace[i - 1].1, client).Some? {
      j := i - 1;
    } else {
      j := CheckBehind(states, env, trace, i - 1, client);
    }
  }

  /** A check that lets a login on has verified the factor of the account it saw, if that was on or the login came
      by the OIDC second factor. */
  lemma CheckVerified(s: State, env: Env, now: int, step: Step, client: nat, u: string)
    requires WellFormed(s.auth) && Produces(s, env, now, step, client).Some?
    requires !Produces(s, env, now, step, client).value.ByPassword?
    ensures AccountAt(s, step).Some? && AccountAt(s, step).value in s.auth.accounts
    ensures ChecksFactor(s, env, now, step, u)
       <==> AccountAt(s, step) == Some(u)
            && (Produces(s, env, now, step, client).value.ByOidc2fa? || TotpOn(s.auth.accounts[u].totp))
  {
    hide Resolve, Consume, CheckLogin;
    match step {
      case CheckSso(_, p, subject, _) => ResolveEnabled(s.auth, p, subject);
      case CheckOidc2fa(_, subject, _) => ResolveEnabled(s.auth, Oidc, subject);
      case _ =>
    }
  }

  /**
   * A session that an SSO commit issues had its account's second factor checked if
   * and only if the check saw that very account, and, outside the OIDC second
   * factor, saw its factor on.
   */
  lemma FactorOfCommit(states: seq<State>, env: Env, trace: seq<(int, Step)>, i: nat) returns (j: nat)
    requires IsRun(states, env, trace) && Inv(states[0]) && states[0].pending == map[] && i < |trace|
    requires trace[i].1.Commit? && trace[i].1.client in states[i].pending
    requires !states[i].pending[trace[i].1.client].ByPassword? && ADMIN_USER_ID in states[i].auth.accounts
    ensures j < i && WellFormed(states[j].auth)
    ensures Produces(states[j], env, trace[j].0, trace[j].1, trace[i].1.client)
         == Some(states[i].pending[trace[i].1.client])
    ensures var p := states[i].pending[trace[i].1.client];
            var o := CommitOf(states[i].auth, env, trace[i].0, p, trace[i].1.hash);
            o.Done? ==>
              (ChecksFactor(states[j], env, trace[j].0, trace[j].1, o.uid)
               <==> AccountAt(states[j], trace[j].1) == Some(o.uid) && (p.ByOidc2fa? || FactorOn(states[j], o.uid)))
  {
    hide ChecksFactor, Produces, CommitOf, AccountAt, WellFormed;
    j := CheckBehind(states, env, trace, i, trace[i].1.client);
    RunKeeps(states, env, trace, j);
    var o := CommitOf(states[i].auth, env, trace[i].0, states[i].pending[trace[i].1.client], trace[i].1.hash);
    if o.Done? {
      CheckVerified(states[j], env, trace[j].0, trace[j].1, trace[i].1.client, o.uid);
    }
  }

  // ------------------------------------------------------------ when nothing comes between

  lemma CommitTotp(a: Auth, env: Env, now: int, p: Pending, hash: string, u: string)
    requires WellFormed(a) && u in a.accounts
    ensures var o := CommitOf(a, env, now, p, hash);
            o.Done? ==> u in o.auth.accounts && o.auth.accounts[u].totp == a.accounts[u].totp
  {
    CommitSignsIn(a, env, now, p, hash);
    var o := CommitOf(a, env, now, p, hash);
    if o.Done? {
      assert o.auth.accounts[u].(recovery := a.accounts[u].recovery) == a.accounts[u];
    }
  }

  lemma AdminTotp(a: Auth, env: Env, now: int, step: Step, u: string)
    requires WellFormed(a) && u in a.accounts && !(step.Totp2? && step.uid == u)
    ensures match step
            case Create(uid, name, enabled, digest) =>
              var o := CreateUser(a, env, uid, name, enabled, digest);
              o.Done? ==> u in o.auth.accounts && o.auth.accounts[u].totp == a.accounts[u].totp
            case Update(uid, patch) =>
              var o := UpdateUser(a, env, now, uid, patch);
              o.Done? ==> u in o.auth.accounts && o.auth.accounts[u].totp == a.accounts[u].totp
            case Delete(uid) =>
              var b := DeleteUser(a, now, uid).auth;
              u in b.accounts ==> b.accounts[u].totp == a.accounts[u].totp
            case Credentials(name, digest, hash) =>
              var o := SetCredentials(a, env, now, name, digest, hash);
              o.Done? ==> u in o.auth.accounts && o.auth.accounts[u].totp == a.accounts[u].totp
            case Totp2(uid, totp, token) =>
              var o := SetTotp(a, now, uid, totp, token);
              o.Done? ==> u in o.auth.accounts && o.auth.accounts[u].totp == a.accounts[u].totp
            case LinkId(token, p, subject, requested) =>
              var o := Link(a, now, token, p, subject, requested);
              o.Done? ==> u in o.auth.accounts && o.auth.accounts[u].totp == a.accounts[u].totp
            case UnlinkId(token, p, requested) =>
              var o := Unlink(a, now, token, p, requested);
              o.Done? ==> u in o.auth.accounts && o.auth.accounts[u].totp == a.accounts[u].totp
            case _ => true
  {
    hide Issue, ClearUser, ClearUserExcept, CurrentUser, TargetForLink, IdentityInUse, UsernameInUse;
  }

  /** Only a two-factor change of the account itself changes its factor. */
  lemma StepTotp(s: State, env: Env, now: int, step: Step, u: string)
    requires WellFormed(s.auth) && u in s.auth.accounts && !(step.Totp2? && step.uid == u)
    ensures var t := Next(s, env, now, step);
            u in t.auth.accounts ==> t.auth.accounts[u].totp == s.auth.accounts[u].totp
  {
    hide UpdateUser, CreateUser, DeleteUser, SetCredentials, SetTotp, CommitOf, Link, Unlink;
    hide CheckLogin, CheckSsoOn, CheckOidc2faOn, Drop, ClearAll, ClearOthers;
    if step.Commit? {
      if step.client in s.pending {
        CommitTotp(s.auth, env, now, s.pending[step.client], step.hash, u);
      }
    } else if IsAdminStep(step) || step.LinkId? || step.UnlinkId? {
      AdminTotp(s.auth, env, now, step, u);
    } else {
      QuietFramed(s, env, now, step);
    }
  }

  predicate TouchesFactor(step: Step, u: string) {
    step.Totp2? && step.uid == u
  }

  /** From j to i no step ends the link of u or changes its factor. */
  predicate Undisturbed(states: seq<State>, env: Env, trace: seq<(int, Step)>, j: nat, i: nat,
                        u: string, p: Provider, subject: string)
    requires i <= |trace| == |states| - 1
  {
    forall k :: j <= k < i ==>
      !Ends(states[k], env, trace[k].0, trace[k].1, u, p, subject) && !TouchesFactor(trace[k].1, u)
  }

  lemma QuietStep(s: State, env: Env, now: int, step: Step, u: string, p: Provider, subject: string)
    requires WellFormed(s.auth) && SsoHit(s.auth, p, subject, u)
    requires !Ends(s, env, now, step, u, p, subject) && !TouchesFactor(step, u)
    ensures var t := Next(s, env, now, step);
            SsoHit(t.auth, p, subject, u) && t.auth.accounts[u].totp == s.auth.accounts[u].totp
  {
    hide Next, Ends, WellFormed;
    StepKeepsLink(s, env, now, step, u, p, subject);
    StepTotp(s, env, now, step, u);
  }

  lemma {:induction false} QuietRun(states: seq<State>, env: Env, trace: seq<(int, Step)>, j: nat, k: nat,
                                    u: string, p: Provider, subject: string)
    requires IsRun(states, env, trace) && Inv(states[0]) && j <= k <= |trace|
    requires SsoHit(states[j].auth, p, subject, u) && Undisturbed(states, env, trace, j, k, u, p, subject)
    ensures SsoHit(states[k].auth, p, subject, u)
    ensures states[k].auth.accounts[u].totp == states[j].auth.accounts[u].totp
  {
    hide Next, Ends, TouchesFactor, SsoHit, Inv;
    if j < k {
      QuietRun(states, env, trace, j, k - 1, u, p, subject);
      RunKeeps(states, env, trace, k - 1);
      InvWellFormed(states[k - 1]);
      assert IsNext(states[k - 1], env, trace[k - 1].0, trace[k - 1].1, states[k]);
      QuietStep(states[k - 1], env, trace[k - 1].0, trace[k - 1].1, u, p, subject);
    }
    HitExists(states[k].auth, p, subject, u);
    HitExists(states[j].auth, p, subject, u);
  }

  lemma InvWellFormed(s: State)
    requires Inv(s)
    ensures WellFormed(s.auth)
  {
  }

  lemma HitExists(a: Auth, p: Provider, subject: string, u: string)
    ensures SsoHit(a, p, subject, u) ==> u in a.accounts
  {
  }

  function ProviderOf(p: Pending): Provider {
    if p.BySso? then p.provider else Oidc
  }

  function SubjectOf(p: Pending): string {
    match p
    case ByPassword(_) => ""
    case BySso(_, subject) => subject
    case ByOidc2fa(subject, _, _) => subject
  }

  /** What an SSO check says about the login it lets on. */
  lemma CheckMeans(s: State, env: Env, now: int, step: Step, client: nat)
    requires WellFormed(s.auth) && Produces(s, env, now, step, client).Some?
    requires !Produces(s, env, now, step, client).value.ByPassword?
    ensures var p := Produces(s, env, now, step, client).value;
            AccountAt(s, step).Some? && SsoHit(s.auth, ProviderOf(p), SubjectOf(p), AccountAt(s, step).value)
  {
    hide Resolve, Consume, CheckLogin;
    match step {
      case CheckSso(_, p, subject, _) => ResolveEnabled(s.auth, p, subject);
      case CheckOidc2fa(_, subject, _) => ResolveEnabled(s.auth, Oidc, subject);
      case _ =>
    }
  }

  lemma CommitResolves(a: Auth, env: Env, now: int, p: Pending, hash: string)
    requires ADMIN_USER_ID in a.accounts && !p.ByPassword?
    ensures var o := CommitOf(a, env, now, p, hash);
            o.Done? ==> Resolve(a, ProviderOf(p), SubjectOf(p)) == Some(o.uid)
  {
    hide Resolve, Issue;
  }

  /**
   * If between check and commit nothing ends the link of the account or changes
   * its factor, the commit signs in that account, and if its factor is on it was
   * checked.
   */
  lemma CheckedWhenUndisturbed(states: seq<State>, env: Env, trace: seq<(int, Step)>, i: nat) returns (j: nat)
    requires IsRun(states, env, trace) && Inv(states[0]) && states[0].pending == map[] && i < |trace|
    requires Injective(states[0].auth)
    requires trace[i].1.Commit? && trace[i].1.client in states[i].pending
    requires !states[i].pending[trace[i].1.client].ByPassword? && ADMIN_USER_ID in states[i].auth.accounts
    ensures j < i && WellFormed(states[j].auth) && AccountAt(states[j], trace[j].1).Some?
    ensures var p, u := states[i].pending[trace[i].1.client], AccountAt(states[j], trace[j].1).value;
            var o := CommitOf(states[i].auth, env, trace[i].0, p, trace[i].1.hash);
            o.Done? && Undisturbed(states, env, trace, j, i, u, ProviderOf(p), SubjectOf(p)) ==>
              o.uid == u && (FactorOn(states[i], u) ==> ChecksFactor(states[j], env, trace[j].0, trace[j].1, u))
  {
    assert |states| == |trace| + 1;
    hide ChecksFactor, Produces, CommitOf, AccountAt, WellFormed, Undisturbed, SsoHit, IsRun, Inv, Injective, Resolve;
    j := FactorOfCommit(states, env, trace, i);
    var p := states[i].pending[trace[i].1.client];
    CheckMeans(states[j], env, trace[j].0, trace[j].1, trace[i].1.client);
    var u := AccountAt(states[j], trace[j].1).value;
    var o := CommitOf(states[i].auth, env, trace[i].0, p, trace[i].1.hash);
    if o.Done? && Undisturbed(states, env, trace, j, i, u, ProviderOf(p), SubjectOf(p)) {
      QuietRun(states, env, trace, j, i, u, ProviderOf(p), SubjectOf(p));
      HitExists(states[j].auth, ProviderOf(p), SubjectOf(p), u);
      CommitResolves(states[i].auth, env, trace[i].0, p, trace[i].1.hash);
      RunKeeps(states, env, trace, i);
      InvWellFormed(states[i]);
      RunInjective(states, env, trace, i);
      ResolveIsLink(states[i].auth, ProviderOf(p), SubjectOf(p), u);
    }
  }

  // ------------------------------------------------------------ a run that turns the factor on in between

  /** One-time code "c" is right for the secret "s" and none for others. */
  function OneCodeEnv(): Env {
    Env((stored, typed) => stored == typed, (secret, code, now) => secret == "s" && code == "c", name => name)
  }

  function LinkedAlone(totp: Totp): Auth {
    var admin := Account("root", true, "pw", totp, [], map[Oidc := "id"]);
    Auth(ADMIN_STORE, map[ADMIN_USER_ID := admin], [])
  }

  function WaitingState(totp: Totp, clock: nat): State {
    State(LinkedAlone(totp), map[0 := BySso(Oidc, "id")], clock, ADMIN_ISSUED, map[])
  }

  function LateSteps(): seq<(int, Step)> {
    [(2, CheckSso(0, Oidc, "id", "")), (3, Totp2(ADMIN_USER_ID, ON, Some(HEX))), (4, Commit(0, TOKEN))]
  }

  /** The administrator is signed in on one device and logs in on another. */
  function LateStates(): seq<State> {
    [State(LinkedAlone(OFF), map[], 1, ADMIN_ISSUED, map[]), WaitingState(OFF, 2), WaitingState(ON, 3),
     Next(WaitingState(ON, 3), OneCodeEnv(), 4, Commit(0, TOKEN))]
  }

  lemma LateCheck()
    ensures Next(LateStates()[0], OneCodeEnv(), 2, LateSteps()[0].1) == WaitingState(OFF, 2)
  {
  }

  lemma SwitchedOn()
    ensures SetTotp(LinkedAlone(OFF), 3, ADMIN_USER_ID, ON, Some(HEX)) == Done(LinkedAlone(ON), ADMIN_USER_ID)
  {
    AdminStays(3);
    hide ClearUserExcept;
    assert LinkedAlone(OFF).accounts[ADMIN_USER_ID := LinkedAlone(ON).accounts[ADMIN_USER_ID]]
        == LinkedAlone(ON).accounts;
  }

  lemma LateTotp()
    ensures Next(WaitingState(OFF, 2), OneCodeEnv(), 3, LateSteps()[1].1) == WaitingState(ON, 3)
  {
    SwitchedOn();
    hide SetTotp;
  }

  lemma LateCommit()
    ensures var o := CommitOf(LinkedAlone(ON), OneCodeEnv(), 4, BySso(Oidc, "id"), TOKEN);
            o.Done? && o.uid == ADMIN_USER_ID
  {
    hide Issue;
  }

  lemma LateStart()
    ensures Inv(LateStates()[0])
  {
    AdminInv(LateStates()[0]);
  }

  lemma LateByAdmin()
    ensures CurrentUser(LateStates()[1].auth, 3, LateSteps()[1].1.token) == Some(ADMIN_USER_ID)
  {
    hide CurrentUser;
    AdminToken(LinkedAlone(OFF), 3);
  }

  /** It happens: two-factor is turned on between check and commit, and the commit issues a session without it. */
  lemma FactorTurnedOn()
    ensures IsRun(LateStates(), OneCodeEnv(), LateSteps()) && Inv(LateStates()[0])
    ensures CurrentUser(LateStates()[1].auth, 3, LateSteps()[1].1.token) == Some(ADMIN_USER_ID)
    ensures var s, step := LateStates()[2], LateSteps()[2].1;
            var o := CommitOf(s.auth, OneCodeEnv(), 4, s.pending[0], TOKEN);
            && o.Done? && o.uid == ADMIN_USER_ID && FactorOn(s, ADMIN_USER_ID)
            && !ChecksFactor(LateStates()[0], OneCodeEnv(), 2, LateSteps()[0].1, ADMIN_USER_ID)
  {
    LateCheck();
    LateTotp();
    LateByAdmin();
    LateStart();
    LateCommit();
    hide Next, CommitOf, CurrentUser, Inv;
    var states, trace := LateStates(), LateSteps();
    forall i | 0 <= i < |trace| ensures IsNext(states[i], OneCodeEnv(), trace[i].0, trace[i].1, states[i + 1]) {
      assert i == 0 || i == 1 || i == 2;
    }
  }

  // ------------------------------------------------------------ a run that moves the identity in between

  /** An administrator, signed in, and two accounts with two-factor on; uLinked and wLinked say who has the identity. */
  function TwoUsers(uLinked: bool, wLinked: bool): Auth {
    var admin := Account("root", true, "pw", OFF, [], map[]);
    var u := Account("u", true, "pw", ON, [], if uLinked then map[Plex := "id"] else map[]);
    var w := Account("w", true, "pw", Totp(true, "other"), [], if wLinked then map[Plex := "id"] else map[]);
    Auth(ADMIN_STORE, map[ADMIN_USER_ID := admin, "u" := u, "w" := w], ["u", "w"])
  }

  function MovingState(uLinked: bool, wLinked: bool, waiting: bool, clock: nat): State {
    State(TwoUsers(uLinked, wLinked), if waiting then map[0 := BySso(Plex, "id")] else map[], clock,
          ADMIN_ISSUED, map[])
  }

  function MoveSteps(): seq<(int, Step)> {
    [(2, CheckSso(0, Plex, "id", "c")), (3, UnlinkId(Some(HEX), Plex, "u")),
     (4, LinkId(Some(HEX), Plex, "id", "w")), (5, Commit(0, TOKEN))]
  }

  function MoveStates(): seq<State> {
    [MovingState(true, false, false, 1), MovingState(true, false, true, 2), MovingState(false, false, true, 3),
     MovingState(false, true, true, 4), Next(MovingState(false, true, true, 4), OneCodeEnv(), 5, Commit(0, TOKEN))]
  }

  lemma MoveCheck()
    ensures Next(MovingState(true, false, false, 1), OneCodeEnv(), 2, MoveSteps()[0].1)
         == MovingState(true, false, true, 2)
    ensures AccountAt(MovingState(true, false, false, 1), MoveSteps()[0].1) == Some("u")
  {
    var a := TwoUsers(true, false);
    assert FirstSso(a, a.order, Plex, "id") == Some("u");
  }

  lemma MoveUnlink()
    ensures Next(MovingState(true, false, true, 2), OneCodeEnv(), 3, MoveSteps()[1].1)
         == MovingState(false, false, true, 3)
  {
    var a := TwoUsers(true, false);
    AdminToken(a, 3);
    hide CurrentUser;
    assert a.accounts["u"].(links := a.accounts["u"].links - {Plex}) == TwoUsers(false, false).accounts["u"];
    assert a.accounts["u" := TwoUsers(false, false).accounts["u"]] == TwoUsers(false, false).accounts;
  }

  lemma MoveLink()
    ensures Next(MovingState(false, false, true, 3), OneCodeEnv(), 4, MoveSteps()[2].1)
         == MovingState(false, true, true, 4)
  {
    var a := TwoUsers(false, false);
    AdminToken(a, 4);
    hide CurrentUser;
    assert !IdentityInUse(a, Plex, "id", "w");
    assert a.accounts["w"].(links := a.accounts["w"].links[Plex := "id"]) == TwoUsers(false, true).accounts["w"];
    assert a.accounts["w" := TwoUsers(false, true).accounts["w"]] == TwoUsers(false, true).accounts;
  }

  lemma MoveCommit()
    ensures var o := CommitOf(TwoUsers(false, true), OneCodeEnv(), 5, BySso(Plex, "id"), TOKEN);
            o.Done? && o.uid == "w"
  {
    hide Issue;
    var a := TwoUsers(false, true);
    assert a.order[1..] == ["w"];
    assert FirstSso(a, ["w"], Plex, "id") == Some("w");
    assert FirstSso(a, a.order, Plex, "id") == Some("w");
  }

  /** It happens: the identity moves from u to w between check and commit, and a code checked against u signs w in. */
  lemma IdentityMoved()
    ensures IsRun(MoveStates(), OneCodeEnv(), MoveSteps()) && Inv(MoveStates()[0])
    ensures var s := MoveStates()[3];
            var o := CommitOf(s.auth, OneCodeEnv(), 5, s.pending[0], TOKEN);
            && o.Done? && o.uid == "w" && FactorOn(s, "w")
            && ChecksFactor(MoveStates()[0], OneCodeEnv(), 2, MoveSteps()[0].1, "u")
            && !ChecksFactor(MoveStates()[0], OneCodeEnv(), 2, MoveSteps()[0].1, "w")
  {
    MoveCheck();
    MoveUnlink();
    MoveLink();
    MoveCommit();
    MoveStart();
    hide Next, CommitOf, AccountAt, Inv;
    var states, trace := MoveStates(), MoveSteps();
    forall i | 0 <= i < |trace| ensures IsNext(states[i], OneCodeEnv(), trace[i].0, trace[i].1, states[i + 1]) {
      assert i == 0 || i == 1 || i == 2 || i == 3;
    }
  }

  lemma MoveStart()
    ensures Inv(MovingState(true, false, false, 1))
  {
    AdminInv(MovingState(true, false, false, 1));
  }
}
