/**
 * What a login commit checks on the latest configuration, and why a name and a
 * password point to one account: names stay unique, but for case, over every run.
 */
module Usernames {
  import opened Sequences
  import opened Sessions
  import opened AccountFrames
  import opened AuthStore
  import opened LoginProtocol
  import opened LoginRuns

  // ------------------------------------------------------------ what a commit checks

  /** Stored text accepts the typed recovery code, as cleaned or with a hyphen after ten characters. */
  predicate OpensRow(env: Env, row: string, code: string) {
    var clean := CleanCode(code);
    |clean| >= 10 && (env.matches(row, clean) || env.matches(row, clean[..10] + "-" + clean[10..]))
  }

  predicate CodeOpensRow(env: Env, rows: seq<string>, code: string) {
    exists i :: 0 <= i < |rows| && OpensRow(env, rows[i], code)
  }

  /** The second factor of an account, if it has one on, accepts what the request brings. */
  predicate SecondFactorOk(env: Env, now: int, acct: Account, req: LoginReq) {
    acct.totp.enabled && acct.totp.secret != "" ==>
      if req.byRecovery then CodeOpensRow(env, acct.recovery, req.code)
      else env.totpOk(acct.totp.secret, req.code, now)
  }

  lemma ConsumeIsOpening(env: Env, rows: seq<string>, code: string)
    ensures Consume(env, rows, code).Some? <==> CodeOpensRow(env, rows, code)
  {
    var clean := CleanCode(code);
    if |clean| >= 10 {
      var k := FirstRow(env, rows, clean);
      assert k < |rows| ==> OpensRow(env, rows[k], code);
      assert forall i :: 0 <= i < |rows| ==> (OpensRow(env, rows[i], code) <==> RowMatches(env, rows[i], clean));
    }
  }

  /** The account a name and a password find: one that matches, and none only if no account does. */
  lemma FoundMatches(a: Auth, env: Env, name: string, password: string)
    requires WellFormed(a) && name != ""
    ensures var r := FindUserForLogin(a, env, name, password);
            && (r.Some? ==> LoginHit(a, env, name, password, r.value))
            && (r.None? ==> forall u :: !LoginHit(a, env, name, password, u))
  {
  }

  /**
   * A password login is let in exactly when the account found in the latest
   * configuration still matches and its second factor accepts the request.
   */
  lemma CommitRechecks(a: Auth, env: Env, now: int, req: LoginReq, hash: string)
    requires WellFormed(a) && req.name != ""
    ensures var o := CommitLogin(a, env, now, req, hash);
            && (o.Done? ==> LoginHit(a, env, req.name, req.password, o.uid)
                            && SecondFactorOk(env, now, a.accounts[o.uid], req))
            && (o.Raised? <==> match FindUserForLogin(a, env, req.name, req.password)
                               case None => true
                               case Some(u) => u in a.accounts && !SecondFactorOk(env, now, a.accounts[u], req))
  {
    hide Issue, Consume;
    FoundMatches(a, env, req.name, req.password);
    hide FindUserForLogin, WellFormed;
    var user := FindUserForLogin(a, env, req.name, req.password);
    if user.Some? {
      ConsumeIsOpening(env, a.accounts[user.value].recovery, req.code);
    }
  }

  /** An SSO login is let in exactly when some enabled account of the latest configuration carries the identity. */
  lemma SsoRechecks(a: Auth, now: int, p: Provider, subject: string, hash: string)
    requires WellFormed(a)
    ensures var o := CommitSso(a, now, p, subject, hash);
            && (o.Done? ==> SsoHit(a, p, subject, o.uid))
            && (o.Raised? ==> forall u :: !SsoHit(a, p, subject, u))
  {
    hide Issue;
    forall u | SsoHit(a, p, subject, u) ensures u == ADMIN_USER_ID || u in a.order {}
  }

  // ------------------------------------------------------------ unique names

  function Name(a: Auth, env: Env, u: string): string
    requires u in a.accounts
  {
    env.casefold(a.accounts[u].username)
  }

  /** No two accounts have names that fold to the same, blank names aside. */
  ghost predicate NamesUnique(a: Auth, env: Env) {
    forall u, v :: u in a.accounts && v in a.accounts && u != v && Name(a, env, u) != "" ==>
      Name(a, env, u) != Name(a, env, v)
  }

  /** Every account of b has the name it has in a, but for one whose name is nobody else's in a. */
  ghost predicate NamedAfter(a: Auth, b: Auth, env: Env, renamed: string) {
    && (forall u :: u in b.accounts && u != renamed ==>
          u in a.accounts && b.accounts[u].username == a.accounts[u].username)
    && (renamed in b.accounts ==> !UsernameInUse(a, env, b.accounts[renamed].username, renamed))
  }

  lemma NamedAfterKeeps(a: Auth, b: Auth, env: Env, renamed: string)
    requires NamesUnique(a, env) && NamedAfter(a, b, env, renamed)
    ensures NamesUnique(b, env)
  {
    forall u, v | u in b.accounts && v in b.accounts && u != v && Name(b, env, u) != ""
      ensures Name(b, env, u) != Name(b, env, v)
    {
      assert u != renamed ==> Name(b, env, u) == Name(a, env, u);
      assert v != renamed ==> Name(b, env, v) == Name(a, env, v);
    }
  }

  lemma SameNames(a: Auth, b: Auth, env: Env)
    requires NamesUnique(a, env)
    requires forall u :: u in b.accounts ==> u in a.accounts && b.accounts[u].username == a.accounts[u].username
    ensures NamesUnique(b, env)
  {
    forall u | u in b.accounts ensures Name(b, env, u) == Name(a, env, u) {}
  }

  lemma CommitNames(a: Auth, env: Env, now: int, p: Pending, hash: string)
    requires WellFormed(a) && NamesUnique(a, env)
    ensures var o := CommitOf(a, env, now, p, hash); o.Done? ==> NamesUnique(o.auth, env)
  {
    var o := CommitOf(a, env, now, p, hash);
    if o.Done? {
      CommitSignsIn(a, env, now, p, hash);
      hide CommitOf;
      forall u | u in o.auth.accounts
        ensures u in a.accounts && o.auth.accounts[u].username == a.accounts[u].username
      {
        assert o.auth.accounts[u].(recovery := a.accounts[u].recovery) == a.accounts[u];
      }
      SameNames(a, o.auth, env);
    }
  }

  lemma CreateNames(a: Auth, env: Env, uid: string, name: string, enabled: bool, digest: string)
    requires WellFormed(a) && NamesUnique(a, env)
    ensures var o := CreateUser(a, env, uid, name, enabled, digest); o.Done? ==> NamesUnique(o.auth, env)
  {
    var o := CreateUser(a, env, uid, name, enabled, digest);
    if o.Done? {
      NamedAfterKeeps(a, o.auth, env, uid);
    }
  }

  lemma UpdateNames(a: Auth, env: Env, now: int, uid: string, patch: Patch)
    requires WellFormed(a) && NamesUnique(a, env)
    ensures var o := UpdateUser(a, env, now, uid, patch); o.Done? ==> NamesUnique(o.auth, env)
  {
    hide ClearUser;
    var o := UpdateUser(a, env, now, uid, patch);
    if o.Done? {
      if patch.username.Some? {
        NamedAfterKeeps(a, o.auth, env, uid);
      } else {
        SameNames(a, o.auth, env);
      }
    }
  }

  lemma OtherNames(a: Auth, env: Env, now: int, step: Step)
    requires WellFormed(a) && NamesUnique(a, env)
    ensures match step
            case Delete(uid) => NamesUnique(DeleteUser(a, now, uid).auth, env)
            case Credentials(name, digest, hash) =>
              var o := SetCredentials(a, env, now, name, digest, hash); o.Done? ==> NamesUnique(o.auth, env)
            case Totp2(uid, totp, token) =>
              var o := SetTotp(a, now, uid, totp, token); o.Done? ==> NamesUnique(o.auth, env)
            case LinkId(token, p, subject, requested) =>
              var o := Link(a, now, token, p, subject, requested); o.Done? ==> NamesUnique(o.auth, env)
            case UnlinkId(token, p, requested) =>
              var o := Unlink(a, now, token, p, requested); o.Done? ==> NamesUnique(o.auth, env)
            case _ => true
  {
    hide Issue, ClearUser, ClearUserExcept, CurrentUser, TargetForLink, IdentityInUse, NamesUnique;
    match step {
      case Delete(uid) => SameNames(a, DeleteUser(a, now, uid).auth, env);
      case Credentials(name, digest, hash) =>
        var o := SetCredentials(a, env, now, name, digest, hash);
        if o.Done? { NamedAfterKeeps(a, o.auth, env, ADMIN_USER_ID); }
      case Totp2(uid, totp, token) =>
        var o := SetTotp(a, now, uid, totp, token);
        if o.Done? { SameNames(a, o.auth, env); }
      case LinkId(token, p, subject, requested) =>
        var o := Link(a, now, token, p, subject, requested);
        if o.Done? { SameNames(a, o.auth, env); }
      case UnlinkId(token, p, requested) =>
        var o := Unlink(a, now, token, p, requested);
        if o.Done? { SameNames(a, o.auth, env); }
      case _ =>
    }
  }

  lemma StepNames(s: State, env: Env, now: int, step: Step)
    requires WellFormed(s.auth) && NamesUnique(s.auth, env)
    ensures NamesUnique(Next(s, env, now, step).auth, env)
  {
    hide CommitOf, UpdateUser, CreateUser, DeleteUser, SetCredentials, SetTotp, Link, Unlink, NamesUnique;
    hide CheckLogin, CheckSsoOn, CheckOidc2faOn, Drop, ClearAll, ClearOthers;
    if step.Commit? {
      if step.client in s.pending {
        CommitNames(s.auth, env, now, s.pending[step.client], step.hash);
      }
    } else if step.Create? {
      CreateNames(s.auth, env, step.uid, step.name, step.enabled, step.digest);
    } else if step.Update? {
      UpdateNames(s.auth, env, now, step.uid, step.patch);
    } else if IsAdminStep(step) || step.LinkId? || step.UnlinkId? {
      OtherNames(s.auth, env, now, step);
    } else {
      QuietFramed(s, env, now, step);
      SameNames(s.auth, Next(s, env, now, step).auth, env);
    }
  }

  /** Names stay unique, but for case, in every run. */
  lemma {:induction false} RunNames(states: seq<State>, env: Env, trace: seq<(int, Step)>, i: nat)
    requires IsRun(states, env, trace) && Inv(states[0]) && NamesUnique(states[0].auth, env) && i <= |trace|
    ensures NamesUnique(states[i].auth, env)
  {
    hide NamesUnique;
    if i > 0 {
      RunNames(states, env, trace, i - 1);
      RunKeeps(states, env, trace, i - 1);
      assert IsNext(states[i - 1], env, trace[i - 1].0, trace[i - 1].1, states[i]);
      StepNames(states[i - 1], env, trace[i - 1].0, trace[i - 1].1);
    }
  }

  /** So in every run a name and a password find an account exactly when they match it: the order of
      the accounts does not matter, and none hides another. */
  lemma LoginIsUnambiguous(
    states: seq<State>, env: Env, trace: seq<(int, Step)>, i: nat, name: string, password: string, u: string)
    requires IsRun(states, env, trace) && Inv(states[0]) && NamesUnique(states[0].auth, env) && i <= |trace|
    requires name != "" && env.casefold(name) != ""
    ensures ADMIN_USER_ID in states[i].auth.accounts
    ensures FindUserForLogin(states[i].auth, env, name, password) == Some(u)
       <==> LoginHit(states[i].auth, env, name, password, u)
  {
    RunNames(states, env, trace, i);
    RunKeeps(states, env, trace, i);
    var a := states[i].auth;
    FoundMatches(a, env, name, password);
    hide FindUserForLogin, WellFormed;
    var r := FindUserForLogin(a, env, name, password);
    if r.Some? && LoginHit(a, env, name, password, u) {
      assert Name(a, env, u) == Name(a, env, r.value);
    }
  }
}
