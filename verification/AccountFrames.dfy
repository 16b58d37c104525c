/**
 * What a step of the login protocol leaves of the accounts: their recovery
 * codes, links and whether they are enabled.
 */
module AccountFrames {
  import opened Sequences
  import opened Sessions
  import opened AuthStore
  import opened LoginProtocol

  lemma AdminFramed(a: Auth, env: Env, now: int, step: Step)
    requires WellFormed(a)
    ensures match step
            case Create(uid, name, enabled, digest) =>
              var o := CreateUser(a, env, uid, name, enabled, digest); o.Done? ==> Framed(a, o.auth, "", "")
            case Delete(uid) =>
              var b := DeleteUser(a, now, uid).auth;
              Framed(a, b, if uid in a.order then uid else "", "") && (uid in b.accounts <==> uid == ADMIN_USER_ID)
            case Credentials(name, digest, hash) =>
              var o := SetCredentials(a, env, now, name, digest, hash); o.Done? ==> Framed(a, o.auth, "", "")
            case Totp2(uid, totp, token) =>
              var o := SetTotp(a, now, uid, totp, token); o.Done? ==> Framed(a, o.auth, "", "")
            case _ => true
  {
    hide Issue, ClearUser, ClearUserExcept;
  }

  predicate IsAdminStep(step: Step) {
    step.Create? || step.Delete? || step.Credentials? || step.Totp2? || step.Update?
  }

  /** Steps that are neither a commit nor a change of links, except deletions and updates, leave the accounts' shape. */
  lemma QuietFramed(s: State, env: Env, now: int, step: Step)
    requires WellFormed(s.auth)
    requires !IsAdminStep(step) && !step.Commit? && !step.LinkId? && !step.UnlinkId?
    ensures Next(s, env, now, step).auth.accounts == s.auth.accounts
  {
  }

  lemma UpdateNext(s: State, env: Env, now: int, uid: string, patch: Patch)
    requires ADMIN_USER_ID in s.auth.accounts
    ensures var o := UpdateUser(s.auth, env, now, uid, patch);
            Next(s, env, now, Update(uid, patch)).auth == if o.Done? then o.auth else s.auth
  {
    hide UpdateUser;
  }

  lemma FramedWider(a: Auth, b: Auth, uid: string)
    requires Framed(a, b, "", "") && "" !in a.accounts
    ensures Framed(a, b, "", uid)
  {
  }

  lemma UpdateStepFramed(s: State, env: Env, now: int, uid: string, patch: Patch)
    requires WellFormed(s.auth)
    ensures Framed(s.auth, Next(s, env, now, Update(uid, patch)).auth, "", uid)
  {
    assert ADMIN_USER_ID in s.auth.accounts && "" !in s.auth.accounts;
    UpdateNext(s, env, now, uid, patch);
    hide UpdateUser, Next, Framed, WellFormed;
    var o := UpdateUser(s.auth, env, now, uid, patch);
    if o.Done? {
      UpdateFramed(s.auth, env, now, uid, patch);
      if patch.enabled.None? { FramedWider(s.auth, o.auth, uid); }
    } else {
      SameFramed(s.auth, s.auth);
      FramedWider(s.auth, s.auth, uid);
    }
  }

  lemma AdminStepFramed(s: State, env: Env, now: int, step: Step)
    requires WellFormed(s.auth) && IsAdminStep(step) && !step.Update?
    ensures Framed(s.auth, Next(s, env, now, step).auth,
                   if step.Delete? && step.uid in s.auth.order then step.uid else "", "")
  {
    hide CreateUser, SetCredentials, SetTotp;
    AdminFramed(s.auth, env, now, step);
  }

  lemma SameFramed(a: Auth, b: Auth)
    requires b.accounts == a.accounts
    ensures Framed(a, b, "", "")
  {
  }

  lemma StepFramed(s: State, env: Env, now: int, step: Step)
    requires WellFormed(s.auth) && !step.Commit? && !step.LinkId? && !step.UnlinkId?
    ensures Framed(s.auth, Next(s, env, now, step).auth,
                   if step.Delete? && step.uid in s.auth.order then step.uid else "",
                   if step.Update? then step.uid else "")
  {
    hide Next, Framed;
    if step.Update? {
      UpdateStepFramed(s, env, now, step.uid, step.patch);
    } else if IsAdminStep(step) {
      AdminStepFramed(s, env, now, step);
    } else {
      QuietFramed(s, env, now, step);
      SameFramed(s.auth, Next(s, env, now, step).auth);
    }
  }
}
