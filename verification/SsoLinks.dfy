/** SSO links stay injective over every run, so resolving an identity is unambiguous. */
module SsoLinks {
  import opened Sequences
  import opened Sessions
  import opened AccountFrames
  import opened AuthStore
  import opened LoginProtocol
  import opened LoginRuns
  import opened Samples

  /** No identity is linked to two accounts, disabled ones included. */
  ghost predicate Injective(a: Auth) {
    forall p, subject, u, v :: Linked(a, u, p, subject) && Linked(a, v, p, subject) ==> u == v
  }

  lemma LinkInjective(a: Auth, now: int, token: Option<string>, p: Provider, subject: string, requested: string)
    requires Injective(a) && Link(a, now, token, p, subject, requested).Done?
    ensures Injective(Link(a, now, token, p, subject, requested).auth)
  {
    var o := Link(a, now, token, p, subject, requested);
    forall q, i, u, v | Linked(o.auth, u, q, i) && Linked(o.auth, v, q, i)
      ensures u == v
    {
      assert Linked(a, u, q, i) || (u == o.uid && q == p && i == subject);
      assert Linked(a, v, q, i) || (v == o.uid && q == p && i == subject);
    }
  }

  /** Every link of b was a link of a. */
  ghost predicate NoNewLinks(a: Auth, b: Auth) {
    forall u, p, subject :: Linked(b, u, p, subject) ==> Linked(a, u, p, subject)
  }

  lemma CommitLinks(a: Auth, env: Env, now: int, p: Pending, hash: string)
    requires WellFormed(a)
    ensures var o := CommitOf(a, env, now, p, hash);
            o.Done? ==>
              && o.auth.accounts.Keys == a.accounts.Keys
              && forall u :: u in a.accounts ==>
                   o.auth.accounts[u].links == a.accounts[u].links
                   && o.auth.accounts[u].enabled == a.accounts[u].enabled
  {
    CommitSignsIn(a, env, now, p, hash);
    var b := CommitOf(a, env, now, p, hash);
    if b.Done? {
      forall u | u in a.accounts
        ensures b.auth.accounts[u].links == a.accounts[u].links && b.auth.accounts[u].enabled == a.accounts[u].enabled
      {
        assert b.auth.accounts[u].(recovery := a.accounts[u].recovery) == a.accounts[u];
      }
    }
  }

  lemma UnlinkLinks(a: Auth, now: int, token: Option<string>, p: Provider, requested: string)
    ensures var o := Unlink(a, now, token, p, requested); o.Done? ==> NoNewLinks(a, o.auth)
  {
  }

  lemma StepLinks(s: State, env: Env, now: int, step: Step)
    requires WellFormed(s.auth) && !step.LinkId?
    ensures NoNewLinks(s.auth, Next(s, env, now, step).auth)
  {
    if step.Commit? {
      if step.client in s.pending {
        CommitLinks(s.auth, env, now, s.pending[step.client], step.hash);
      }
    } else if step.UnlinkId? {
      UnlinkLinks(s.auth, now, step.token, step.provider, step.requested);
    } else {
      StepFramed(s, env, now, step);
    }
  }

  lemma StepInjective(s: State, env: Env, now: int, step: Step)
    requires WellFormed(s.auth) && Injective(s.auth)
    ensures Injective(Next(s, env, now, step).auth)
  {
    if step.LinkId? {
      if Link(s.auth, now, step.token, step.provider, step.subject, step.requested).Done? {
        LinkInjective(s.auth, now, step.token, step.provider, step.subject, step.requested);
      }
    } else {
      StepLinks(s, env, now, step);
    }
  }

  lemma {:induction false} RunInjective(states: seq<State>, env: Env, trace: seq<(int, Step)>, i: nat)
    requires IsRun(states, env, trace) && Inv(states[0]) && Injective(states[0].auth) && i <= |trace|
    ensures Injective(states[i].auth)
  {
    if i > 0 {
      RunInjective(states, env, trace, i - 1);
      RunKeeps(states, env, trace, i - 1);
      assert IsNext(states[i - 1], env, trace[i - 1].0, trace[i - 1].1, states[i]);
      StepInjective(states[i - 1], env, trace[i - 1].0, trace[i - 1].1);
    }
  }

  /** With injective links an identity resolves to an account exactly when that account is enabled and carries it. */
  lemma ResolveIsLink(a: Auth, p: Provider, subject: string, u: string)
    requires WellFormed(a) && Injective(a)
    ensures Resolve(a, p, subject) == Some(u) <==> SsoHit(a, p, subject, u)
  {
    ResolveEnabled(a, p, subject);
    if SsoHit(a, p, subject, u) {
      assert u == ADMIN_USER_ID || u in a.order;
    }
  }

  /** The steps that end a link's effect: unlinking or relinking that account, disabling it, deleting it. */
  predicate Ends(s: State, env: Env, now: int, step: Step, u: string, p: Provider, subject: string) {
    match step
    case UnlinkId(token, q, requested) => q == p && Unlink(s.auth, now, token, q, requested).Done?
                                          && Unlink(s.auth, now, token, q, requested).uid == u
    case LinkId(token, q, other, requested) => q == p && other != subject
                                               && Link(s.auth, now, token, q, other, requested).Done?
                                               && Link(s.auth, now, token, q, other, requested).uid == u
    case Update(uid, patch) => uid == u && patch.enabled == Some(false)
                               && UpdateUser(s.auth, env, now, uid, patch).Done?
    case Delete(uid) => uid == u && u != ADMIN_USER_ID
    case _ => false
  }

  lemma LinkTakesHold(a: Auth, now: int, token: Option<string>, p: Provider, subject: string, requested: string)
    requires WellFormed(a) && subject != ""
    ensures var o := Link(a, now, token, p, subject, requested);
            o.Done? ==> SsoHit(o.auth, p, subject, o.uid)
  {
  }

  lemma LinkingKeeps(a: Auth, now: int, token: Option<string>, q: Provider, other: Option<string>, requested: string,
                     u: string, p: Provider, subject: string)
    requires SsoHit(a, p, subject, u)
    ensures var o := if other.Some? then Link(a, now, token, q, other.value, requested)
                     else Unlink(a, now, token, q, requested);
            o.Done? ==> (SsoHit(o.auth, p, subject, u) <==> !(o.uid == u && q == p && other != Some(subject)))
  {
  }

  lemma CommitKeepsLink(s: State, env: Env, now: int, step: Step, u: string, p: Provider, subject: string)
    requires WellFormed(s.auth) && SsoHit(s.auth, p, subject, u) && step.Commit?
    ensures SsoHit(Next(s, env, now, step).auth, p, subject, u)
  {
    hide CommitOf;
    if step.client in s.pending {
      CommitLinks(s.auth, env, now, s.pending[step.client], step.hash);
    }
  }

  lemma DeleteKeepsLink(s: State, env: Env, now: int, uid: string, u: string, p: Provider, subject: string)
    requires WellFormed(s.auth) && SsoHit(s.auth, p, subject, u)
    ensures SsoHit(Next(s, env, now, Delete(uid)).auth, p, subject, u) <==> uid != u || u == ADMIN_USER_ID
  {
    hide ClearUser;
  }

  lemma UpdateKeepsLink(
    s: State, env: Env, now: int, uid: string, patch: Patch, u: string, p: Provider, subject: string)
    requires WellFormed(s.auth) && SsoHit(s.auth, p, subject, u)
    ensures SsoHit(Next(s, env, now, Update(uid, patch)).auth, p, subject, u)
       <==> !Ends(s, env, now, Update(uid, patch), u, p, subject)
  {
    StepFramed(s, env, now, Update(uid, patch));
    UpdateNext(s, env, now, uid, patch);
    hide UpdateUser, Next;
    if UpdateUser(s.auth, env, now, uid, patch).Done? {
      UpdateFramed(s.auth, env, now, uid, patch);
    }
  }

  lemma LinkingKeepsLink(s: State, env: Env, now: int, step: Step, u: string, p: Provider, subject: string)
    requires ADMIN_USER_ID in s.auth.accounts && SsoHit(s.auth, p, subject, u) && (step.LinkId? || step.UnlinkId?)
    ensures SsoHit(Next(s, env, now, step).auth, p, subject, u) <==> !Ends(s, env, now, step, u, p, subject)
  {
    hide Link, Unlink;
    if step.LinkId? {
      LinkingKeeps(s.auth, now, step.token, step.provider, Some(step.subject), step.requested, u, p, subject);
    } else {
      LinkingKeeps(s.auth, now, step.token, step.provider, None, step.requested, u, p, subject);
    }
  }

  /** Each step keeps the link in effect exactly when it is not one of those that end it. */
  lemma StepKeepsLink(s: State, env: Env, now: int, step: Step, u: string, p: Provider, subject: string)
    requires WellFormed(s.auth) && SsoHit(s.auth, p, subject, u)
    ensures SsoHit(Next(s, env, now, step).auth, p, subject, u) <==> !Ends(s, env, now, step, u, p, subject)
  {
    hide CommitOf, UpdateUser, DeleteUser, CreateUser, SetCredentials, SetTotp;
    hide CheckLogin, CheckSsoOn, CheckOidc2faOn, Drop, ClearAll, ClearOthers;
    match step {
      case Commit(client, hash) => CommitKeepsLink(s, env, now, step, u, p, subject);
      case LinkId(_, _, _, _) => LinkingKeepsLink(s, env, now, step, u, p, subject);
      case UnlinkId(_, _, _) => LinkingKeepsLink(s, env, now, step, u, p, subject);
      case Update(uid, patch) => UpdateKeepsLink(s, env, now, uid, patch, u, p, subject);
      case Delete(uid) => DeleteKeepsLink(s, env, now, uid, u, p, subject);
      case _ =>
        StepFramed(s, env, now, step);
    }
  }

  /** Once linked, an identity signs in to its account until a step ends the link, and no other step does. */
  lemma {:induction false} LinkHolds(
    states: seq<State>, env: Env, trace: seq<(int, Step)>, u: string, p: Provider, subject: string, i: nat)
    requires IsRun(states, env, trace) && Inv(states[0]) && Injective(states[0].auth) && i <= |trace|
    requires SsoHit(states[0].auth, p, subject, u)
    requires forall k :: 0 <= k < i ==> !Ends(states[k], env, trace[k].0, trace[k].1, u, p, subject)
    ensures Resolve(states[i].auth, p, subject) == Some(u)
  {
    RunKeeps(states, env, trace, i);
    RunInjective(states, env, trace, i);
    if i > 0 {
      LinkHolds(states, env, trace, u, p, subject, i - 1);
      RunKeeps(states, env, trace, i - 1);
      RunInjective(states, env, trace, i - 1);
      ResolveIsLink(states[i - 1].auth, p, subject, u);
      assert IsNext(states[i - 1], env, trace[i - 1].0, trace[i - 1].1, states[i]);
      StepKeepsLink(states[i - 1], env, trace[i - 1].0, trace[i - 1].1, u, p, subject);
    }
    ResolveIsLink(states[i].auth, p, subject, u);
  }

  /** Linking another identity to the account leaves the first one without any. */
  lemma RelinkEnds(a: Auth, now: int, token: Option<string>, p: Provider, subject: string, other: string,
                   requested: string)
    requires WellFormed(a) && Injective(a) && other != subject
    requires var o := Link(a, now, token, p, other, requested); o.Done? && SsoHit(a, p, subject, o.uid)
    ensures Resolve(Link(a, now, token, p, other, requested).auth, p, subject) == None
  {
    hide CurrentUser, TargetForLink, IdentityInUse;
    var o := Link(a, now, token, p, other, requested);
    forall v ensures !Linked(o.auth, v, p, subject) {
      assert Linked(o.auth, v, p, subject) ==> Linked(a, v, p, subject);
    }
    ResolveEnabled(o.auth, p, subject);
  }

  /** An administrator, signed in, linked to the identity "old". */
  function LinkedAdmin(): Auth {
    var admin := Account("root", true, "pw", OFF, [], map[Plex := "old"]);
    Auth(ADMIN_STORE, map[ADMIN_USER_ID := admin], [])
  }

  /** It happens: the administrator links "new", and "old" signs in to nothing any more. */
  lemma RelinkHappens()
    ensures var a := LinkedAdmin();
            var o := Link(a, 2, Some(HEX), Plex, "new", "");
            && WellFormed(a) && Resolve(a, Plex, "old") == Some(ADMIN_USER_ID)
            && o.Done? && Resolve(o.auth, Plex, "new") == Some(ADMIN_USER_ID) && Resolve(o.auth, Plex, "old") == None
  {
    AdminToken(LinkedAdmin(), 2);
    hide CurrentUser;
    var a := LinkedAdmin();
    var o := Link(a, 2, Some(HEX), Plex, "new", "");
    assert o.Done?;
    RelinkEnds(a, 2, Some(HEX), Plex, "old", "new", "");
  }
}
