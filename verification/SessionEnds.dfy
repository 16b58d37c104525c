/**
 * How sessions end: a logout, a two-factor change and the clearing operations
 * end exactly the sessions they name, and a token that is dead stays dead.
 */
module SessionEnds {
  import opened Sequences
  import opened Sessions
  import opened AuthStore
  import opened LoginProtocol
  import opened LoginRuns

  function Carries(hash: string): Session -> bool {
    (s: Session) => s.tokenHash == hash
  }

  /** No session of the list carries the token. */
  predicate Dead(l: seq<Session>, hash: string) {
    !HasHash(l, hash)
  }

  lemma DeadOpensNothing(a: Auth, hash: string)
    requires MirrorOk(a.store) && Dead(a.store.sessions, hash)
    ensures forall now :: Find(a.store, now, Some(hash)) == None && CurrentUser(a, now, Some(hash)) == None
  {
    MirrorHidesSlot(a.store);
    forall now ensures Find(a.store, now, Some(hash)) == None {
      FilterNone(Opens(now, hash), a.store.sessions);
    }
  }

  // ------------------------------------------------------------ one operation

  /** Taking some sessions out of a list leaves the others' shares as they were. */
  lemma SharesLeft(p: Session -> bool, q: Session -> bool, l: seq<Session>)
    requires forall x :: x in l && q(x) ==> p(x)
    ensures Filter(q, Filter(p, l)) == Filter(q, l)
  {
    FilterMember(q, l);
    FilterSwap(q, p, l);
    FilterAll(p, Filter(q, l));
  }

  lemma DropShares(l: seq<Session>, hash: string)
    ensures forall other :: other != hash ==>
              Filter(Carries(other), Filter(NotHash(hash), l)) == Filter(Carries(other), l)
    ensures forall v :: (forall x :: x in l && OwnerId(x) == v ==> x.tokenHash != hash) ==>
              Filter(IsOwner(v), Filter(NotHash(hash), l)) == Filter(IsOwner(v), l)
  {
    forall other | other != hash
      ensures Filter(Carries(other), Filter(NotHash(hash), l)) == Filter(Carries(other), l)
    {
      SharesLeft(NotHash(hash), Carries(other), l);
    }
    forall v | forall x :: x in l && OwnerId(x) == v ==> x.tokenHash != hash
      ensures Filter(IsOwner(v), Filter(NotHash(hash), l)) == Filter(IsOwner(v), l)
    {
      SharesLeft(NotHash(hash), IsOwner(v), l);
    }
  }

  lemma DropMembers(st: Store, now: int, hash: string)
    requires MirrorOk(st)
    ensures var l, pruned := Drop(st, now, Some(hash)).sessions, Prune(st.sessions, now);
            && l == Filter(NotHash(hash), pruned) && Dead(l, hash)
            && (forall x :: x in l <==> x in pruned && x.tokenHash != hash)
  {
    MirrorHidesSlot(st);
    hide Prune, Iter;
    var left := Filter(NotHash(hash), Prune(st.sessions, now));
    FilterMember(NotHash(hash), Prune(st.sessions, now));
    forall i | 0 <= i < |left| ensures left[i].tokenHash != hash {
      assert left[i] in left;
    }
  }

  /** After a logout the token opens nothing at any time, every session with another token that a pruning
      keeps is there, for each token and each account as the pruning leaves it, and nothing else is. */
  lemma DropEnds(st: Store, now: int, hash: string)
    requires MirrorOk(st)
    ensures var l, pruned := Drop(st, now, Some(hash)).sessions, Prune(st.sessions, now);
            && Dead(l, hash)
            && (forall x :: x in l <==> x in pruned && x.tokenHash != hash)
            && (forall other :: other != hash ==> Filter(Carries(other), l) == Filter(Carries(other), pruned))
            && (forall v :: (forall x :: x in pruned && OwnerId(x) == v ==> x.tokenHash != hash) ==>
                  Filter(IsOwner(v), l) == Filter(IsOwner(v), pruned))
    ensures forall t :: Find(Drop(st, now, Some(hash)), t, Some(hash)) == None
  {
    DropMembers(st, now, hash);
    MirrorStep(st, now, DropOp(Some(hash)));
    MirrorHidesSlot(Drop(st, now, Some(hash)));
    hide Prune, Iter, Drop;
    DropShares(Prune(st.sessions, now), hash);
    forall t ensures Find(Drop(st, now, Some(hash)), t, Some(hash)) == None {
      FilterNone(Opens(t, hash), Drop(st, now, Some(hash)).sessions);
    }
  }

  /** Clearing an account but for one token ends its other sessions and those alone; a blank id clears nothing. */
  lemma ClearExceptEnds(st: Store, now: int, uid: string, token: Option<string>)
    requires MirrorOk(st)
    ensures uid == "" ==> ClearUserExcept(st, now, uid, token) == st
    ensures uid != "" ==>
              forall x :: x in ClearUserExcept(st, now, uid, token).sessions
                     <==> x in Prune(st.sessions, now) && (OwnerId(x) == uid ==> token == Some(x.tokenHash))
  {
    MirrorHidesSlot(st);
    PruneSubset(st.sessions, now);
    hide Prune, Iter;
    FilterMember(NotOfExcept(uid, token), Prune(st.sessions, now));
  }

  /** Clearing an account ends its sessions and those alone, but for the administrator's that carry no user id. */
  lemma ClearUserEnds(st: Store, now: int, uid: string)
    requires MirrorOk(st)
    ensures uid == "" ==> ClearUser(st, now, uid) == st
    ensures uid != "" ==>
              forall x :: x in ClearUser(st, now, uid).sessions
                     <==> x in Prune(st.sessions, now)
                          && (OwnerId(x) != uid || (uid == ADMIN_USER_ID && x.owner == Unset))
  {
    MirrorHidesSlot(st);
    PruneSubset(st.sessions, now);
    hide Prune, Iter;
    FilterMember(NotOf(uid), Prune(st.sessions, now));
  }

  /** Clearing all sessions but the caller's leaves the caller's alone, which opens what it opened, and none
      when the caller's token opens nothing. */
  lemma ClearOthersEnds(st: Store, now: int, token: Option<string>)
    requires MirrorOk(st)
    ensures var l, mine := ClearOthers(st, now, token).sessions, Find(st, now, token);
            && (mine.None? ==> l == [])
            && (mine.Some? ==> l == [mine.value] && Find(ClearOthers(st, now, token), now, token) == mine)
  {
    var mine := Find(st, now, token);
    if mine.Some? {
      MirrorHidesSlot(st);
      var hits := Filter(Opens(now, token.value), st.sessions);
      FilterMember(Opens(now, token.value), st.sessions);
      assert hits[0] in hits;
      MirrorStep(st, now, ClearOthersOp(token));
      MirrorHidesSlot(ClearOthers(st, now, token));
      FilterAll(Opens(now, token.value), [mine.value]);
    }
  }

  /** Only issuing a session dates the last login, and none of the operations changes the stored lifetime. */
  lemma OtherFields(st: Store, now: int, op: Op)
    ensures Apply(st, now, op).rememberDays == st.rememberDays
    ensures Apply(st, now, op).lastLoginAt == if op.IssueOp? then now else st.lastLoginAt
  {
  }

  // ------------------------------------------------------------ one step

  /** The sessions of t are those of s, or carry a token that was fresh. */
  ghost predicate NoneRevived(s: State, t: State) {
    && (forall x :: x in t.auth.store.sessions ==> x in s.auth.store.sessions || x.tokenHash !in s.issued)
    && s.issued.Keys <= t.issued.Keys
  }

  lemma CommitRevives(s: State, env: Env, now: int, client: nat, hash: string)
    requires Inv(s) && hash !in s.issued
    ensures NoneRevived(s, Next(s, env, now, Commit(client, hash)))
  {
    hide CommitOf;
    if client in s.pending {
      var p := s.pending[client];
      CommitSignsIn(s.auth, env, now, p, hash);
      var o := CommitOf(s.auth, env, now, p, hash);
      if o.Done? {
        SignedInStore(s.auth, o.auth, now, o.uid, hash);
      }
    }
  }

  lemma AdminRevives(s: State, env: Env, now: int, step: Step)
    requires Inv(s) && FreshToken(s, step) && (step.Update? || step.Delete? || step.Totp2? || step.Credentials?)
    ensures NoneRevived(s, Next(s, env, now, step))
  {
    match step {
      case Update(uid, patch) =>
        if UpdateUser(s.auth, env, now, uid, patch).Done? {
          UpdateFacts(s.auth, env, now, uid, patch);
        }
        hide UpdateUser;
      case Delete(uid) =>
        if uid in s.auth.order {
          DeleteFacts(s.auth, now, uid);
        }
      case Totp2(uid, totp, token) =>
        if SetTotp(s.auth, now, uid, totp, token).Done? {
          TotpFacts(s.auth, now, uid, totp, token);
        }
        hide SetTotp;
      case Credentials(name, digest, hash) =>
        if SetCredentials(s.auth, env, now, name, digest, hash).Done? {
          CredentialsFacts(s.auth, env, now, name, digest, hash);
        }
        hide SetCredentials;
    }
  }

  lemma LogoutRevives(s: State, env: Env, now: int, step: Step)
    requires Inv(s) && (step.Logout? || step.LogoutAll? || step.LogoutOthers?)
    ensures NoneRevived(s, Next(s, env, now, step))
  {
    match step {
      case Logout(token) => ApplyFrom(s.auth.store, now, DropOp(token));
      case LogoutAll =>
      case LogoutOthers(token) => ApplyFrom(s.auth.store, now, ClearOthersOp(token));
    }
  }

  lemma StepRevives(s: State, env: Env, now: int, step: Step)
    requires Inv(s) && FreshToken(s, step)
    ensures NoneRevived(s, Next(s, env, now, step))
  {
    if step.Commit? {
      CommitRevives(s, env, now, step.client, step.hash);
    } else if step.Update? || step.Delete? || step.Totp2? || step.Credentials? {
      AdminRevives(s, env, now, step);
    } else if step.Logout? || step.LogoutAll? || step.LogoutOthers? {
      LogoutRevives(s, env, now, step);
    } else {
      hide CreateUser, CheckLogin, CheckSsoOn, CheckOidc2faOn, Inv, CurrentUser, TargetForLink, IdentityInUse;
    }
  }

  // ------------------------------------------------------------ whole runs

  /** A token that was issued and has no session any more opens nothing in any later state. */
  lemma {:induction false} DeadStaysDead(
    states: seq<State>, env: Env, trace: seq<(int, Step)>, i: nat, k: nat, hash: string)
    requires IsRun(states, env, trace) && Inv(states[0]) && i <= k <= |trace|
    requires hash in states[i].issued && Dead(states[i].auth.store.sessions, hash)
    ensures hash in states[k].issued && Dead(states[k].auth.store.sessions, hash)
    ensures forall now :: CurrentUser(states[k].auth, now, Some(hash)) == None
  {
    hide CurrentUser, Next;
    RunKeeps(states, env, trace, k);
    if i < k {
      DeadStaysDead(states, env, trace, i, k - 1, hash);
      RunKeeps(states, env, trace, k - 1);
      assert IsNext(states[k - 1], env, trace[k - 1].0, trace[k - 1].1, states[k]);
      StepRevives(states[k - 1], env, trace[k - 1].0, trace[k - 1].1);
    }
    DeadOpensNothing(states[k].auth, hash);
  }

  /** The step ends the session x: a logout with its token, of all or of all others, a two-factor change of its
      account from another session, or its account disabled, given another password or deleted. */
  predicate EndsSession(s: State, env: Env, now: int, step: Step, x: Session)
    requires ADMIN_USER_ID in s.auth.accounts
  {
    match step
    case Logout(token) => token == Some(x.tokenHash)
    case LogoutAll => true
    case LogoutOthers(token) => Find(s.auth.store, now, token).None? || token != Some(x.tokenHash)
    case Totp2(uid, totp, token) =>
      uid == OwnerId(x) && token != Some(x.tokenHash) && SetTotp(s.auth, now, uid, totp, token).Done?
    case Update(uid, patch) =>
      uid == OwnerId(x) && (patch.password.Some? || patch.enabled == Some(false))
      && UpdateUser(s.auth, env, now, uid, patch).Done?
    case Delete(uid) => uid == OwnerId(x) && uid in s.auth.order
    case Credentials(name, digest, hash) =>
      SetCredentials(s.auth, env, now, name, digest, hash).Done?
    case _ => false
  }

  lemma LogoutDead(s: State, env: Env, now: int, step: Step, x: Session)
    requires Inv(s) && x in s.auth.store.sessions && EndsSession(s, env, now, step, x)
    requires step.Logout? || step.LogoutAll? || step.LogoutOthers?
    ensures Dead(Next(s, env, now, step).auth.store.sessions, x.tokenHash)
  {
    match step {
      case Logout(token) => DropMembers(s.auth.store, now, x.tokenHash);
      case LogoutAll =>
      case LogoutOthers(token) =>
        ClearOthersEnds(s.auth.store, now, token);
        FindFrom(s.auth.store, now, token);
        hide ClearOthers, Find;
    }
  }

  /** Sessions with one token belong to one account. */
  lemma SameOwner(s: State, x: Session, y: Session)
    requires Inv(s) && x in s.auth.store.sessions && y in s.auth.store.sessions && x.tokenHash == y.tokenHash
    ensures OwnerId(x) == OwnerId(y)
  {
    assert SessionOk(s, x) && SessionOk(s, y);
  }

  lemma AdminDead(s: State, env: Env, now: int, step: Step, x: Session)
    requires Inv(s) && x in s.auth.store.sessions && EndsSession(s, env, now, step, x) && FreshToken(s, step)
    requires step.Totp2? || step.Update? || step.Delete? || step.Credentials?
    ensures Dead(Next(s, env, now, step).auth.store.sessions, x.tokenHash)
  {
    var t := Next(s, env, now, step);
    assert SessionOk(s, x);
    forall y | y in t.auth.store.sessions ensures y.tokenHash != x.tokenHash {
      match step {
        case Totp2(uid, totp, token) =>
          PruneSubset(s.auth.store.sessions, now);
          ClearExceptEnds(s.auth.store, now, uid, token);
        case Update(uid, patch) => UpdateFacts(s.auth, env, now, uid, patch);
        case Delete(uid) => DeleteFacts(s.auth, now, uid);
        case Credentials(name, digest, hash) => CredentialsFacts(s.auth, env, now, name, digest, hash);
      }
      if y.tokenHash == x.tokenHash && !step.Credentials? {
        SameOwner(s, x, y);
      }
    }
  }

  /** A session that a step ends is gone for good: its token opens nothing in any later state. */
  lemma EndedForGood(states: seq<State>, env: Env, trace: seq<(int, Step)>, i: nat, k: nat, x: Session, now: int)
    requires IsRun(states, env, trace) && Inv(states[0]) && i < k <= |trace|
    requires ADMIN_USER_ID in states[i].auth.accounts && x in states[i].auth.store.sessions
    requires EndsSession(states[i], env, trace[i].0, trace[i].1, x)
    ensures CurrentUser(states[k].auth, now, Some(x.tokenHash)) == None
  {
    hide CurrentUser, Next, EndsSession;
    RunKeeps(states, env, trace, i);
    assert IsNext(states[i], env, trace[i].0, trace[i].1, states[i + 1]);
    assert SessionOk(states[i], x);
    StepRevives(states[i], env, trace[i].0, trace[i].1);
    StepDead(states[i], env, trace[i].0, trace[i].1, x);
    DeadStaysDead(states, env, trace, i + 1, k, x.tokenHash);
  }

  lemma StepDead(s: State, env: Env, now: int, step: Step, x: Session)
    requires Inv(s) && x in s.auth.store.sessions && EndsSession(s, env, now, step, x) && FreshToken(s, step)
    ensures Dead(Next(s, env, now, step).auth.store.sessions, x.tokenHash)
  {
    hide Inv;
    if step.Logout? || step.LogoutAll? || step.LogoutOthers? {
      LogoutDead(s, env, now, step, x);
    } else {
      AdminDead(s, env, now, step, x);
    }
  }

  // ------------------------------------------------------------ the sessions a step does not end

  /** A list that holds no more of an account than a pruning leaves keeps it through another pruning. */
  lemma PrunedStays(l: seq<Session>, more: seq<Session>, now: int, x: Session)
    requires x in Prune(l, now)
    requires Filter(IsOwner(OwnerId(x)), more) == Filter(IsOwner(OwnerId(x)), Prune(l, now))
    ensures x in Prune(more, now)
  {
    var v := OwnerId(x);
    var mine := Filter(IsOwner(v), Prune(l, now));
    PruneCaps(l, now, v);
    PruneSubset(l, now);
    hide Prune;
    FilterMember(IsOwner(v), Prune(l, now));
    FilterSwap(IsOwner(v), IsLive(now), more);
    FilterAll(IsLive(now), mine);
    PruneKeepsLive(more, now, v);
    FilterMember(IsOwner(v), Prune(more, now));
    assert x in multiset(mine);
  }

  /** A change of accounts spares the sessions it does not end. */
  lemma UpdateSpares(s: State, env: Env, now: int, uid: string, patch: Patch, x: Session)
    requires Inv(s) && x in Prune(s.auth.store.sessions, now) && OwnerId(x) != uid
    requires UpdateUser(s.auth, env, now, uid, patch).Done?
    ensures x in UpdateUser(s.auth, env, now, uid, patch).auth.store.sessions
         || UpdateUser(s.auth, env, now, uid, patch).auth.store == s.auth.store
  {
    var a := Renamed(s.auth, uid, patch.username);
    var b := Switched(a, now, uid, patch.enabled);
    var st, l := s.auth.store, s.auth.store.sessions;
    MirrorHidesSlot(st);
    PruneSubset(l, now);
    assert OwnerId(x) != "" && uid != "" && uid != ADMIN_USER_ID;
    if patch.enabled == Some(false) {
      SwitchedFacts(a, now, uid, patch.enabled);
      ClearUserEnds(st, now, uid);
      MirrorHidesSlot(b.store);
      ClearSparesOthers(st, now, uid, None, OwnerId(x));
      hide Prune, ClearUser, Iter, Inv;
      assert b.store == ClearUser(st, now, uid);
      PrunedStays(l, b.store.sessions, now, x);
    }
    hide Prune, ClearUser, Iter, Inv, WellFormed;
    ClearUserSpares(b.store, now, uid, x);
  }

  lemma ClearUserSpares(st: Store, now: int, uid: string, x: Session)
    requires MirrorOk(st) && uid != "" && uid != ADMIN_USER_ID && OwnerId(x) != uid && x in Prune(st.sessions, now)
    ensures x in ClearUser(st, now, uid).sessions
  {
    ClearUserEnds(st, now, uid);
  }

  lemma AdminSpares(s: State, env: Env, now: int, step: Step, x: Session)
    requires Inv(s) && x in s.auth.store.sessions && x in Prune(s.auth.store.sessions, now)
    requires !EndsSession(s, env, now, step, x)
    requires step.Totp2? || step.Update? || step.Delete? || step.Credentials?
    ensures x in Next(s, env, now, step).auth.store.sessions
  {
    var st := s.auth.store;
    match step {
      case Totp2(uid, totp, token) =>
        if SetTotp(s.auth, now, uid, totp, token).Done? {
          ClearExceptEnds(st, now, uid, token);
        }
        hide Prune, ClearUserExcept;
      case Update(uid, patch) =>
        if UpdateUser(s.auth, env, now, uid, patch).Done? && OwnerId(x) != uid {
          UpdateSpares(s, env, now, uid, patch, x);
        }
        hide Prune, ClearUser;
      case Delete(uid) =>
        if uid in s.auth.order {
          ClearUserSpares(st, now, uid, x);
        }
        hide Prune, ClearUser;
      case Credentials(name, digest, hash) =>
        hide SetCredentials;
    }
  }

  lemma DropSpares(st: Store, now: int, token: Option<string>, x: Session)
    requires MirrorOk(st) && x in st.sessions && x in Prune(st.sessions, now) && token != Some(x.tokenHash)
    ensures HasHash(Drop(st, now, token).sessions, x.tokenHash)
  {
    if token.Some? {
      DropMembers(st, now, token.value);
    }
    var l := Drop(st, now, token).sessions;
    hide Prune;
    assert token.None? ==> l == st.sessions;
    hide Drop;
    var i :| 0 <= i < |l| && l[i] == x;
  }

  lemma OthersSpared(st: Store, now: int, token: Option<string>, x: Session)
    requires MirrorOk(st) && Find(st, now, token).Some? && token == Some(x.tokenHash)
    ensures HasHash(ClearOthers(st, now, token).sessions, x.tokenHash)
  {
    ClearOthersEnds(st, now, token);
    FindFrom(st, now, token);
    var l := ClearOthers(st, now, token).sessions;
    hide ClearOthers, Find;
    assert l[0].tokenHash == x.tokenHash;
  }

  lemma LogoutSpares(s: State, env: Env, now: int, step: Step, x: Session)
    requires Inv(s) && x in s.auth.store.sessions && x in Prune(s.auth.store.sessions, now)
    requires !EndsSession(s, env, now, step, x)
    requires step.Logout? || step.LogoutAll? || step.LogoutOthers?
    ensures HasHash(Next(s, env, now, step).auth.store.sessions, x.tokenHash)
  {
    hide Prune, Drop, ClearOthers, ClearAll, Find, HasHash, WellFormed, SessionsOk, HistoryOk;
    match step {
      case Logout(token) => DropSpares(s.auth.store, now, token, x);
      case LogoutAll =>
      case LogoutOthers(token) => OthersSpared(s.auth.store, now, token, x);
    }
  }

  /** What a sign-in leaves of the sessions: all those of other accounts that a pruning keeps. */
  lemma CommitSpares(s: State, env: Env, now: int, client: nat, hash: string, x: Session)
    requires Inv(s) && x in s.auth.store.sessions && x in Prune(s.auth.store.sessions, now)
    requires client in s.pending ==>
               var o := CommitOf(s.auth, env, now, s.pending[client], hash); o.Done? ==> o.uid != OwnerId(x)
    ensures x in Next(s, env, now, Commit(client, hash)).auth.store.sessions
  {
    hide CommitOf;
    if client in s.pending {
      var p := s.pending[client];
      var o := CommitOf(s.auth, env, now, p, hash);
      CommitSignsIn(s.auth, env, now, p, hash);
      if o.Done? {
        var st: Store :| st.sessions == s.auth.store.sessions && st.slot == s.auth.store.slot
                         && o.auth.store == Issue(st, now, hash, o.uid);
        IssueSpares(st, now, hash, o.uid, x);
      }
    }
  }

  lemma IssueSpares(st: Store, now: int, hash: string, uid: string, x: Session)
    requires MirrorOk(st) && x in Prune(st.sessions, now) && OwnerId(x) != uid
    ensures x in Issue(st, now, hash, uid).sessions
  {
    MirrorHidesSlot(st);
    hide Prune, Iter;
    var l, entry := st.sessions, Entry(st, now, hash, uid);
    AddSparesOthers(l, now, entry, OwnerId(x));
    FilterMember(IsOwner(OwnerId(x)), Prune(l, now));
    FilterMember(IsOwner(OwnerId(x)), Extended(l, now, entry));
  }

  /** The step signs the session's own account in, so the cap may push the session out. */
  predicate SignsInOwner(s: State, env: Env, now: int, step: Step, x: Session)
    requires ADMIN_USER_ID in s.auth.accounts
  {
    step.Commit? && step.client in s.pending &&
    var o := CommitOf(s.auth, env, now, s.pending[step.client], step.hash);
    o.Done? && o.uid == OwnerId(x)
  }

  /** A session that lives, within the cap of its account, goes with a step exactly when the step ends it or
      signs its own account in; an ended one goes with certainty. */
  lemma StepSpares(s: State, env: Env, now: int, step: Step, x: Session)
    requires Inv(s) && FreshToken(s, step) && x in s.auth.store.sessions && x in Prune(s.auth.store.sessions, now)
    requires !SignsInOwner(s, env, now, step, x)
    ensures HasHash(Next(s, env, now, step).auth.store.sessions, x.tokenHash)
       <==> !EndsSession(s, env, now, step, x)
  {
    assert ADMIN_USER_ID in s.auth.accounts;
    hide Inv, Prune, EndsSession, CommitOf;
    var l := Next(s, env, now, step).auth.store.sessions;
    if EndsSession(s, env, now, step, x) {
      StepDead(s, env, now, step, x);
    } else if step.Logout? || step.LogoutAll? || step.LogoutOthers? {
      LogoutSpares(s, env, now, step, x);
    } else {
      if step.Commit? {
        CommitSpares(s, env, now, step.client, step.hash, x);
      } else if step.Totp2? || step.Update? || step.Delete? || step.Credentials? {
        AdminSpares(s, env, now, step, x);
      } else {
        SameSessions(s, env, now, step);
      }
      hide Next;
      assert x in l;
    }
  }

  lemma SameSessions(s: State, env: Env, now: int, step: Step)
    requires ADMIN_USER_ID in s.auth.accounts && !step.Commit? && !step.Totp2? && !step.Update? && !step.Delete?
    requires !step.Credentials? && !step.Logout? && !step.LogoutAll? && !step.LogoutOthers?
    ensures Next(s, env, now, step).auth.store == s.auth.store
  {
    hide CheckLogin, CheckSsoOn, CheckOidc2faOn, CurrentUser, TargetForLink, IdentityInUse;
  }

  /** A step bars its account's earlier tokens exactly when it is an accepted change of its password, a disabling, a
      deletion, or new credentials of the administrator; every other account's barrier stays. */
  lemma BarrierStep(s: State, env: Env, now: int, step: Step, uid: string)
    requires ADMIN_USER_ID in s.auth.accounts
    ensures var t := Next(s, env, now, step);
            var bars := match step
              case Update(u, patch) =>
                u == uid && (patch.password.Some? || patch.enabled == Some(false))
                && UpdateUser(s.auth, env, now, u, patch).Done?
              case Delete(u) => u == uid && u in s.auth.order
              case Credentials(name, digest, hash) =>
                uid == ADMIN_USER_ID && SetCredentials(s.auth, env, now, name, digest, hash).Done?
              case _ => false;
            BarrierOf(t, uid) == if bars then s.clock else BarrierOf(s, uid)
  {
    hide CommitOf, UpdateUser, SetCredentials, DeleteUser, CreateUser, SetTotp, Link, Unlink;
    hide CheckLogin, CheckSsoOn, CheckOidc2faOn, Drop, ClearAll, ClearOthers;
  }

  // ------------------------------------------------------------ how long a session lasts

  /** The stored number of days counts from 1 to 365; nothing stored means 30. */
  lemma DaysInForce(days: int)
    ensures 1 <= days <= 365 ==> RememberDays(days) == days
    ensures days == 0 ==> RememberDays(days) == 30
    ensures days < 0 ==> RememberDays(days) == 1
    ensures days > 365 ==> RememberDays(days) == 365
  {
  }

  /** A token issued now opens its account exactly until its days are over. */
  lemma IssuedLasts(st: Store, now: int, u: string, hash: string, t: int)
    requires MirrorOk(st) && OlderThan(st.sessions, now, hash)
    requires now > 0 && u != "" && IsSha256Hex(hash)
    ensures var r := Find(Issue(st, now, hash, u), t, Some(hash));
            && (r.Some? <==> t < now + RememberDays(st.rememberDays) * 86400)
            && (r.Some? ==> OwnerId(r.value) == u && r.value.createdAt == now)
  {
    hide Prune;
    var entry := Entry(st, now, hash, u);
    var l := Extended(st.sessions, now, entry);
    MirrorHidesSlot(st);
    MirrorStep(st, now, IssueOp(hash, u));
    MirrorHidesSlot(Issue(st, now, hash, u));
    ExtendedHas(st.sessions, now, entry);
    ExtendedFrom(st.sessions, now, entry);
    if Opens(t, hash)(entry) {
      OnlyHit(l, t, entry);
    } else {
      FilterNone(Opens(t, hash), l);
    }
  }

  // ------------------------------------------------------------ a slot without a session in the list

  /** The legacy slot of an older version, not in the list, opens the administrator until it expires, with the date
      of the last login; every other token is looked up in the list alone. */
  lemma LegacySlotOpens(st: Store, now: int, hash: string)
    requires IsSha256Hex(st.slot.tokenHash) && !HasHash(st.sessions, st.slot.tokenHash)
    ensures var r, life := Find(st, now, Some(st.slot.tokenHash)), RememberDays(st.rememberDays) * 86400;
            && (r.Some? <==> st.slot.expiresAt > now && st.slot.expiresAt > 0)
            && (r.Some? ==> OwnerId(r.value) == ADMIN_USER_ID && r.value.expiresAt == st.slot.expiresAt)
            && (r.Some? && st.lastLoginAt != 0 ==> r.value.createdAt == st.lastLoginAt)
            && (r.Some? && st.lastLoginAt == 0 && st.slot.expiresAt > 1 + life ==>
                  r.value.createdAt + life == st.slot.expiresAt)
            && (r.Some? && st.lastLoginAt == 0 && st.slot.expiresAt <= 1 + life ==> r.value.createdAt == 1)
    ensures hash != st.slot.tokenHash ==> Find(st, now, Some(hash)) == Find(st.(slot := EMPTY_SLOT), now, Some(hash))
  {
    var l, slot := st.sessions, st.slot.tokenHash;
    assert forall x :: x in l ==> x.tokenHash != slot;
    FilterNone(Opens(now, slot), l);
    assert Iter(st.(slot := EMPTY_SLOT)) == l;
    if LegacyEntry(st).Some? {
      var e := LegacyEntry(st).value;
      FilterConcat(Opens(now, slot), l, [e]);
      FilterConcat(Opens(now, hash), l, [e]);
      FilterCons(Opens(now, slot), e, []);
      FilterCons(Opens(now, hash), e, []);
      assert [e] + [] == [e] && Filter(Opens(now, hash), l) + [] == Filter(Opens(now, hash), l);
    }
  }

  /** And the next change of the list takes it in: a logout with another token keeps it, if a pruning does. */
  lemma LegacySlotMigrates(st: Store, now: int, hash: string, x: Session)
    ensures x in Drop(st, now, Some(hash)).sessions <==> x in Prune(Iter(st), now) && x.tokenHash != hash
    ensures LegacyEntry(st).Some? && !HasHash(st.sessions, st.slot.tokenHash) ==>
              && LegacyEntry(st).value in Iter(st) && LegacyEntry(st).value.tokenHash == st.slot.tokenHash
              && |Iter(st)| == |st.sessions| + 1 && Iter(st)[|st.sessions|].tokenHash == st.slot.tokenHash
              && forall i :: 0 <= i < |st.sessions| ==> Iter(st)[i] == st.sessions[i]
  {
    FilterMember(NotHash(hash), Prune(Iter(st), now));
    hide Prune;
  }
}
