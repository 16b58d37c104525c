/**
 * What administration achieves: when a change of accounts is accepted, and which
 * names, passwords, second factors and links sign in to which account after it.
 */
module Administration {
  import opened Sequences
  import opened Sessions
  import opened AuthStore

  /** No other account's name folds to the same; a name that folds to nothing is free. */
  ghost predicate NameFree(a: Auth, env: Env, name: string, uid: string) {
    env.casefold(name) == ""
    || forall v :: v in a.accounts && v != uid ==> env.casefold(a.accounts[v].username) != env.casefold(name)
  }

  /** Every account but uid is as it was. */
  ghost predicate OthersKept(a: Auth, b: Auth, uid: string) {
    && (forall v :: v != uid ==> (v in b.accounts <==> v in a.accounts))
    && (forall v :: v in a.accounts && v != uid ==> b.accounts[v] == a.accounts[v])
  }

  /** A token hash is 64 hexadecimal digits, capitals included. */
  lemma TokenHashes(s: string)
    ensures IsSha256Hex(s) <==> |s| == 64 && forall i :: 0 <= i < 64 ==> s[i] in "0123456789abcdefABCDEF"
  {
    forall c: char ensures IsHexDigit(c) <==> c in "0123456789abcdefABCDEF" {
      HexDigit(c);
    }
  }

  /** A session counts, for the cap and for a pruning, while its hash is one, its time not over and its owner not
      blank. */
  lemma LiveSessions(s: Session, now: int)
    ensures IsLive(now)(s) <==>
              && |s.tokenHash| == 64 && (forall i :: 0 <= i < 64 ==> s.tokenHash[i] in "0123456789abcdefABCDEF")
              && s.expiresAt > now && s.owner != Id("")
  {
    TokenHashes(s.tokenHash);
    hide IsSha256Hex;
  }

  lemma HexDigit(c: char)
    ensures IsHexDigit(c) <==> c in "0123456789abcdefABCDEF"
  {
    if IsHexDigit(c) {
      assert c == '0' || c == '1' || c == '2' || c == '3' || c == '4' || c == '5' || c == '6' || c == '7' || c == '8'
          || c == '9' || c == 'a' || c == 'b' || c == 'c' || c == 'd' || c == 'e' || c == 'f'
          || c == 'A' || c == 'B' || c == 'C' || c == 'D' || c == 'E' || c == 'F';
      assert "0123456789abcdefABCDEF"
          == "0123456789" + "abcdef" + "ABCDEF";
    }
  }

  /** A token opens the account that the first live session with it belongs to, while that is the administrator's or
      an enabled one, and nothing else. */
  lemma CurrentUserIs(a: Auth, now: int, hash: string, u: string)
    requires MirrorOk(a.store)
    ensures CurrentUser(a, now, Some(hash)) == Some(u) <==>
              && (u == ADMIN_USER_ID || (u in a.accounts && a.accounts[u].enabled))
              && exists i: nat :: i < |a.store.sessions| && OpenedBy(a.store.sessions, now, hash, i, u)
    ensures CurrentUser(a, now, None) == None
  {
    MirrorHidesSlot(a.store);
    var l, hits := a.store.sessions, Filter(Opens(now, hash), a.store.sessions);
    if hits == [] {
      FilterMember(Opens(now, hash), l);
      forall i | 0 <= i < |l| ensures !LivesUnder(l[i], now, hash) {
        assert l[i] in l;
      }
    } else {
      var first := FirstHit(l, now, hash);
      forall i: nat, v | i < |l| && OpenedBy(l, now, hash, i, v) ensures i == first && v == OwnerId(hits[0]) {
      }
      assert OpenedBy(l, now, hash, first, OwnerId(hits[0]));
    }
  }

  predicate LivesUnder(s: Session, now: int, hash: string) {
    s.tokenHash == hash && s.expiresAt > now && IsSha256Hex(hash)
  }

  /** Session i is the first live one with the token, and of account u. */
  predicate OpenedBy(l: seq<Session>, now: int, hash: string, i: nat, u: string)
    requires i < |l|
  {
    LivesUnder(l[i], now, hash) && (forall j :: 0 <= j < i ==> !LivesUnder(l[j], now, hash))
    && match l[i].owner case Unset => u == ADMIN_USER_ID case Id(id) => u == id
  }

  lemma {:induction false} FirstHit(l: seq<Session>, now: int, hash: string) returns (i: nat)
    requires Filter(Opens(now, hash), l) != []
    ensures i < |l| && l[i] == Filter(Opens(now, hash), l)[0] && LivesUnder(l[i], now, hash)
    ensures forall j :: 0 <= j < i ==> !LivesUnder(l[j], now, hash)
  {
    if Opens(now, hash)(l[0]) {
      i := 0;
    } else {
      var k := FirstHit(l[1..], now, hash);
      i := k + 1;
      forall j | 0 <= j < i ensures !LivesUnder(l[j], now, hash) {
        assert j > 0 ==> l[j] == l[1..][j - 1];
      }
    }
  }

  /** An account is created exactly when its name and id are free, without factor, codes and links, and
      signs in with its name and password if it is enabled. */
  lemma CreateWorks(a: Auth, env: Env, uid: string, name: string, enabled: bool, digest: string)
    requires "" !in a.accounts
    ensures var o := CreateUser(a, env, uid, name, enabled, digest);
            && (o.Done? <==> NameFree(a, env, name, uid) && uid !in a.accounts && uid != "")
            && (o.Done? ==>
                  && o.uid == uid && OthersKept(a, o.auth, uid) && o.auth.store == a.store
                  && o.auth.order == a.order + [uid] && uid in o.auth.accounts
                  && !o.auth.accounts[uid].totp.enabled && o.auth.accounts[uid].recovery == []
                  && o.auth.accounts[uid].links == map[])
    ensures var o := CreateUser(a, env, uid, name, enabled, digest);
            o.Done? ==>
              forall n, p :: LoginHit(o.auth, env, n, p, uid) <==> enabled && n == name && env.matches(digest, p)
  {
  }

  /** An update is accepted exactly when the account is a managed one, a new name is not blank and free, and a
      profile is known; it changes the fields it names and no others. */
  lemma UpdateWorks(a: Auth, env: Env, now: int, uid: string, patch: Patch)
    requires WellFormed(a)
    ensures var o := UpdateUser(a, env, now, uid, patch);
            && (o.Done? <==>
                  && uid in a.order && patch.profileOk != Some(false)
                  && (patch.username.Some? ==>
                        patch.username.value != "" && NameFree(a, env, patch.username.value, uid)))
            && (o.Done? ==>
                  && o.uid == uid && OthersKept(a, o.auth, uid) && o.auth.order == a.order
                  && var was, acct := a.accounts[uid], o.auth.accounts[uid];
                     && acct.totp == was.totp && acct.recovery == was.recovery && acct.links == was.links
                     && (patch.username.None? ==> acct.username == was.username)
                     && acct.enabled == (patch.enabled == Some(true) || (patch.enabled.None? && was.enabled))
                     && (patch.password.None? ==> acct.password == was.password))
    ensures var o := UpdateUser(a, env, now, uid, patch);
            o.Done? ==>
              && (patch.username.Some? ==> o.auth.accounts[uid].username == patch.username.value)
              && (patch.password.Some? ==> o.auth.accounts[uid].password == patch.password.value)
              && (patch.password.None? && patch.enabled != Some(false) ==> o.auth.store == a.store)
  {
    hide ClearUser;
  }

  /** New credentials are accepted exactly when the name is free, and sign in to the administrator from then on. */
  lemma CredentialsWork(a: Auth, env: Env, now: int, name: string, digest: Option<string>, hash: string)
    requires WellFormed(a)
    ensures var o := SetCredentials(a, env, now, name, digest, hash);
            && (o.Done? <==> NameFree(a, env, name, ADMIN_USER_ID))
            && (o.Done? ==>
                  && o.uid == ADMIN_USER_ID && OthersKept(a, o.auth, ADMIN_USER_ID) && o.auth.order == a.order
                  && ADMIN_USER_ID in o.auth.accounts
                  && var was, acct := a.accounts[ADMIN_USER_ID], o.auth.accounts[ADMIN_USER_ID];
                     && acct.enabled && acct.totp == was.totp && acct.recovery == was.recovery
                     && acct.links == was.links)
    ensures var o := SetCredentials(a, env, now, name, digest, hash);
            o.Done? ==>
              forall n, p :: FindUserForLogin(o.auth, env, n, p) == Some(ADMIN_USER_ID)
                <==> n != "" && n == name
                     && env.matches(match digest case None => a.accounts[ADMIN_USER_ID].password case Some(d) => d, p)
  {
    hide Issue;
    var o := SetCredentials(a, env, now, name, digest, hash);
    if o.Done? {
      forall n, p | FirstLogin(o.auth, o.auth.order, env, n, p).Some?
        ensures FirstLogin(o.auth, o.auth.order, env, n, p) != Some(ADMIN_USER_ID)
      {
      }
    }
  }

  /** A factor is stored exactly for an account that is there and enabled, which keeps everything else. */
  lemma TotpWorks(a: Auth, now: int, uid: string, totp: Totp, token: Option<string>)
    ensures var o := SetTotp(a, now, uid, totp, token);
            && (o.Done? <==> uid in a.accounts && a.accounts[uid].enabled)
            && (o.Done? ==>
                  && o.uid == uid && OthersKept(a, o.auth, uid) && o.auth.order == a.order && uid in o.auth.accounts
                  && o.auth.accounts[uid] == a.accounts[uid].(totp := totp))
  {
    hide ClearUserExcept;
  }

  /** Whom a caller may change the link of: the administrator anyone enabled, himself if nobody is named, and a
      managed user only himself. */
  predicate MayLink(a: Auth, actor: string, requested: string, target: string) {
    && target in a.accounts && (target == ADMIN_USER_ID || a.accounts[target].enabled)
    && if actor == ADMIN_USER_ID then target == (if requested == "" then ADMIN_USER_ID else requested)
       else target == actor && requested in {"", actor}
  }

  /** A link is set exactly for such a caller and target, when no other account has the identity, and changes
      that link alone. */
  lemma LinkWorks(a: Auth, now: int, token: Option<string>, p: Provider, subject: string, requested: string)
    ensures var o, actor := Link(a, now, token, p, subject, requested), CurrentUser(a, now, token);
            && (o.Done? ==>
                  && actor.Some? && MayLink(a, actor.value, requested, o.uid)
                  && (forall v :: v in a.accounts && v != o.uid ==> !Linked(a, v, p, subject))
                  && OthersKept(a, o.auth, o.uid) && o.auth.store == a.store && o.auth.order == a.order
                  && o.uid in o.auth.accounts
                  && o.auth.accounts[o.uid]
                     == a.accounts[o.uid].(links := a.accounts[o.uid].links[p := subject]))
            && (forall u :: actor.Some? && MayLink(a, actor.value, requested, u)
                            && (forall v :: v in a.accounts && v != u ==> !Linked(a, v, p, subject)) ==>
                  o.Done? && o.uid == u)
  {
    hide CurrentUser;
  }

  /** A link is removed exactly for such a caller and target, and that link alone. */
  lemma UnlinkWorks(a: Auth, now: int, token: Option<string>, p: Provider, requested: string)
    ensures var o, actor := Unlink(a, now, token, p, requested), CurrentUser(a, now, token);
            && (o.Done? ==>
                  && actor.Some? && MayLink(a, actor.value, requested, o.uid)
                  && OthersKept(a, o.auth, o.uid) && o.auth.store == a.store && o.auth.order == a.order
                  && o.uid in o.auth.accounts
                  && o.auth.accounts[o.uid] == a.accounts[o.uid].(links := a.accounts[o.uid].links - {p}))
            && (forall u :: actor.Some? && MayLink(a, actor.value, requested, u) ==> o.Done? && o.uid == u)
  {
    hide CurrentUser;
  }
}
