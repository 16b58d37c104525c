/**
 * The app_auth dictionary as the code updates it in place, and the
 * configuration file whose mutators run on a private copy that is saved only
 * when the mutator returns. Every method is proved against AuthStore's functions.
 */
module AuthConfig {
  import opened Sequences
  import opened Sessions
  import opened AuthStore

  /** The bucket dictionary: its keys in insertion order and the rows under each. */
  datatype Buckets = Buckets(keys: seq<string>, rows: map<string, seq<Session>>)

  ghost predicate Bucketed(b: Buckets, l: seq<Session>) {
    && b.keys == Owners(l)
    && (forall u :: u in b.rows <==> u in b.keys)
    && (forall u :: u in b.keys ==> b.rows[u] == Filter(IsOwner(u), l))
  }

  method LiveSessions(sessions: seq<Session>, now: int) returns (keep: seq<Session>)
    ensures keep == Filter(IsLive(now), sessions)
  {
    keep := [];
    for i := 0 to |sessions|
      invariant keep == Filter(IsLive(now), sessions[..i])
    {
      FilterConcat(IsLive(now), sessions[..i], [sessions[i]]);
      assert sessions[..i + 1] == sessions[..i] + [sessions[i]];
      var s := sessions[i];
      if IsSha256Hex(s.tokenHash) && s.expiresAt > now && OwnerId(s) != "" {
        keep := keep + [s];
      }
    }
    assert sessions[..|sessions|] == sessions;
  }

  method FillBuckets(keep: seq<Session>) returns (b: Buckets)
    ensures Bucketed(b, keep)
  {
    b := Buckets([], map[]);
    for i := 0 to |keep|
      invariant Bucketed(b, keep[..i])
    {
      var s := keep[i];
      var uid := OwnerId(s);
      assert keep[..i + 1][..i] == keep[..i];
      BucketGrows(keep, i);
      if uid !in b.rows {
        b := Buckets(b.keys + [uid], b.rows[uid := []]);
      }
      b := b.(rows := b.rows[uid := b.rows[uid] + [s]]);
    }
    assert keep[..|keep|] == keep;
  }

  method CapBuckets(ghost keep: seq<Session>, b: Buckets) returns (out: seq<Session>)
    requires Bucketed(b, keep)
    ensures out == Capped(keep, Owners(keep))
  {
    out := [];
    for i := 0 to |b.keys|
      invariant out == Capped(keep, b.keys[..i])
    {
      assert b.keys[..i + 1][..i] == b.keys[..i];
      out := out + LastN(b.rows[b.keys[i]], MAX_SESSIONS);
    }
    assert b.keys[..|b.keys|] == b.keys;
  }

  method PruneSessions(sessions: seq<Session>, now: int) returns (out: seq<Session>)
    ensures out == Prune(sessions, now)
  {
    hide Bucketed, Capped, Owners, Sort, Filter;
    var keep := LiveSessions(sessions, now);
    keep := Sort(keep);
    var b := FillBuckets(keep);
    out := CapBuckets(keep, b);
    out := Sort(out);
  }

  lemma BucketGrows(keep: seq<Session>, i: nat)
    requires i < |keep|
    ensures forall u :: Filter(IsOwner(u), keep[..i + 1])
                     == Filter(IsOwner(u), keep[..i]) + if OwnerId(keep[i]) == u then [keep[i]] else []
    ensures OwnerId(keep[i]) !in Owners(keep[..i]) ==> Filter(IsOwner(OwnerId(keep[i])), keep[..i]) == []
  {
    forall u
      ensures Filter(IsOwner(u), keep[..i + 1])
           == Filter(IsOwner(u), keep[..i]) + if OwnerId(keep[i]) == u then [keep[i]] else []
    {
      assert keep[..i + 1] == keep[..i] + [keep[i]];
      FilterConcat(IsOwner(u), keep[..i], [keep[i]]);
    }
    if OwnerId(keep[i]) !in Owners(keep[..i]) {
      FilterNone(IsOwner(OwnerId(keep[i])), keep[..i]);
    }
  }

  /** The list with the new session in it: pruned before and after. */
  method ExtendedList(st: Store, now: int, hash: string, uid: string) returns (l: seq<Session>)
    ensures l == Issue(st, now, hash, uid).sessions
  {
    hide Prune;
    var exp := now + Ttl(st);
    var entry := Session(hash, now, exp, Id(uid));
    l := PruneSessions(Iter(st), now);
    l := PruneSessions(l + [entry], now);
  }

  /** Lookup as the readers do it: a scan that stops at the first session the token opens. */
  method FindSession(st: Store, now: int, token: Option<string>) returns (r: Option<Session>)
    ensures r == Find(st, now, token)
  {
    if token.None? {
      return None;
    }
    var l := Iter(st);
    for i := 0 to |l|
      invariant Filter(Opens(now, token.value), l) == Filter(Opens(now, token.value), l[i..])
    {
      if l[i].tokenHash != "" && l[i].expiresAt > now && IsSha256Hex(l[i].tokenHash) && token.value == l[i].tokenHash {
        return Some(l[i]);
      }
    }
    r := None;
  }

  method KeptSessions(l: seq<Session>, uid: string, token: Option<string>) returns (kept: seq<Session>)
    ensures kept == Filter(NotOfExcept(uid, token), l)
  {
    kept := [];
    for i := 0 to |l|
      invariant kept == Filter(NotOfExcept(uid, token), l[..i])
    {
      assert l[..i + 1] == l[..i] + [l[i]];
      FilterConcat(NotOfExcept(uid, token), l[..i], [l[i]]);
      var sid := if RawId(l[i]) == "" then ADMIN_USER_ID else RawId(l[i]);
      if sid != uid || (token.Some? && token.value == l[i].tokenHash) {
        kept := kept + [l[i]];
      }
    }
    assert l[..|l|] == l;
  }

  class AppAuth {
    var sessions: seq<Session>
    var slot: Slot
    var lastLoginAt: int
    var rememberDays: int
    var accounts: map<string, Account>
    var order: seq<string>

    ghost function Value(): Auth
      reads this
    {
      Auth(Store(sessions, slot, lastLoginAt, rememberDays), accounts, order)
    }

    constructor (a: Auth)
      ensures Value() == a
    {
      sessions, slot := a.store.sessions, a.store.slot;
      lastLoginAt, rememberDays := a.store.lastLoginAt, a.store.rememberDays;
      accounts, order := a.accounts, a.order;
    }

    method CurrentStore() returns (st: Store)
      ensures st == Value().store
    {
      st := Store(sessions, slot, lastLoginAt, rememberDays);
    }

    method Snapshot() returns (a: Auth)
      ensures a == Value()
    {
      a := Auth(Store(sessions, slot, lastLoginAt, rememberDays), accounts, order);
    }

    method SyncLegacySession(l: seq<Session>)
      modifies this`slot
      ensures slot == Mirror(l)
    {
      if l == [] {
        slot := EMPTY_SLOT;
        return;
      }
      var last := l[|l| - 1];
      slot := Slot(last.tokenHash, last.expiresAt);
    }

    method IssueSession(now: int, hash: string, uid: string)
      modifies this`sessions, this`slot, this`lastLoginAt
      ensures Value() == old(Value()).(store := Issue(old(Value()).store, now, hash, uid))
    {
      var st := CurrentStore();
      var l := ExtendedList(st, now, hash, uid);
      sessions := l;
      SyncLegacySession(l);
      lastLoginAt := now;
    }

    method DropSession(now: int, token: Option<string>)
      modifies this`sessions, this`slot
      ensures Value() == old(Value()).(store := Drop(old(Value()).store, now, token))
    {
      if token.None? {
        return;
      }
      var st := CurrentStore();
      var l := PruneSessions(Iter(st), now);
      sessions := Filter(NotHash(token.value), l);
      SyncLegacySession(sessions);
    }

    method ClearSessions()
      modifies this`sessions, this`slot
      ensures Value() == old(Value()).(store := ClearAll(old(Value()).store))
    {
      sessions := [];
      SyncLegacySession([]);
    }

    method ClearOtherSessions(now: int, token: Option<string>)
      modifies this`sessions, this`slot
      ensures Value() == old(Value()).(store := ClearOthers(old(Value()).store, now, token))
    {
      var st := CurrentStore();
      var keep := FindSession(st, now, token);
      sessions := if keep.Some? then [keep.value] else [];
      SyncLegacySession(sessions);
    }

    method ClearUserSessions(now: int, uid: string)
      modifies this`sessions, this`slot
      ensures Value() == old(Value()).(store := ClearUser(old(Value()).store, now, uid))
    {
      if uid == "" {
        return;
      }
      var st := CurrentStore();
      var l := PruneSessions(Iter(st), now);
      sessions := Filter(NotOf(uid), l);
      SyncLegacySession(sessions);
    }

    method ClearUserSessionsExcept(now: int, uid: string, token: Option<string>)
      modifies this`sessions, this`slot
      ensures Value() == old(Value()).(store := ClearUserExcept(old(Value()).store, now, uid, token))
    {
      hide Prune, Iter;
      if uid == "" {
        return;
      }
      var st := CurrentStore();
      var l := PruneSessions(Iter(st), now);
      var kept := KeptSessions(l, uid, token);
      sessions := kept;
      SyncLegacySession(kept);
    }

    /** One pass over the stored rows: the first match is left out, the rest kept. */
    method ConsumeRecoveryCode(env: Env, uid: string, code: string) returns (matched: bool)
      requires uid in accounts
      modifies this`accounts
      ensures var spent := Consume(env, old(accounts[uid].recovery), code);
              matched == spent.Some?
              && Value() == if matched then WithRecovery(old(Value()), uid, spent.value) else old(Value())
    {
      var clean := CleanCode(code);
      if |clean| < 10 {
        return false;
      }
      var rows := accounts[uid].recovery;
      var kept: seq<string> := [];
      matched := false;
      ghost var k := FirstRow(env, rows, clean);
      for i := 0 to |rows|
        invariant matched <==> k < i
        invariant kept == if matched then rows[..k] + rows[k + 1..i] else rows[..i]
      {
        if !matched && (env.matches(rows[i], clean) || env.matches(rows[i], clean[..10] + "-" + clean[10..])) {
          matched := true;
        } else {
          kept := kept + [rows[i]];
        }
      }
      assert rows[..|rows|] == rows && (k < |rows| ==> rows[k + 1..|rows|] == rows[k + 1..]);
      if matched {
        accounts := accounts[uid := accounts[uid].(recovery := kept)];
      }
    }

    method FindLogin(env: Env, name: string, password: string) returns (r: Option<string>)
      requires ADMIN_USER_ID in accounts
      ensures r == FindUserForLogin(Value(), env, name, password)
    {
      if name != "" && name == accounts[ADMIN_USER_ID].username
         && env.matches(accounts[ADMIN_USER_ID].password, password) {
        return Some(ADMIN_USER_ID);
      }
      for i := 0 to |order|
        invariant FirstLogin(Value(), order, env, name, password)
                  == FirstLogin(Value(), order[i..], env, name, password)
      {
        var u := order[i];
        if u in accounts && accounts[u].enabled && accounts[u].username == name
           && env.matches(accounts[u].password, password) {
          return Some(u);
        }
      }
      r := None;
    }

    method ResolveUser(p: Provider, subject: string) returns (r: Option<string>)
      ensures r == Resolve(Value(), p, subject)
    {
      var a := Snapshot();
      if Linked(a, ADMIN_USER_ID, p, subject) {
        return Some(ADMIN_USER_ID);
      }
      for i := 0 to |order|
        invariant FirstSso(a, order, p, subject) == FirstSso(a, order[i..], p, subject)
      {
        if order[i] in accounts && accounts[order[i]].enabled && Linked(a, order[i], p, subject) {
          return Some(order[i]);
        }
      }
      r := None;
    }

    /** The mutator of a password login. On an error the half-changed copy is thrown away. */
    method MutateLogin(env: Env, now: int, req: LoginReq, hash: string) returns (r: Option<string>)
      requires ADMIN_USER_ID in accounts
      modifies this
      ensures match CommitLogin(old(Value()), env, now, req, hash)
              case Raised => r.None?
              case Done(a, u) => r == Some(u) && Value() == a
    {
      var user := FindLogin(env, req.name, req.password);
      if user.None? || user.value !in accounts {
        return None;
      }
      var u := user.value;
      var totp := accounts[u].totp;
      if TotpOn(totp) {
        if req.byRecovery {
          var spent := ConsumeRecoveryCode(env, u, req.code);
          if !spent {
            return None;
          }
        } else if !env.totpOk(totp.secret, req.code, now) {
          return None;
        }
      }
      if req.remember && RememberDays(rememberDays) == 30 {
        rememberDays := DEFAULT_REMEMBER_ME_DAYS;
      }
      IssueSession(now, hash, u);
      r := Some(u);
    }

    /** The mutator of the OIDC second factor; with byRecovery false it is also that of a callback. */
    method MutateOidc2fa(env: Env, now: int, subject: string, byRecovery: bool, code: string, hash: string)
      returns (r: Option<string>)
      modifies this
      ensures match CommitOidc2fa(old(Value()), env, now, subject, byRecovery, code, hash)
              case Raised => r.None?
              case Done(a, u) => r == Some(u) && Value() == a
    {
      var user := ResolveUser(Oidc, subject);
      if user.None? || user.value !in accounts {
        return None;
      }
      if byRecovery {
        var spent := ConsumeRecoveryCode(env, user.value, code);
        if !spent {
          return None;
        }
      }
      IssueSession(now, hash, user.value);
      r := user;
    }

    /** The mutator of an account update: fields are written one by one and a late error is possible. */
    method MutateUpdate(env: Env, now: int, uid: string, patch: Patch) returns (ok: bool)
      modifies this
      ensures match UpdateUser(old(Value()), env, now, uid, patch)
              case Raised => !ok
              case Done(a, _) => ok && Value() == a
    {
      if uid !in order || uid !in accounts {
        return false;
      }
      if patch.username.Some? {
        if patch.username.value == "" {
          return false;
        }
        var taken := UsernameTaken(env, patch.username.value, uid);
        if taken {
          return false;
        }
        accounts := accounts[uid := accounts[uid].(username := patch.username.value)];
      }
      if patch.enabled.Some? {
        accounts := accounts[uid := accounts[uid].(enabled := patch.enabled.value)];
        if !patch.enabled.value {
          ClearUserSessions(now, uid);
        }
      }
      if patch.profileOk == Some(false) {
        return false;
      }
      if patch.password.Some? {
        accounts := accounts[uid := accounts[uid].(password := patch.password.value)];
        ClearUserSessions(now, uid);
      }
      ok := true;
    }

    method UsernameTaken(env: Env, name: string, exclude: string) returns (r: bool)
      ensures r == UsernameInUse(Value(), env, name, exclude)
    {
      r := false;
      var clean := env.casefold(name);
      if clean == "" {
        return;
      }
      var todo := accounts.Keys;
      while todo != {}
        invariant todo <= accounts.Keys
        invariant forall u :: u in accounts.Keys - todo && u != exclude ==> env.casefold(accounts[u].username) != clean
        decreases |todo|
      {
        var u :| u in todo;
        if u != exclude && env.casefold(accounts[u].username) == clean {
          return true;
        }
        todo := todo - {u};
      }
    }

    method MutateDelete(now: int, uid: string) returns (deleted: bool)
      modifies this
      ensures DeleteUser(old(Value()), now, uid) == Done(Value(), uid)
      ensures deleted == (uid in old(order))
    {
      if uid !in order {
        return false;
      }
      accounts := accounts - {uid};
      order := Without(order, uid);
      ClearUserSessions(now, uid);
      deleted := true;
    }
  }

  /** The configuration on disk. A mutator works on its own copy; raising leaves the file alone. */
  class ConfigFile {
    var saved: Auth

    constructor (a: Auth)
      ensures saved == a
    {
      saved := a;
    }

    method Login(env: Env, now: int, req: LoginReq, hash: string) returns (r: Option<string>)
      requires ADMIN_USER_ID in saved.accounts
      modifies this
      ensures match CommitLogin(old(saved), env, now, req, hash)
              case Raised => r.None? && saved == old(saved)
              case Done(a, u) => r == Some(u) && saved == a
    {
      var cfg := new AppAuth(saved);
      r := cfg.MutateLogin(env, now, req, hash);
      if r.Some? {
        saved := cfg.Snapshot();
      }
    }

    method Oidc2fa(env: Env, now: int, subject: string, byRecovery: bool, code: string, hash: string)
      returns (r: Option<string>)
      modifies this
      ensures match CommitOidc2fa(old(saved), env, now, subject, byRecovery, code, hash)
              case Raised => r.None? && saved == old(saved)
              case Done(a, u) => r == Some(u) && saved == a
    {
      var cfg := new AppAuth(saved);
      r := cfg.MutateOidc2fa(env, now, subject, byRecovery, code, hash);
      if r.Some? {
        saved := cfg.Snapshot();
      }
    }

    method Update(env: Env, now: int, uid: string, patch: Patch) returns (ok: bool)
      modifies this
      ensures match UpdateUser(old(saved), env, now, uid, patch)
              case Raised => !ok && saved == old(saved)
              case Done(a, _) => ok && saved == a
    {
      var cfg := new AppAuth(saved);
      ok := cfg.MutateUpdate(env, now, uid, patch);
      if ok {
        saved := cfg.Snapshot();
      }
    }
  }
}
