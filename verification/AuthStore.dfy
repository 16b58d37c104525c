/**
 * The app_auth section of the configuration: accounts, their recovery codes and
 * SSO links, and the mutators that run on the latest configuration under its
 * lock (api/appAuthAPI.py, api/authOidcAPI.py, api/authPlexAPI.py).
 */
module AuthStore {
  import opened Sequences
  import opened Sessions

  const DEFAULT_REMEMBER_ME_DAYS := 60

  datatype Provider = Oidc | Plex

  datatype Totp = Totp(enabled: bool, secret: string)

  /** A stored account. The administrator's record sits under ADMIN_USER_ID. */
  datatype Account = Account(
    username: string, enabled: bool, password: string, totp: Totp,
    recovery: seq<string>, links: map<Provider, string>)

  datatype Auth = Auth(store: Store, accounts: map<string, Account>, order: seq<string>)

  /** Cryptography and Unicode folding, left open: stored text against typed text. */
  datatype Env = Env(
    matches: (string, string) -> bool,
    totpOk: (string, string, int) -> bool,
    casefold: string -> string)

  /** What a mutator hands back; a raised error means nothing is saved. */
  datatype Outcome = Done(auth: Auth, uid: string) | Raised

  ghost predicate WellFormed(a: Auth) {
    && ADMIN_USER_ID in a.accounts && ADMIN_USER_ID !in a.order && "" !in a.accounts
    && a.accounts[ADMIN_USER_ID].enabled
    && Distinct(a.order)
    && (forall u :: u in a.accounts <==> u == ADMIN_USER_ID || u in a.order)
  }

  predicate TotpOn(t: Totp) {
    t.enabled && t.secret != ""
  }

  // ------------------------------------------------------------ recovery codes

  predicate IsCodeChar(c: char) {
    'A' <= c <= 'Z' || '0' <= c <= '9'
  }

  function Upper(c: char): char {
    if 'a' <= c <= 'z' then (c as int - 32) as char else c
  }

  /** The typed code in capitals with everything but letters and digits removed. */
  function CleanCode(code: string): string {
    if code == "" then ""
    else (if IsCodeChar(Upper(code[0])) then [Upper(code[0])] else "") + CleanCode(code[1..])
  }

  predicate RowMatches(env: Env, row: string, clean: string)
    requires |clean| >= 10
  {
    env.matches(row, clean) || env.matches(row, clean[..10] + "-" + clean[10..])
  }

  /** Index of the first stored row the code opens; |rows| when there is none. */
  function FirstRow(env: Env, rows: seq<string>, clean: string): (k: nat)
    requires |clean| >= 10
    ensures k <= |rows|
    ensures forall i :: 0 <= i < k ==> !RowMatches(env, rows[i], clean)
    ensures k < |rows| ==> RowMatches(env, rows[k], clean)
  {
    if rows == [] || RowMatches(env, rows[0], clean) then 0
    else 1 + FirstRow(env, rows[1..], clean)
  }

  /** The rows left after spending the code, if it opens one of them. */
  function Consume(env: Env, rows: seq<string>, code: string): Option<seq<string>> {
    var clean := CleanCode(code);
    if |clean| < 10 then None
    else
      var k := FirstRow(env, rows, clean);
      if k == |rows| then None else Some(rows[..k] + rows[k + 1..])
  }

  /** Spending a code removes exactly one stored row, one that the code opens. */
  lemma ConsumeOne(env: Env, rows: seq<string>, code: string)
    requires Consume(env, rows, code).Some?
    ensures var left := Consume(env, rows, code).value;
            |left| == |rows| - 1
            && exists row :: row in rows && RowMatches(env, row, CleanCode(code))
                 && multiset(left) + multiset{row} == multiset(rows)
  {
    var clean := CleanCode(code);
    var k := FirstRow(env, rows, clean);
    assert rows == rows[..k] + [rows[k]] + rows[k + 1..];
  }

  // ------------------------------------------------------------ finding accounts

  predicate LoginHit(a: Auth, env: Env, name: string, password: string, u: string) {
    u in a.accounts && a.accounts[u].enabled && a.accounts[u].username == name
    && env.matches(a.accounts[u].password, password)
  }

  function FirstLogin(a: Auth, order: seq<string>, env: Env, name: string, password: string): (r: Option<string>)
    ensures r.Some? ==> r.value in order && LoginHit(a, env, name, password, r.value)
    ensures r.None? ==> forall u :: u in order ==> !LoginHit(a, env, name, password, u)
  {
    if order == [] then None
    else if LoginHit(a, env, name, password, order[0]) then Some(order[0])
    else FirstLogin(a, order[1..], env, name, password)
  }

  /** The administrator first, then the enabled accounts in stored order. */
  function FindUserForLogin(a: Auth, env: Env, name: string, password: string): Option<string>
    requires ADMIN_USER_ID in a.accounts
  {
    var admin := a.accounts[ADMIN_USER_ID];
    if name != "" && name == admin.username && env.matches(admin.password, password) then Some(ADMIN_USER_ID)
    else FirstLogin(a, a.order, env, name, password)
  }

  predicate Linked(a: Auth, u: string, p: Provider, subject: string) {
    subject != "" && u in a.accounts && p in a.accounts[u].links && a.accounts[u].links[p] == subject
  }

  predicate SsoHit(a: Auth, p: Provider, subject: string, u: string) {
    Linked(a, u, p, subject) && a.accounts[u].enabled
  }

  function FirstSso(a: Auth, order: seq<string>, p: Provider, subject: string): (r: Option<string>)
    ensures r.Some? ==> r.value in order && SsoHit(a, p, subject, r.value)
    ensures r.None? ==> forall u :: u in order ==> !SsoHit(a, p, subject, u)
  {
    if order == [] then None
    else if SsoHit(a, p, subject, order[0]) then Some(order[0])
    else FirstSso(a, order[1..], p, subject)
  }

  /** The account an SSO identity signs in to: the administrator first, then enabled accounts in order. */
  function Resolve(a: Auth, p: Provider, subject: string): Option<string> {
    if Linked(a, ADMIN_USER_ID, p, subject) then Some(ADMIN_USER_ID)
    else FirstSso(a, a.order, p, subject)
  }

  /** Some other account, enabled or not, already carries this identity. */
  predicate IdentityInUse(a: Auth, p: Provider, subject: string, exclude: string) {
    exists u :: u in a.accounts && u != exclude && Linked(a, u, p, subject)
  }

  /** The account behind a token: its session's owner, while that account exists and is enabled. */
  function CurrentUser(a: Auth, now: int, token: Option<string>): Option<string> {
    match Find(a.store, now, token)
    case None => None
    case Some(s) =>
      var u := OwnerId(s);
      if u == ADMIN_USER_ID || (u in a.accounts && a.accounts[u].enabled) then Some(u) else None
  }

  predicate UsernameInUse(a: Auth, env: Env, name: string, exclude: string) {
    env.casefold(name) != ""
    && exists u :: u in a.accounts && u != exclude && env.casefold(a.accounts[u].username) == env.casefold(name)
  }

  // ------------------------------------------------------------ login commits

  /** What the first phase of a password login carries into its commit. */
  datatype LoginReq = LoginReq(name: string, password: string, code: string, byRecovery: bool, remember: bool)

  function SignIn(a: Auth, now: int, hash: string, uid: string): Outcome {
    Done(a.(store := Issue(a.store, now, hash, uid)), uid)
  }

  /** First phase, on a snapshot: is the attempt admissible, and does it need a recovery code? */
  function CheckLogin(a: Auth, env: Env, now: int, name: string, password: string, code: string, remember: bool)
    : Option<LoginReq>
    requires ADMIN_USER_ID in a.accounts
  {
    match FindUserForLogin(a, env, name, password)
    case None => None
    case Some(u) =>
      if u !in a.accounts || !TotpOn(a.accounts[u].totp) then Some(LoginReq(name, password, "", false, remember))
      else if env.totpOk(a.accounts[u].totp.secret, code, now) then
        Some(LoginReq(name, password, code, false, remember))
      else if Consume(env, a.accounts[u].recovery, code).Some? then Some(LoginReq(name, password, code, true, remember))
      else None
  }

  function WithRecovery(a: Auth, u: string, rows: seq<string>): Auth
    requires u in a.accounts
  {
    a.(accounts := a.accounts[u := a.accounts[u].(recovery := rows)])
  }

  function Remembered(a: Auth, remember: bool): Auth {
    if remember && RememberDays(a.store.rememberDays) == 30
    then a.(store := a.store.(rememberDays := DEFAULT_REMEMBER_ME_DAYS))
    else a
  }

  /** Second phase, on the latest configuration: everything is checked again before the session is issued. */
  function CommitLogin(a: Auth, env: Env, now: int, req: LoginReq, hash: string): Outcome
    requires ADMIN_USER_ID in a.accounts
  {
    match FindUserForLogin(a, env, req.name, req.password)
    case None => Raised
    case Some(u) =>
      if u !in a.accounts then Raised
      else if !TotpOn(a.accounts[u].totp) then SignIn(Remembered(a, req.remember), now, hash, u)
      else if req.byRecovery then
        match Consume(env, a.accounts[u].recovery, req.code)
        case None => Raised
        case Some(rows) => SignIn(Remembered(WithRecovery(a, u, rows), req.remember), now, hash, u)
      else if env.totpOk(a.accounts[u].totp.secret, req.code, now) then
        SignIn(Remembered(a, req.remember), now, hash, u)
      else Raised
  }

  /** Commit of an OIDC callback and of a Plex login. */
  function CommitSso(a: Auth, now: int, p: Provider, subject: string, hash: string): Outcome {
    match Resolve(a, p, subject)
    case None => Raised
    case Some(u) => SignIn(a, now, hash, u)
  }

  /** Commit of the OIDC second factor. */
  function CommitOidc2fa(a: Auth, env: Env, now: int, subject: string, byRecovery: bool, code: string, hash: string)
    : Outcome
  {
    match Resolve(a, Oidc, subject)
    case None => Raised
    case Some(u) =>
      if u !in a.accounts then Raised
      else if !byRecovery then SignIn(a, now, hash, u)
      else
        match Consume(env, a.accounts[u].recovery, code)
        case None => Raised
        case Some(rows) => SignIn(WithRecovery(a, u, rows), now, hash, u)
  }

  // ------------------------------------------------------------ administration

  function CreateUser(a: Auth, env: Env, uid: string, name: string, enabled: bool, digest: string): Outcome {
    if UsernameInUse(a, env, name, "") || uid in a.accounts || uid == "" then Raised
    else
      var acct := Account(name, enabled, digest, Totp(false, ""), [], map[]);
      Done(a.(accounts := a.accounts[uid := acct], order := a.order + [uid]), uid)
  }

  /** The fields of an update request; None where the request leaves a field out.
      profileOk says whether a submitted profile id names a profile. */
  datatype Patch = Patch(
    username: Option<string>, enabled: Option<bool>, profileOk: Option<bool>, password: Option<string>)

  function Renamed(a: Auth, uid: string, name: Option<string>): Auth
    requires uid in a.accounts
  {
    match name
    case None => a
    case Some(n) => a.(accounts := a.accounts[uid := a.accounts[uid].(username := n)])
  }

  function Switched(a: Auth, now: int, uid: string, enabled: Option<bool>): Auth
    requires uid in a.accounts
  {
    match enabled
    case None => a
    case Some(on) =>
      var b := a.(accounts := a.accounts[uid := a.accounts[uid].(enabled := on)]);
      if on then b else b.(store := ClearUser(b.store, now, uid))
  }

  function Rekeyed(a: Auth, now: int, uid: string, digest: Option<string>): Auth
    requires uid in a.accounts
  {
    match digest
    case None => a
    case Some(d) =>
      var b := a.(accounts := a.accounts[uid := a.accounts[uid].(password := d)]);
      b.(store := ClearUser(b.store, now, uid))
  }

  function UpdateUser(a: Auth, env: Env, now: int, uid: string, patch: Patch): Outcome {
    if uid !in a.order || uid !in a.accounts then Raised
    else if patch.username.Some? && (patch.username.value == ""
            || UsernameInUse(a, env, patch.username.value, uid)) then
      Raised
    else if patch.profileOk == Some(false) then Raised
    else Done(Rekeyed(Switched(Renamed(a, uid, patch.username), now, uid, patch.enabled),
                      now, uid, patch.password), uid)
  }

  function Without(order: seq<string>, uid: string): (r: seq<string>)
    ensures forall u :: u in r <==> u in order && u != uid
  {
    if order == [] then []
    else if order[0] == uid then Without(order[1..], uid)
    else [order[0]] + Without(order[1..], uid)
  }

  lemma {:induction false} WithoutDistinct(order: seq<string>, uid: string)
    requires Distinct(order)
    ensures Distinct(Without(order, uid))
  {
    if order != [] {
      assert order[0] !in order[1..];
      WithoutDistinct(order[1..], uid);
    }
  }

  /** Deleting an account that is not there saves the configuration unchanged. */
  function DeleteUser(a: Auth, now: int, uid: string): Outcome {
    if uid !in a.order then Done(a, uid)
    else Done(Auth(ClearUser(a.store, now, uid), a.accounts - {uid}, Without(a.order, uid)), uid)
  }

  /** New administrator credentials: every session ends and one is issued to the caller. */
  function SetCredentials(a: Auth, env: Env, now: int, name: string, digest: Option<string>, hash: string): Outcome
    requires ADMIN_USER_ID in a.accounts
  {
    if UsernameInUse(a, env, name, ADMIN_USER_ID) then Raised
    else
      var admin := a.accounts[ADMIN_USER_ID];
      var changed := admin.(username := name, password := if digest.Some? then digest.value else admin.password);
      SignIn(Auth(ClearAll(a.store), a.accounts[ADMIN_USER_ID := changed], a.order), now, hash, ADMIN_USER_ID)
  }

  /** Turning two-factor on or off for a target ends its other sessions. */
  function SetTotp(a: Auth, now: int, uid: string, totp: Totp, token: Option<string>): Outcome {
    if uid !in a.accounts || !a.accounts[uid].enabled then Raised
    else Done(a.(accounts := a.accounts[uid := a.accounts[uid].(totp := totp)],
                 store := ClearUserExcept(a.store, now, uid, token)), uid)
  }

  // ------------------------------------------------------------ SSO links

  /** Whom an actor may link: an administrator anyone, others only themselves; the target must be enabled. */
  function TargetForLink(a: Auth, actor: Option<string>, requested: string): Option<string> {
    match actor
    case None => None
    case Some(u) =>
      if u != ADMIN_USER_ID && requested != "" && requested != u then None
      else
        var target := if u != ADMIN_USER_ID then u else if requested != "" then requested else ADMIN_USER_ID;
        if target == ADMIN_USER_ID || (target in a.accounts && a.accounts[target].enabled) then Some(target) else None
  }

  function Link(a: Auth, now: int, token: Option<string>, p: Provider, subject: string, requested: string): Outcome {
    match TargetForLink(a, CurrentUser(a, now, token), requested)
    case None => Raised
    case Some(u) =>
      if u !in a.accounts || IdentityInUse(a, p, subject, u) then Raised
      else Done(a.(accounts := a.accounts[u := a.accounts[u].(links := a.accounts[u].links[p := subject])]), u)
  }

  function Unlink(a: Auth, now: int, token: Option<string>, p: Provider, requested: string): Outcome {
    match TargetForLink(a, CurrentUser(a, now, token), requested)
    case None => Raised
    case Some(u) =>
      if u !in a.accounts then Raised
      else Done(a.(accounts := a.accounts[u := a.accounts[u].(links := a.accounts[u].links - {p})]), u)
  }
}
