/**
 * Conservation of recovery codes over every interleaving of check-then-commit
 * logins: the stored rows and the sessions they paid for always add up.
 */
module RecoveryCodes {
  import opened Sequences
  import opened Sessions
  import opened AccountFrames
  import opened AuthStore
  import opened LoginProtocol
  import opened LoginRuns
  import opened Samples

  /** The recovery code a pending login means to spend. */
  function CodeOf(p: Pending): Option<string> {
    match p
    case ByPassword(req) => if req.byRecovery then Some(req.code) else None
    case BySso(_, _) => None
    case ByOidc2fa(_, byRecovery, code) => if byRecovery then Some(code) else None
  }

  /** The step signs uid in on the strength of a recovery code. */
  predicate SignsInByCode(s: State, env: Env, now: int, step: Step, uid: string)
    requires ADMIN_USER_ID in s.auth.accounts
  {
    step.Commit? && step.client in s.pending && CodeOf(s.pending[step.client]).Some? &&
    var o := CommitOf(s.auth, env, now, s.pending[step.client], step.hash);
    o.Done? && o.uid == uid
  }

  /** A password login checked a code, but by the time it commits the account asks for no second factor. */
  predicate CodeNotAsked(s: State, step: Step, uid: string)
    requires uid in s.auth.accounts && step.Commit? && step.client in s.pending
  {
    s.pending[step.client].ByPassword? && !TotpOn(s.auth.accounts[uid].totp)
  }

  /** The stored row a step spends: none or one. */
  function RowTaken(s: State, env: Env, now: int, step: Step, uid: string): seq<string>
    requires ADMIN_USER_ID in s.auth.accounts && uid in s.auth.accounts
  {
    if SignsInByCode(s, env, now, step, uid) && !CodeNotAsked(s, step, uid) then
      var rows := s.auth.accounts[uid].recovery;
      var clean := CleanCode(CodeOf(s.pending[step.client]).value);
      if |clean| < 10 then []
      else
        var k := FirstRow(env, rows, clean);
        if k == |rows| then [] else [rows[k]]
    else []
  }

  function Rows(s: State, uid: string): seq<string> {
    if uid in s.auth.accounts then s.auth.accounts[uid].recovery else []
  }

  lemma TakeOut(rows: seq<string>, k: nat)
    requires k < |rows|
    ensures multiset(rows[..k] + rows[k + 1..]) + multiset([rows[k]]) == multiset(rows)
  {
    assert rows == rows[..k] + [rows[k]] + rows[k + 1..];
  }

  lemma ConsumeRows(env: Env, rows: seq<string>, code: string)
    requires Consume(env, rows, code).Some?
    ensures var clean := CleanCode(code);
            |clean| >= 10 && FirstRow(env, rows, clean) < |rows|
            && multiset(Consume(env, rows, code).value) + multiset([rows[FirstRow(env, rows, clean)]]) == multiset(rows)
  {
    TakeOut(rows, FirstRow(env, rows, CleanCode(code)));
  }

  /** The rows uid is left with when p is committed for whom. */
  function RowsLeft(a: Auth, env: Env, p: Pending, whom: string, uid: string): seq<string>
    requires uid in a.accounts
  {
    var rows := a.accounts[uid].recovery;
    if whom != uid || CodeOf(p).None? || (p.ByPassword? && !TotpOn(a.accounts[uid].totp)) then rows
    else
      match Consume(env, rows, CodeOf(p).value)
      case None => rows
      case Some(left) => left
  }

  lemma PasswordRows(a: Auth, env: Env, now: int, req: LoginReq, hash: string, uid: string)
    requires WellFormed(a) && uid in a.accounts
    ensures var o := CommitLogin(a, env, now, req, hash);
            o.Done? ==>
              && uid in o.auth.accounts
              && o.auth.accounts[uid].recovery == RowsLeft(a, env, ByPassword(req), o.uid, uid)
              && (req.byRecovery && TotpOn(a.accounts[o.uid].totp)
                  ==> Consume(env, a.accounts[o.uid].recovery, req.code).Some?)
  {
    hide Issue;
  }

  lemma OidcRows(a: Auth, env: Env, now: int, subject: string, byRecovery: bool, code: string,
                 hash: string, uid: string)
    requires WellFormed(a) && uid in a.accounts
    ensures var o := CommitOidc2fa(a, env, now, subject, byRecovery, code, hash);
            o.Done? ==>
              && uid in o.auth.accounts
              && o.auth.accounts[uid].recovery == RowsLeft(a, env, ByOidc2fa(subject, byRecovery, code), o.uid, uid)
              && (byRecovery ==> Consume(env, a.accounts[o.uid].recovery, code).Some?)
  {
    hide Issue;
  }

  lemma CommitRows(a: Auth, env: Env, now: int, p: Pending, hash: string, uid: string)
    requires WellFormed(a) && uid in a.accounts
    ensures var o := CommitOf(a, env, now, p, hash);
            o.Done? ==>
              && uid in o.auth.accounts
              && o.auth.accounts[uid].recovery == RowsLeft(a, env, p, o.uid, uid)
              && (o.uid == uid && CodeOf(p).Some? && !(p.ByPassword? && !TotpOn(a.accounts[uid].totp))
                  ==> Consume(env, a.accounts[uid].recovery, CodeOf(p).value).Some?)
  {
    match p {
      case ByPassword(req) => PasswordRows(a, env, now, req, hash, uid);
      case BySso(_, _) =>
      case ByOidc2fa(subject, byRecovery, code) => OidcRows(a, env, now, subject, byRecovery, code, hash, uid);
    }
  }

  lemma CommitConserves(s: State, env: Env, now: int, step: Step, uid: string)
    requires WellFormed(s.auth) && step.Commit? && step.client in s.pending && uid in s.auth.accounts
    ensures var o := CommitOf(s.auth, env, now, s.pending[step.client], step.hash);
            var rows := if o.Done? && uid in o.auth.accounts then o.auth.accounts[uid].recovery else Rows(s, uid);
            multiset(rows) + multiset(RowTaken(s, env, now, step, uid)) == multiset(Rows(s, uid))
    ensures |RowTaken(s, env, now, step, uid)| == 1
       <==> SignsInByCode(s, env, now, step, uid) && !CodeNotAsked(s, step, uid)
  {
    var p := s.pending[step.client];
    CommitRows(s.auth, env, now, p, step.hash, uid);
    if SignsInByCode(s, env, now, step, uid) && !CodeNotAsked(s, step, uid) {
      ConsumeRows(env, s.auth.accounts[uid].recovery, CodeOf(p).value);
    }
  }

  lemma OtherRows(s: State, env: Env, now: int, step: Step, uid: string)
    requires WellFormed(s.auth) && !step.Commit?
    requires uid in s.auth.accounts && uid in Next(s, env, now, step).auth.accounts
    ensures Rows(Next(s, env, now, step), uid) == Rows(s, uid)
  {
    if !step.LinkId? && !step.UnlinkId? {
      StepFramed(s, env, now, step);
    }
  }

  /** One step moves at most one row from the store to the spent side, and only a sign-in by code does. */
  lemma StepConserves(s: State, env: Env, now: int, step: Step, uid: string)
    requires WellFormed(s.auth) && uid in s.auth.accounts && uid in Next(s, env, now, step).auth.accounts
    ensures multiset(Rows(Next(s, env, now, step), uid)) + multiset(RowTaken(s, env, now, step, uid))
         == multiset(Rows(s, uid))
    ensures |RowTaken(s, env, now, step, uid)| == 1
       <==> SignsInByCode(s, env, now, step, uid) && !CodeNotAsked(s, step, uid)
  {
    if step.Commit? {
      if step.client in s.pending {
        CommitConserves(s, env, now, step, uid);
      }
    } else {
      OtherRows(s, env, now, step, uid);
    }
  }

  // ------------------------------------------------------------ whole runs

  ghost predicate AccountKept(states: seq<State>, uid: string) {
    forall i :: 0 <= i < |states| ==> WellFormed(states[i].auth) && uid in states[i].auth.accounts
  }

  ghost predicate TwoFactorKept(states: seq<State>, uid: string) {
    forall i :: 0 <= i < |states| ==> uid in states[i].auth.accounts && TotpOn(states[i].auth.accounts[uid].totp)
  }

  /** Sessions issued to uid by recovery code in the first n steps. */
  ghost function SignIns(states: seq<State>, env: Env, trace: seq<(int, Step)>, uid: string, n: nat): nat
    requires IsRun(states, env, trace) && AccountKept(states, uid) && n <= |trace|
  {
    if n == 0 then 0
    else
      SignIns(states, env, trace, uid, n - 1)
      + if SignsInByCode(states[n - 1], env, trace[n - 1].0, trace[n - 1].1, uid) then 1 else 0
  }

  /** Those of them that came when the second factor was no longer asked for. */
  ghost function Unasked(states: seq<State>, env: Env, trace: seq<(int, Step)>, uid: string, n: nat): nat
    requires IsRun(states, env, trace) && AccountKept(states, uid) && n <= |trace|
  {
    if n == 0 then 0
    else
      Unasked(states, env, trace, uid, n - 1)
      + if SignsInByCode(states[n - 1], env, trace[n - 1].0, trace[n - 1].1, uid)
           && CodeNotAsked(states[n - 1], trace[n - 1].1, uid) then 1 else 0
  }

  /** The stored rows spent in the first n steps, in order. */
  ghost function Spent(states: seq<State>, env: Env, trace: seq<(int, Step)>, uid: string, n: nat): seq<string>
    requires IsRun(states, env, trace) && AccountKept(states, uid) && n <= |trace|
  {
    if n == 0 then []
    else
      Spent(states, env, trace, uid, n - 1) + RowTaken(states[n - 1], env, trace[n - 1].0, trace[n - 1].1, uid)
  }

  lemma RunStep(states: seq<State>, env: Env, trace: seq<(int, Step)>, uid: string, n: nat)
    requires IsRun(states, env, trace) && AccountKept(states, uid) && 0 < n <= |trace|
    ensures var s, now, step := states[n - 1], trace[n - 1].0, trace[n - 1].1;
            && multiset(Rows(states[n], uid)) + multiset(RowTaken(s, env, now, step, uid)) == multiset(Rows(s, uid))
            && |Rows(states[n], uid)| + |RowTaken(s, env, now, step, uid)| == |Rows(s, uid)|
            && |RowTaken(s, env, now, step, uid)|
               == if SignsInByCode(s, env, now, step, uid) && !CodeNotAsked(s, step, uid) then 1 else 0
  {
    var s, now, step := states[n - 1], trace[n - 1].0, trace[n - 1].1;
    assert IsNext(s, env, now, step, states[n]);
    StepConserves(s, env, now, step, uid);
    AddUp(Rows(states[n], uid), RowTaken(s, env, now, step, uid), Rows(s, uid));
  }

  lemma {:induction false} RowsConserved(states: seq<State>, env: Env, trace: seq<(int, Step)>, uid: string, n: nat)
    requires IsRun(states, env, trace) && AccountKept(states, uid) && n <= |trace|
    ensures multiset(Rows(states[n], uid)) + multiset(Spent(states, env, trace, uid, n))
         == multiset(Rows(states[0], uid))
  {
    hide RowTaken, Rows, IsNext;
    if n > 0 {
      RowsConserved(states, env, trace, uid, n - 1);
      RunStep(states, env, trace, uid, n);
      var s, now, step := states[n - 1], trace[n - 1].0, trace[n - 1].1;
      var taken, before := RowTaken(s, env, now, step, uid), Spent(states, env, trace, uid, n - 1);
      assert multiset(before + taken) == multiset(before) + multiset(taken);
    }
  }

  lemma {:induction false} CountsConserved(states: seq<State>, env: Env, trace: seq<(int, Step)>, uid: string, n: nat)
    requires IsRun(states, env, trace) && AccountKept(states, uid) && n <= |trace|
    ensures SignIns(states, env, trace, uid, n) + |Rows(states[n], uid)|
         == |Rows(states[0], uid)| + Unasked(states, env, trace, uid, n)
    ensures |Spent(states, env, trace, uid, n)| + Unasked(states, env, trace, uid, n)
         == SignIns(states, env, trace, uid, n)
  {
    hide RowTaken, Rows, SignsInByCode, CodeNotAsked, WellFormed, IsNext;
    if n > 0 {
      CountsConserved(states, env, trace, uid, n - 1);
      RunStep(states, env, trace, uid, n);
    }
  }

  /**
   * In every run the rows spent and the rows left are exactly the rows at the
   * start, and sign-ins by code outnumber the rows spent only by the password
   * logins whose account had dropped its second factor before they committed.
   */
  lemma CodesConserved(states: seq<State>, env: Env, trace: seq<(int, Step)>, uid: string, n: nat)
    requires IsRun(states, env, trace) && AccountKept(states, uid) && n <= |trace|
    ensures multiset(Rows(states[n], uid)) + multiset(Spent(states, env, trace, uid, n))
         == multiset(Rows(states[0], uid))
    ensures SignIns(states, env, trace, uid, n) + |Rows(states[n], uid)|
         == |Rows(states[0], uid)| + Unasked(states, env, trace, uid, n)
    ensures |Spent(states, env, trace, uid, n)| + Unasked(states, env, trace, uid, n)
         == SignIns(states, env, trace, uid, n)
  {
    RowsConserved(states, env, trace, uid, n);
    CountsConserved(states, env, trace, uid, n);
  }

  lemma AddUp(a: seq<string>, b: seq<string>, c: seq<string>)
    requires multiset(a) + multiset(b) == multiset(c)
    ensures |a| + |b| == |c|
  {
    assert |multiset(a) + multiset(b)| == |multiset(c)|;
  }

  /** While two-factor stays on, each sign-in by code has used up a stored row of its own. */
  lemma CodesPayOnce(states: seq<State>, env: Env, trace: seq<(int, Step)>, uid: string, n: nat)
    requires IsRun(states, env, trace) && AccountKept(states, uid) && TwoFactorKept(states, uid) && n <= |trace|
    ensures SignIns(states, env, trace, uid, n) + |Rows(states[n], uid)| == |Rows(states[0], uid)|
    ensures |Spent(states, env, trace, uid, n)| == SignIns(states, env, trace, uid, n)
  {
    CodesConserved(states, env, trace, uid, n);
    NothingUnasked(states, env, trace, uid, n);
  }

  lemma {:induction false} NothingUnasked(states: seq<State>, env: Env, trace: seq<(int, Step)>, uid: string, n: nat)
    requires IsRun(states, env, trace) && AccountKept(states, uid) && TwoFactorKept(states, uid) && n <= |trace|
    ensures Unasked(states, env, trace, uid, n) == 0
  {
    hide WellFormed, SignsInByCode;
    if n > 0 {
      NothingUnasked(states, env, trace, uid, n - 1);
    }
  }

  // ------------------------------------------------------------ a sign-in by code that spends none

  const CODE := "ABCDEFGHIJ"

  /** Stored text matches equal text, and no one-time code is right. */
  function PlainEnv(): Env {
    Env((stored, typed) => stored == typed, (secret, code, now) => false, name => name)
  }

  function OneAdmin(totp: Totp): Auth {
    var admin := Account("root", true, "pw", totp, [CODE], map[]);
    Auth(ADMIN_STORE, map[ADMIN_USER_ID := admin], [])
  }

  function CheckedState(totp: Totp, clock: nat): State {
    State(OneAdmin(totp), map[0 := ByPassword(LoginReq("root", "pw", CODE, true, false))], clock, ADMIN_ISSUED, map[])
  }

  /** The administrator is signed in on one device and logs in on another. */
  const UNASKED_START := State(OneAdmin(ON), map[], 1, ADMIN_ISSUED, map[])

  lemma {:induction false} CleanPlain(code: string)
    requires forall i :: 0 <= i < |code| ==> IsCodeChar(code[i])
    ensures CleanCode(code) == code
  {
    if code != "" {
      assert Upper(code[0]) == code[0];
      CleanPlain(code[1..]);
      assert code == [code[0]] + code[1..];
    }
  }

  lemma CodeOpens()
    ensures Consume(PlainEnv(), [CODE], CODE).Some?
  {
    CleanPlain(CODE);
    assert RowMatches(PlainEnv(), CODE, CODE);
  }

  lemma CheckStep()
    ensures Next(UNASKED_START, PlainEnv(), 2, Check(0, "root", "pw", CODE, false)) == CheckedState(ON, 2)
  {
    CodeOpens();
    hide Consume;
  }

  lemma SwitchedOff()
    ensures SetTotp(OneAdmin(ON), 3, ADMIN_USER_ID, OFF, Some(HEX)) == Done(OneAdmin(OFF), ADMIN_USER_ID)
  {
    AdminStays(3);
    hide ClearUserExcept;
    assert OneAdmin(ON).accounts[ADMIN_USER_ID := OneAdmin(OFF).accounts[ADMIN_USER_ID]] == OneAdmin(OFF).accounts;
  }

  lemma TotpStep()
    ensures Next(CheckedState(ON, 2), PlainEnv(), 3, Totp2(ADMIN_USER_ID, OFF, Some(HEX))) == CheckedState(OFF, 3)
  {
    SwitchedOff();
    hide SetTotp;
  }

  lemma ByAdmin()
    ensures CurrentUser(UnaskedStates()[1].auth, 3, UnaskedSteps()[1].1.token) == Some(ADMIN_USER_ID)
  {
    hide CurrentUser;
    AdminToken(OneAdmin(ON), 3);
  }

  lemma CommitStep()
    ensures var s, step := CheckedState(OFF, 3), Commit(0, TOKEN);
            && SignsInByCode(s, PlainEnv(), 4, step, ADMIN_USER_ID) && CodeNotAsked(s, step, ADMIN_USER_ID)
            && Rows(Next(s, PlainEnv(), 4, step), ADMIN_USER_ID) == [CODE]
            && WellFormed(Next(s, PlainEnv(), 4, step).auth)
  {
    hide Issue;
  }

  /** The password login of an account that drops its second factor between check and commit. */
  function UnaskedSteps(): seq<(int, Step)> {
    [(2, Check(0, "root", "pw", CODE, false)), (3, Totp2(ADMIN_USER_ID, OFF, Some(HEX))), (4, Commit(0, TOKEN))]
  }

  function UnaskedStates(): seq<State> {
    var s := CheckedState(OFF, 3);
    [UNASKED_START, CheckedState(ON, 2), s, Next(s, PlainEnv(), 4, Commit(0, TOKEN))]
  }

  lemma UnaskedStart()
    ensures Inv(UNASKED_START)
  {
    AdminInv(UNASKED_START);
  }

  lemma UnaskedRun()
    ensures IsRun(UnaskedStates(), PlainEnv(), UnaskedSteps()) && Inv(UnaskedStates()[0])
    ensures AccountKept(UnaskedStates(), ADMIN_USER_ID)
  {
    hide Next, Inv, SignsInByCode, CodeNotAsked, Rows;
    UnaskedStart();
    CheckStep();
    TotpStep();
    CommitStep();
    var states, trace := UnaskedStates(), UnaskedSteps();
    forall i | 0 <= i < |trace| ensures IsNext(states[i], PlainEnv(), trace[i].0, trace[i].1, states[i + 1]) {
      assert i == 0 || i == 1 || i == 2;
    }
  }

  lemma NoCommit(s: State, env: Env, now: int, step: Step)
    requires ADMIN_USER_ID in s.auth.accounts && !step.Commit?
    ensures !SignsInByCode(s, env, now, step, ADMIN_USER_ID)
  {
  }

  /** It happens: one sign-in by code, and the code is still there. */
  lemma CodeNotSpent()
    ensures IsRun(UnaskedStates(), PlainEnv(), UnaskedSteps()) && Inv(UnaskedStates()[0])
    ensures AccountKept(UnaskedStates(), ADMIN_USER_ID)
    ensures Unasked(UnaskedStates(), PlainEnv(), UnaskedSteps(), ADMIN_USER_ID, 3) == 1
    ensures SignIns(UnaskedStates(), PlainEnv(), UnaskedSteps(), ADMIN_USER_ID, 3) == 1
    ensures CurrentUser(UnaskedStates()[1].auth, 3, UnaskedSteps()[1].1.token) == Some(ADMIN_USER_ID)
    ensures Rows(UnaskedStates()[0], ADMIN_USER_ID) == Rows(UnaskedStates()[3], ADMIN_USER_ID) == [CODE]
  {
    UnaskedRun();
    ByAdmin();
    CommitStep();
    var states, trace, env := UnaskedStates(), UnaskedSteps(), PlainEnv();
    NoCommit(states[0], env, 2, trace[0].1);
    NoCommit(states[1], env, 3, trace[1].1);
    hide Next, IsRun, AccountKept, SignsInByCode, CodeNotAsked, CommitOf, Inv, CurrentUser;
    assert Unasked(states, env, trace, ADMIN_USER_ID, 1) == SignIns(states, env, trace, ADMIN_USER_ID, 1) == 0;
    assert Unasked(states, env, trace, ADMIN_USER_ID, 2) == SignIns(states, env, trace, ADMIN_USER_ID, 2) == 0;
  }
}
