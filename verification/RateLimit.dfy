/** The login rate limiter: escalating lockouts per client and a table-wide expiry. */
module RateLimit {
  import opened Sequences

  const LOGIN_FAIL_TTL_SEC := 60 * 60

  datatype Rec = Rec(n: nat, until: int, at: int)

  type Table = map<string, Rec>

  function LockoutSeconds(n: nat): int {
    if n >= 10 then 10 * 60 else if n >= 6 then 5 * 60 else if n >= 3 then 60 else 0
  }

  predicate Stale(r: Rec, now: int) {
    r.at < now - LOGIN_FAIL_TTL_SEC
  }

  function Pruned(t: Table, now: int): Table {
    map k | k in t && !Stale(t[k], now) :: t[k]
  }

  function Count(t: Table, ip: string): nat {
    if ip in t then t[ip].n else 0
  }

  function Until(t: Table, ip: string): int {
    if ip in t then t[ip].until else 0
  }

  predicate Allowed(t: Table, ip: string, now: int) {
    Until(t, ip) <= now
  }

  function Failed(n: nat, now: int): Rec {
    Rec(n, if LockoutSeconds(n) > 0 then now + LockoutSeconds(n) else 0, now)
  }

  /** Recording a failure prunes the whole table first. */
  function Fail(t: Table, ip: string, now: int): Table {
    Pruned(t, now)[ip := Failed(Count(Pruned(t, now), ip) + 1, now)]
  }

  /** The limiter as the code keeps it: one dictionary updated in place. */
  class LoginFails {
    var fails: Table

    constructor ()
      ensures fails == map[]
    {
      fails := map[];
    }

    method RateLimitOk(ip: string, now: int) returns (ok: bool, retry: int)
      ensures ok == Allowed(fails, ip, now)
      ensures retry == if ok then 0 else Until(fails, ip) - now
    {
      var until := if ip in fails then fails[ip].until else 0;
      if until > now {
        return false, if until - now > 1 then until - now else 1;
      }
      return true, 0;
    }

    method PruneLoginFails(now: int)
      modifies this
      ensures fails == Pruned(old(fails), now)
    {
      var cutoff := now - LOGIN_FAIL_TTL_SEC;
      var dead := set k | k in fails && fails[k].at < cutoff;
      ghost var was, all := fails, dead;
      while dead != {}
        invariant dead <= all
        invariant fails == was - (all - dead)
        decreases |dead|
      {
        var k :| k in dead;
        fails := fails - {k};
        dead := dead - {k};
      }
      assert fails == was - all == Pruned(was, now);
    }

    method RateLimitFail(ip: string, now: int) returns (n: nat, retryAfter: int)
      modifies this
      ensures fails == Fail(old(fails), ip, now)
      ensures n == fails[ip].n && retryAfter == LockoutSeconds(n)
    {
      PruneLoginFails(now);
      n := (if ip in fails then fails[ip].n else 0) + 1;
      retryAfter := LockoutSeconds(n);
      var until := if retryAfter > 0 then now + retryAfter else 0;
      fails := fails[ip := Rec(n, until, now)];
    }

    method RateLimitReset(ip: string)
      modifies this
      ensures fails == old(fails) - {ip}
    {
      fails := fails - {ip};
    }
  }

  // ------------------------------------------------------------ runs

  datatype Event =
    | Failure(ip: string, now: int)
    | Reset(ip: string, now: int)
    | Query(ip: string, now: int)

  function Step(t: Table, e: Event): Table {
    match e
    case Failure(ip, now) => Fail(t, ip, now)
    case Reset(ip, _) => t - {ip}
    case Query(_, _) => t
  }

  function After(evs: seq<Event>): Table {
    if evs == [] then map[] else Step(After(evs[..|evs| - 1]), evs[|evs| - 1])
  }

  predicate InOrder(evs: seq<Event>) {
    forall i, j :: 0 <= i < j < |evs| ==> evs[i].now <= evs[j].now
  }

  /** After n failures within the hour, the last of them now, a client is shut out for no time, a minute, five or
      ten minutes; a record an hour old counts for nothing. */
  lemma ShutOut(t: Table, ip: string, now: int, later: int)
    requires now >= 0 && later >= now
    ensures var n := 1 + if ip in t && t[ip].at >= now - 3600 then t[ip].n else 0;
            var r := Fail(t, ip, now);
            && ip in r && r[ip].n == n && r[ip].at == now
            && (Allowed(r, ip, later) <==>
                  later >= now + if n < 3 then 0 else if n < 6 then 60 else if n < 10 then 300 else 600)
    ensures forall other :: other != ip ==>
              (other in Fail(t, ip, now) <==> other in t && t[other].at >= now - 3600)
  {
  }

  // ------------------------------------------------------------ independence of clients

  /** What a client is told. */
  datatype Answer = Recorded(n: nat, retryAfter: int) | Passed | Blocked(retry: int) | Cleared

  function Told(t: Table, e: Event): Answer {
    match e
    case Failure(ip, now) => var r := Fail(t, ip, now)[ip]; Recorded(r.n, LockoutSeconds(r.n))
    case Query(ip, now) => if Allowed(t, ip, now) then Passed else Blocked(Until(t, ip) - now)
    case Reset(_, _) => Cleared
  }

  /** A client that asks passes exactly when its lockout is over, and is else told how long it lasts. */
  lemma ToldWhenOver(t: Table, ip: string, now: int)
    requires now >= 0
    ensures var over := !(ip in t && t[ip].until > now);
            && (Told(t, Query(ip, now)) == Passed <==> over)
            && (ip in t && t[ip].until > now ==> Told(t, Query(ip, now)) == Blocked(t[ip].until - now))
  {
  }

  /** Everything ip is told over a run. */
  function Answers(evs: seq<Event>, ip: string): seq<Answer> {
    if evs == [] then []
    else
      var front, e := evs[..|evs| - 1], evs[|evs| - 1];
      if e.ip == ip then Answers(front, ip) + [Told(After(front), e)] else Answers(front, ip)
  }

  /** The run with only the events of ip. */
  function Alone(evs: seq<Event>, ip: string): (r: seq<Event>)
    ensures forall e :: e in r ==> e.ip == ip
  {
    if evs == [] then []
    else
      var front, e := evs[..|evs| - 1], evs[|evs| - 1];
      if e.ip == ip then Alone(front, ip) + [e] else Alone(front, ip)
  }

  /** The part of a client's record that can still matter. */
  function Living(t: Table, ip: string, now: int): Option<Rec> {
    if ip in t && !Stale(t[ip], now) then Some(t[ip]) else None
  }

  /** Records end their lockout long before they expire. */
  predicate Sound(t: Table, now: int) {
    now >= 0 && forall k :: k in t ==> t[k].at <= now && t[k].until <= (if t[k].at + 600 >= 0 then t[k].at + 600 else 0)
  }

  lemma StepSound(t: Table, now: int, e: Event)
    requires Sound(t, now) && now <= e.now
    ensures Sound(Step(t, e), e.now)
  {
  }

  lemma SameStep(t: Table, u: Table, ip: string, now: int, e: Event)
    requires Sound(t, now) && Sound(u, now) && Living(t, ip, now) == Living(u, ip, now) && now <= e.now
    ensures Sound(Step(t, e), e.now) && Living(Step(t, e), ip, e.now)
                                     == Living(if e.ip == ip then Step(u, e) else u, ip, e.now)
    ensures e.ip == ip ==> Told(t, e) == Told(u, e) && Sound(Step(u, e), e.now)
  {
    StepSound(t, now, e);
    StepSound(u, now, e);
    assert ip in t && !Stale(t[ip], e.now) ==> !Stale(t[ip], now);
    assert ip in u && !Stale(u[ip], e.now) ==> !Stale(u[ip], now);
    assert ip in t ==> t[ip].at <= now && t[ip].until <= (if t[ip].at + 600 >= 0 then t[ip].at + 600 else 0);
    assert ip in u ==> u[ip].at <= now && u[ip].until <= (if u[ip].at + 600 >= 0 then u[ip].at + 600 else 0);
    hide Sound, LockoutSeconds;
  }

  // ------------------------------------------------------------ what a client's own failures say

  function Wait(n: nat): int {
    if n < 3 then 0 else if n < 6 then 60 else if n < 10 then 300 else 600
  }

  /** A client's failures in a row, no two of them more than an hour apart, and when the last one was: the other
      clients' events and its own questions aside, up to a success. */
  function Streak(evs: seq<Event>, ip: string): Option<(nat, int)> {
    if evs == [] then None
    else
      var had, e := Streak(evs[..|evs| - 1], ip), evs[|evs| - 1];
      if e.ip != ip || e.Query? then had
      else if e.Reset? then None
      else if had.Some? && e.now - had.value.1 <= 3600 then Some((had.value.0 + 1, e.now))
      else Some((1, e.now))
  }

  /** The record a streak leaves, while it is not an hour old. */
  function Kept(had: Option<(nat, int)>, now: int): Option<Rec> {
    if had.None? || now - had.value.1 > 3600 then None
    else
      var (n, at) := had.value;
      Some(Rec(n, if n < 3 then 0 else at + Wait(n), at))
  }

  lemma KeptStep(t: Table, had: Option<(nat, int)>, ip: string, now: int, e: Event)
    requires Sound(t, now) && now <= e.now && Living(t, ip, now) == Kept(had, now)
    requires had.Some? ==> had.value.1 <= now
    ensures Living(t, ip, e.now) == Kept(had, e.now)
    ensures var next := if e.ip != ip || e.Query? then had
                        else if e.Reset? then None
                        else if had.Some? && e.now - had.value.1 <= 3600 then Some((had.value.0 + 1, e.now))
                        else Some((1, e.now));
            Living(Step(t, e), ip, e.now) == Kept(next, e.now)
  {
    assert ip in t && !Stale(t[ip], e.now) ==> !Stale(t[ip], now);
    assert Living(t, ip, e.now) == Kept(had, e.now);
    if e.Failure? && e.ip == ip {
      assert Count(Pruned(t, e.now), ip) == if Kept(had, e.now).Some? then had.value.0 else 0;
    }
  }

  /** The table holds of each client what its streak says. */
  lemma {:induction false} StreakKept(evs: seq<Event>, ip: string)
    requires InOrder(evs) && (evs != [] ==> evs[0].now >= 0)
    ensures var now := if evs == [] then 0 else evs[|evs| - 1].now;
            && Sound(After(evs), now) && Living(After(evs), ip, now) == Kept(Streak(evs, ip), now)
            && (Streak(evs, ip).Some? ==> Streak(evs, ip).value.1 <= now)
  {
    if evs != [] {
      var front, e := evs[..|evs| - 1], evs[|evs| - 1];
      var now := if front == [] then 0 else front[|front| - 1].now;
      StreakKept(front, ip);
      hide Sound, Living, Kept, Step;
      StepSound(After(front), now, e);
      KeptStep(After(front), Streak(front, ip), ip, now, e);
    }
  }

  /**
   * In an ordered run what a client is told follows from its own failures since
   * its last success alone: how many there were in a row, and how long after
   * the last of them it must wait.
   */
  lemma ToldByOwnFailures(evs: seq<Event>, e: Event)
    requires InOrder(evs + [e]) && (evs + [e])[0].now >= 0
    ensures e.Reset? ==> Told(After(evs), e) == Cleared
    ensures e.Failure? ==>
              var had := Streak(evs, e.ip);
              var n := if had.Some? && e.now - had.value.1 <= 3600 then had.value.0 + 1 else 1;
              Told(After(evs), e) == Recorded(n, Wait(n))
    ensures e.Query? ==>
              var had := Streak(evs, e.ip);
              var left := if had.None? then 0 else had.value.1 + Wait(had.value.0) - e.now;
              Told(After(evs), e) == if left <= 0 then Passed else Blocked(left)
  {
    var all := evs + [e];
    assert evs == all[..|evs|] && e == all[|evs|];
    assert InOrder(evs) && (evs != [] ==> evs[0].now >= 0) by {
      forall i, j | 0 <= i < j < |evs| ensures evs[i].now <= evs[j].now {
        assert all[i].now <= all[j].now;
      }
      assert evs != [] ==> all[0] == evs[0];
    }
    StreakKept(evs, e.ip);
    var now := if evs == [] then 0 else evs[|evs| - 1].now;
    assert now <= e.now by {
      assert evs != [] ==> all[|evs| - 1] == evs[|evs| - 1];
    }
    KeptStep(After(evs), Streak(evs, e.ip), e.ip, now, e);
    hide After, Streak, InOrder;
  }

  // ------------------------------------------------------------ the others' events left out

  lemma {:induction false} SameState(evs: seq<Event>, ip: string)
    requires InOrder(evs) && (evs != [] ==> evs[0].now >= 0)
    ensures var now := if evs == [] then 0 else evs[|evs| - 1].now;
            && Sound(After(evs), now) && Sound(After(Alone(evs, ip)), now)
            && Living(After(evs), ip, now) == Living(After(Alone(evs, ip)), ip, now)
    ensures Answers(evs, ip) == Answers(Alone(evs, ip), ip)
  {
    if evs != [] {
      var front, e := evs[..|evs| - 1], evs[|evs| - 1];
      SameState(front, ip);
      var now := if front == [] then 0 else front[|front| - 1].now;
      SameStep(After(front), After(Alone(front, ip)), ip, now, e);
      var alone := Alone(evs, ip);
      if e.ip == ip {
        assert alone[..|alone| - 1] == Alone(front, ip);
      }
    }
  }

  /** Other clients' failures, resets and queries change nothing a client is ever told,
      although each failure prunes the whole table. */
  lemma ClientsAreIndependent(evs: seq<Event>, ip: string)
    requires InOrder(evs) && (evs != [] ==> evs[0].now >= 0)
    ensures Answers(evs, ip) == Answers(Alone(evs, ip), ip)
  {
    SameState(evs, ip);
  }
}
