/**
 * The polling loop of the device flow (compare section 3.5 of RFC 8628), for
 * any sequence of replies and any delays of the clock. Times are in seconds.
 */
module DevicePoll {
  datatype Reply =
    | Raises
    | NotDict
    | Granted
    | Refused
    | SlowDown(retryAfter: real)
    | ServerError
    | Waiting

  type Delay = x: real | x >= 0.0 witness 0.0

  /** The reply to one poll, how much longer than asked the sleep before it lasted, and how long it took. */
  datatype Turn = Turn(reply: Reply, oversleep: Delay, took: Delay)

  function Min(a: real, b: real): real {
    if a < b then a else b
  }

  function Max(a: real, b: real): real {
    if a < b then b else a
  }

  function Pow2(n: nat): (r: real)
    ensures r >= 1.0 && (n > 0 ==> r >= 2.0)
  {
    if n == 0 then 1.0 else 2.0 * Pow2(n - 1)
  }

  /** The sleep after n errors in a row, as far as a reply since then did not reset the count. */
  function AfterErrors(base: real, n: nat): real {
    Min(60.0, base * Pow2(n))
  }

  /** The next sleep, the interval in force and the error count. */
  datatype Pace = Pace(sleep: real, base: real, backoff: nat)

  predicate IsError(r: Reply) {
    r.Raises? || r.ServerError?
  }

  /** How a reply that does not end the loop changes the pace. */
  function Paced(p: Pace, r: Reply): Pace {
    match r
    case Raises => Pace(AfterErrors(p.base, p.backoff + 1), p.base, p.backoff + 1)
    case ServerError => Pace(AfterErrors(p.base, p.backoff + 1), p.base, p.backoff + 1)
    case NotDict => p.(sleep := p.base)
    case SlowDown(retryAfter) => Pace(Max(p.base + 5.0, retryAfter), p.base + 5.0, p.backoff)
    case Waiting => Pace(p.base, p.base, 0)
    case Granted => p
    case Refused => p
  }

  function PaceAt(base: real, env: nat -> Turn, n: nat): Pace {
    if n == 0 then Pace(base, base, 0) else Paced(PaceAt(base, env, n - 1), env(n - 1).reply)
  }

  /** slow_down replies among the first n. */
  function SlowDowns(env: nat -> Turn, n: nat): nat {
    if n == 0 then 0 else SlowDowns(env, n - 1) + if env(n - 1).reply.SlowDown? then 1 else 0
  }

  predicate Ends(r: Reply) {
    r.Granted? || r.Refused?
  }

  /** The back-off never goes under the interval, unless that is over a minute. */
  lemma AfterErrorsBound(base: real, n: nat)
    requires base >= 5.0 && n > 0
    ensures Min(60.0, base) <= AfterErrors(base, n) <= 60.0
  {
    assert base * (Pow2(n) - 1.0) >= 0.0;
  }

  /** One reply: the interval stays or grows by five, and the sleep is at least that interval or a minute. */
  lemma PacedBound(p: Pace, r: Reply)
    requires p.base >= 5.0 && !Ends(r)
    ensures Paced(p, r).base == if r.SlowDown? then p.base + 5.0 else p.base
    ensures Paced(p, r).sleep >= Min(60.0, Paced(p, r).base)
  {
    hide AfterErrors;
    AfterErrorsBound(p.base, p.backoff + 1);
  }

  /** The interval grows by five seconds with every slow_down, and every sleep lasts at least that
      interval or a minute. */
  lemma {:induction false} PaceBound(base: real, env: nat -> Turn, n: nat)
    requires base >= 5.0 && forall i :: 0 <= i < n ==> !Ends(env(i).reply)
    ensures var p := PaceAt(base, env, n);
            p.base == base + 5.0 * (SlowDowns(env, n) as real) && p.sleep >= Min(60.0, p.base)
  {
    hide AfterErrors, Paced;
    if n > 0 {
      PaceBound(base, env, n - 1);
      PacedBound(PaceAt(base, env, n - 1), env(n - 1).reply);
    }
  }

  /** The sleep after a reply falls short of the interval in force exactly after an error while that
      interval is above a minute. */
  lemma ShortSleep(p: Pace, r: Reply)
    requires p.base >= 5.0 && !Ends(r)
    ensures Paced(p, r).sleep < Paced(p, r).base <==> IsError(r) && p.base > 60.0
  {
    hide AfterErrors;
    AfterErrorsBound(p.base, p.backoff + 1);
  }

  /** After a slow_down the sleep is the longer of the new interval and what the reply asks for. */
  lemma SlowDownHeeded(p: Pace, r: Reply)
    requires r.SlowDown?
    ensures var q := Paced(p, r);
            && q.sleep >= p.base + 5.0 && q.sleep >= r.retryAfter
            && (q.sleep == p.base + 5.0 || q.sleep == r.retryAfter)
  {
  }

  function Doubled(x: real, n: nat): real {
    if n == 0 then x else 2.0 * Doubled(x, n - 1)
  }

  lemma {:induction false} DoubledIsPower(x: real, n: nat)
    ensures Doubled(x, n) == x * Pow2(n)
  {
    if n > 0 {
      DoubledIsPower(x, n - 1);
    }
  }

  lemma ErrorSleep(p: Pace, r: Reply)
    requires IsError(r)
    ensures Paced(p, r) == Pace(Min(60.0, Doubled(p.base, p.backoff + 1)), p.base, p.backoff + 1)
  {
    DoubledIsPower(p.base, p.backoff + 1);
  }

  /** n errors in a row after a reply that says to wait, or at the start, double the sleep n times, up to a minute. */
  lemma {:induction false} ErrorsDouble(base: real, env: nat -> Turn, start: nat, n: nat)
    requires start == 0 || env(start - 1).reply.Waiting?
    requires forall i :: start <= i < start + n ==> IsError(env(i).reply)
    ensures var p, q := PaceAt(base, env, start), PaceAt(base, env, start + n);
            && q.base == p.base && q.backoff == n
            && q.sleep == if n == 0 then p.base else Min(60.0, Doubled(p.base, n))
  {
    if n > 0 {
      hide Paced, PaceAt, Doubled, Min;
      ErrorsDouble(base, env, start, n - 1);
      PaceAtStep(base, env, start + n);
      ErrorSleep(PaceAt(base, env, start + n - 1), env(start + n - 1).reply);
    }
  }

  /** It does happen: an interval of a minute, a slow_down and then an error. */
  lemma SlowDownForgotten()
    ensures var env := (i: nat) => Turn(if i == 0 then SlowDown(0.0) else Raises, 0.0, 0.0);
            PaceAt(60.0, env, 2).base == 65.0 && PaceAt(60.0, env, 2).sleep == 60.0
  {
    var env := (i: nat) => Turn(if i == 0 then SlowDown(0.0) else Raises, 0.0, 0.0);
    assert PaceAt(60.0, env, 1) == Pace(65.0, 65.0, 0);
    AfterErrorsBound(65.0, 1);
  }

  /** The interval a run starts with: the stored one if positive, the caller's if given, never under five. */
  function StartInterval(stored: real, asked: real): real {
    Max(5.0, if asked != 0.0 then asked else if stored > 0.0 then stored else 5.0)
  }

  function Deadline(now: real, timeout: int, expires: int): real {
    var d := now + (if timeout > 0 then timeout as real else 0.0);
    if expires != 0 then Min(d, expires as real) else d
  }

  /** The interval is the caller's, else the stored one, when it is at least five seconds. */
  lemma IntervalAsked(stored: real, asked: real)
    ensures StartInterval(stored, asked) >= 5.0
    ensures asked >= 5.0 ==> StartInterval(stored, asked) == asked
    ensures asked == 0.0 && stored >= 5.0 ==> StartInterval(stored, asked) == stored
    ensures StartInterval(stored, asked) != 5.0 ==> StartInterval(stored, asked) in {stored, asked}
  {
  }

  /** Waiting ends with the timeout or when the device code expires, whichever comes first. */
  lemma DeadlineIsFirst(now: real, timeout: int, expires: int)
    ensures timeout >= 0 ==> Deadline(now, timeout, expires) <= now + (timeout as real)
    ensures timeout < 0 ==> Deadline(now, timeout, expires) <= now
    ensures expires != 0 ==> Deadline(now, timeout, expires) <= expires as real
    ensures Deadline(now, timeout, expires) == now + (if timeout < 0 then 0.0 else timeout as real)
         || (expires != 0 && Deadline(now, timeout, expires) == expires as real)
  {
  }

  /** One poll on record: when it was sent and when its reply was in. */
  datatype Poll = Poll(sent: real, done: real)

  /** When the wait before poll i began. */
  function WaitStart(polls: seq<Poll>, start: real, i: nat): real
    requires i <= |polls|
  {
    if i == 0 then start else polls[i - 1].done
  }

  /** Poll i goes out when its sleep is over, later by no more than the clock overslept. */
  predicate After(polls: seq<Poll>, start: real, base: real, env: nat -> Turn, i: nat)
    requires i < |polls|
  {
    && polls[i].sent == WaitStart(polls, start, i) + PaceAt(base, env, i).sleep + env(i).oversleep
    && polls[i].done == polls[i].sent + env(i).took
  }

  /** When the sleep after these polls would end. */
  function NextWake(polls: seq<Poll>, start: real, base: real, env: nat -> Turn): real {
    WaitStart(polls, start, |polls|) + PaceAt(base, env, |polls|).sleep + env(|polls|).oversleep
  }

  /** Polls lie apart by exactly the sleeps before them, as far as the clock keeps to them. */
  predicate Spaced(polls: seq<Poll>, start: real, base: real, env: nat -> Turn) {
    forall i: nat | i < |polls| :: After(polls, start, base, env, i)
  }

  /** The branches after one poll; backoff counts errors. */
  method NextPace(p: Pace, r: Reply) returns (next: Pace)
    requires !Ends(r)
    ensures next == Paced(p, r)
  {
    hide AfterErrors;
    var sleepS, baseInterval, backoff := p.sleep, p.base, p.backoff;
    match r {
      case Raises =>
        backoff := backoff + 1;
        sleepS := AfterErrors(baseInterval, backoff);
      case NotDict =>
        sleepS := baseInterval;
      case SlowDown(retryAfter) =>
        baseInterval := baseInterval + 5.0;
        sleepS := Max(baseInterval, retryAfter);
      case ServerError =>
        backoff := backoff + 1;
        sleepS := AfterErrors(baseInterval, backoff);
      case Waiting =>
        backoff := 0;
        sleepS := baseInterval;
    }
    return Pace(sleepS, baseInterval, backoff);
  }

  lemma SpacedSnoc(polls: seq<Poll>, p: Poll, start: real, base: real, env: nat -> Turn)
    requires Spaced(polls, start, base, env) && After(polls + [p], start, base, env, |polls|)
    ensures Spaced(polls + [p], start, base, env)
  {
    hide PaceAt;
    forall i: nat | i < |polls| + 1
      ensures After(polls + [p], start, base, env, i)
    {
      assert i < |polls| ==> After(polls, start, base, env, i);
    }
  }

  /**
   * The loop as coded. Whatever the replies, it ends: each poll takes at least
   * five of the seconds left, and the polls stay apart by the paces above. It
   * stops only at a reply that ends it or when the next poll would be too late.
   */
  method WaitForToken(now0: real, timeout: int, expires: int, stored: real, asked: real, env: nat -> Turn)
    returns (granted: bool, polls: seq<Poll>)
    ensures var deadline := Deadline(now0, timeout, expires);
            && (polls != [] ==> 5.0 * (|polls| as real) < deadline - now0)
            && (forall i :: 0 <= i < |polls| ==> polls[i].sent < deadline)
    ensures Spaced(polls, now0, StartInterval(stored, asked), env)
    ensures granted <==> polls != [] && env(|polls| - 1).reply.Granted?
    ensures forall i :: 0 <= i < |polls| - 1 ==> !Ends(env(i).reply)
    ensures (polls != [] && Ends(env(|polls| - 1).reply))
         || NextWake(polls, now0, StartInterval(stored, asked), env) >= Deadline(now0, timeout, expires)
  {
    hide Paced, AfterErrors, PaceAt, Spaced, SlowDowns;
    ghost var base := StartInterval(stored, asked);
    var deadline := Deadline(now0, timeout, expires);
    var now, pace := now0, Pace(StartInterval(stored, asked), StartInterval(stored, asked), 0);
    granted, polls := false, [];
    assert Spaced(polls, now0, base, env) by { SpacedNil(now0, base, env); }
    PaceAtStep(base, env, 0);
    while now < deadline
      invariant !granted && pace == PaceAt(base, env, |polls|)
      invariant forall i :: 0 <= i < |polls| ==> !Ends(env(i).reply) && polls[i].sent < deadline
      invariant pace.sleep >= 5.0 && pace.base >= 5.0
      invariant Spaced(polls, now0, base, env)
      invariant now == WaitStart(polls, now0, |polls|)
      invariant now >= now0 + 5.0 * (|polls| as real)
      invariant polls != [] ==> 5.0 * (|polls| as real) < deadline - now0
      decreases ((deadline - now) / 5.0).Floor
    {
      var turn := env(|polls|);
      ghost var woken := now;
      now := now + Min(pace.sleep, Max(0.0, deadline - now)) + turn.oversleep;
      if now >= deadline {
        assert NextWake(polls, now0, base, env) >= deadline;
        break;
      }
      assert now == woken + pace.sleep + turn.oversleep;
      SpacedSnoc(polls, Poll(now, now + turn.took), now0, base, env);
      polls := polls + [Poll(now, now + turn.took)];
      now := now + turn.took;
      LessLeft(deadline, woken, now);
      if turn.reply.Granted? {
        return true, polls;
      }
      if turn.reply.Refused? {
        return false, polls;
      }
      pace := NextPace(pace, turn.reply);
      PaceAtStep(base, env, |polls|);
      PacedBound(PaceAt(base, env, |polls| - 1), turn.reply);
    }
  }

  lemma PaceAtStep(base: real, env: nat -> Turn, n: nat)
    ensures PaceAt(base, env, n)
         == if n == 0 then Pace(base, base, 0) else Paced(PaceAt(base, env, n - 1), env(n - 1).reply)
  {}

  lemma SpacedNil(start: real, base: real, env: nat -> Turn)
    ensures Spaced([], start, base, env)
  {}

  lemma LessLeft(deadline: real, before: real, after: real)
    requires after >= before + 5.0 && before < deadline
    ensures ((deadline - after) / 5.0).Floor < ((deadline - before) / 5.0).Floor
    ensures ((deadline - before) / 5.0).Floor >= 0
  {
    assert (deadline - after) / 5.0 <= (deadline - before) / 5.0 - 1.0;
  }

  /** After k slow_down replies every later gap, from a reply to the next poll, is at least base + 5k seconds, or a
      minute if that is less, and is longer than the sleep by what the clock oversleeps. */
  lemma GapsGrow(polls: seq<Poll>, start: real, base: real, env: nat -> Turn, i: nat)
    requires base >= 5.0 && Spaced(polls, start, base, env) && 0 < i < |polls|
    requires forall j :: 0 <= j < |polls| - 1 ==> !Ends(env(j).reply)
    ensures polls[i].sent - polls[i - 1].done >= Min(60.0, base + 5.0 * (SlowDowns(env, i) as real))
    ensures polls[i].sent - polls[i - 1].done - PaceAt(base, env, i).sleep == env(i).oversleep
    ensures polls[i].done - polls[i].sent == env(i).took
  {
    PaceBound(base, env, i);
    assert After(polls, start, base, env, i);
  }
}
