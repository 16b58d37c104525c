/** How many guesses the login limiter lets one client make, when attempts may overlap: the limiter
    is asked when an attempt begins and told only when it has failed. */
module LoginAttempts {
  import opened RateLimit

  /** The limiter's table, and the attempts it let through that have not ended, with their clients. */
  datatype State = State(table: Table, flight: map<nat, string>)

  datatype Event =
    | Begins(attempt: nat, ip: string, now: int)
    | Fails(attempt: nat, now: int)
    | Clears(attempt: nat, now: int)
    | Leaves(attempt: nat, now: int)

  /** An attempt the limiter blocks never is in flight; only attempts in flight do anything. A right
      password clears the client's record, and the attempt may still fail at its commit. */
  function Step(s: State, e: Event): State {
    match e
    case Begins(a, ip, now) =>
      if a !in s.flight && Allowed(s.table, ip, now) then s.(flight := s.flight[a := ip]) else s
    case Fails(a, now) =>
      if a in s.flight then State(Fail(s.table, s.flight[a], now), s.flight - {a}) else s
    case Clears(a, _) => if a in s.flight then s.(table := s.table - {s.flight[a]}) else s
    case Leaves(a, _) => s.(flight := s.flight - {a})
  }

  function After(evs: seq<Event>): State {
    if evs == [] then State(map[], map[]) else Step(After(evs[..|evs| - 1]), evs[|evs| - 1])
  }

  predicate InOrder(evs: seq<Event>) {
    forall i, j :: 0 <= i < j < |evs| ==> evs[i].now <= evs[j].now
  }

  /** e is about an attempt of ip that is in flight in s. */
  predicate Own(s: State, e: Event, ip: string) {
    e.attempt in s.flight && s.flight[e.attempt] == ip
  }

  predicate NeverCleared(evs: seq<Event>, ip: string) {
    evs != [] ==>
      var front, e := evs[..|evs| - 1], evs[|evs| - 1];
      NeverCleared(front, ip) && !(e.Clears? && Own(After(front), e, ip))
  }

  function InFlight(s: State, ip: string): set<nat> {
    set a | a in s.flight && s.flight[a] == ip
  }

  /** At no time does ip have more than c attempts in flight. */
  predicate AtMost(evs: seq<Event>, ip: string, c: nat) {
    evs != [] ==> AtMost(evs[..|evs| - 1], ip, c) && |InFlight(After(evs), ip)| <= c
  }

  /** The times at which failures of ip were recorded, in order. */
  function FailTimes(evs: seq<Event>, ip: string): seq<int> {
    if evs == [] then []
    else
      var front, e := evs[..|evs| - 1], evs[|evs| - 1];
      FailTimes(front, ip) + if e.Fails? && Own(After(front), e, ip) then [e.now] else []
  }

  /** The runs the bounds are about. */
  predicate Guessing(evs: seq<Event>, ip: string, c: nat) {
    InOrder(evs) && NeverCleared(evs, ip) && AtMost(evs, ip, c)
  }

  function Span(times: seq<int>): int
    requires times != []
  {
    times[|times| - 1] - times[0]
  }

  /** A right password forgives: the client is let through at any time from then on, and its next failure counts
      as the first, while other clients keep their records. */
  lemma ClearForgives(s: State, attempt: nat, ip: string, now: int, later: int)
    requires attempt in s.flight && s.flight[attempt] == ip && later >= 0
    ensures var t := Step(s, Clears(attempt, now));
            && Allowed(t.table, ip, later) && Fail(t.table, ip, later)[ip].n == 1
            && t.flight == s.flight
            && (forall other :: other != ip ==> (other in t.table <==> other in s.table))
            && (forall other :: other in t.table ==> t.table[other] == s.table[other])
  {
  }

  // ------------------------------------------------------------ how long failures in a row take

  /** The least time n failures in a row can take. */
  function Earliest(n: nat): int {
    if n <= 1 then 0 else Earliest(n - 1) + LockoutSeconds(n - 1)
  }

  function Slack(n: nat): int {
    498 * n - Earliest(n)
  }

  lemma {:induction false} LateEarliest(n: nat)
    requires n >= 10
    ensures Earliest(n) == 1380 + 600 * (n - 10)
  {
    if n == 10 {
      assert Earliest(6) == 180;
      assert Earliest(8) == 780;
    } else {
      LateEarliest(n - 1);
    }
  }

  lemma SlackBound(n: nat)
    ensures Slack(n) <= 3600
    ensures Slack(n) == 3600 <==> n == 10
  {
    if n >= 10 {
      LateEarliest(n);
    } else {
      assert Earliest(6) == 180;
      assert Earliest(8) == 780;
    }
  }

  lemma LockoutGrows(m: nat, n: nat)
    requires m <= n
    ensures LockoutSeconds(m) <= LockoutSeconds(n)
  {
  }

  // ------------------------------------------------------------ leaders

  /**
   * A recorded failure is a leader if its attempt began after the previous
   * leader was recorded. first and last are the times of the first and the last
   * leader, counted the leaders since the client's record was last pruned, and
   * open the attempts in flight that began since, with their times.
   */
  datatype Ledger = Ledger(leaders: nat, first: int, last: int, counted: nat, open: map<nat, int>)

  function Noted(l: Ledger, s: State, e: Event, ip: string): Ledger {
    match e
    case Begins(a, ip2, now) =>
      if ip2 == ip && a !in s.flight && Allowed(s.table, ip, now) then l.(open := l.open[a := now]) else l
    case Fails(a, now) =>
      var counted := if ip in Pruned(s.table, now) then l.counted else 0;
      if a !in s.flight then l
      else if s.flight[a] == ip && a in l.open then
        Ledger(l.leaders + 1, if l.leaders == 0 then now else l.first, now, counted + 1, map[])
      else l.(counted := counted)
    case Clears(_, _) => l
    case Leaves(a, _) => l.(open := l.open - {a})
  }

  function Leaders(evs: seq<Event>, ip: string): Ledger {
    if evs == [] then Ledger(0, 0, 0, 0, map[])
    else
      var front := evs[..|evs| - 1];
      Noted(Leaders(front, ip), After(front), evs[|evs| - 1], ip)
  }

  /** What the table still knows of the leaders. */
  predicate Known(l: Ledger, s: State, ip: string) {
    var d := l.last - l.first;
    && l.counted <= l.leaders
    && (ip in s.table ==>
          l.leaders > 0 && s.table[ip] == Failed(s.table[ip].n, s.table[ip].at) && s.table[ip].at >= l.last)
    && (l.counted > 0 ==>
          && ip in s.table && s.table[ip].n >= l.counted
          && ((l.counted == l.leaders && d >= Earliest(l.leaders)) || 498 * l.leaders < d + Slack(l.counted)))
  }

  /** How long the leaders have taken. */
  predicate Paid(l: Ledger, now: int) {
    l.leaders > 0 ==>
      && l.first <= l.last <= now
      && 498 * l.leaders <= l.last - l.first + 3600
      && (498 * l.leaders == l.last - l.first + 3600 ==> l.leaders == 10)
      && (l.counted == 0 ==> 498 * l.leaders < now - l.first)
  }

  /** An attempt that can become the next leader began when the lockout after the last one was over. */
  predicate Waited(l: Ledger, s: State, ip: string, now: int) {
    forall a :: a in l.open ==>
      && a in s.flight && s.flight[a] == ip && l.open[a] <= now
      && (l.counted > 0 ==> l.open[a] >= l.last + LockoutSeconds(l.counted))
  }

  /** The attempts of ip in flight that cannot become leaders any more. */
  function Followers(l: Ledger, s: State, ip: string): set<nat> {
    InFlight(s, ip) - l.open.Keys
  }

  /** Between two leaders at most c - 1 others are recorded. */
  predicate Few(l: Ledger, s: State, ip: string, times: seq<int>, c: nat) {
    |times| + |Followers(l, s, ip)| <= c * l.leaders
  }

  /** times are recorded from the first leader's time on, up to the last one's or later. */
  predicate Timed(l: Ledger, times: seq<int>, now: int) {
    (times != [] ==> l.leaders > 0) &&
    (l.leaders > 0 ==> times != [] && times[0] == l.first && l.last <= times[|times| - 1] <= now)
  }

  // ------------------------------------------------------------ what a step keeps

  lemma LeaderPays(l: Ledger, s: State, e: Event, ip: string, was: int)
    requires Known(l, s, ip) && Paid(l, was) && Waited(l, s, ip, was) && was <= e.now
    requires e.Fails? && Own(s, e, ip) && e.attempt in l.open
    ensures Known(Noted(l, s, e, ip), Step(s, e), ip) && Paid(Noted(l, s, e, ip), e.now)
  {
    var n := Noted(l, s, e, ip).counted;
    SlackBound(n);
    SlackBound(l.counted);
    assert Earliest(n) == if n == 1 then 0 else Earliest(n - 1) + LockoutSeconds(n - 1);
    if ip in Pruned(s.table, e.now) && l.counted > 0 {
      assert e.now >= l.last + LockoutSeconds(l.counted);
    }
  }

  lemma OthersPay(l: Ledger, s: State, e: Event, ip: string, was: int)
    requires Known(l, s, ip) && Paid(l, was) && was <= e.now
    requires e.Fails? && e.attempt in s.flight && !(Own(s, e, ip) && e.attempt in l.open)
    requires Own(s, e, ip) ==> l.leaders > 0
    ensures Known(Noted(l, s, e, ip), Step(s, e), ip) && Paid(Noted(l, s, e, ip), e.now)
  {
    SlackBound(l.counted);
    hide Earliest;
  }

  lemma StepPays(l: Ledger, s: State, e: Event, ip: string, was: int)
    requires Known(l, s, ip) && Paid(l, was) && Waited(l, s, ip, was) && was <= e.now
    requires !(e.Clears? && Own(s, e, ip))
    requires e.Fails? && Own(s, e, ip) && e.attempt !in l.open ==> l.leaders > 0
    ensures Known(Noted(l, s, e, ip), Step(s, e), ip) && Paid(Noted(l, s, e, ip), e.now)
  {
    if e.Fails? && e.attempt in s.flight {
      if Own(s, e, ip) && e.attempt in l.open {
        LeaderPays(l, s, e, ip, was);
      } else {
        OthersPay(l, s, e, ip, was);
      }
    }
  }

  lemma StepWaits(l: Ledger, s: State, e: Event, ip: string, was: int)
    requires Known(l, s, ip) && Paid(l, was) && Waited(l, s, ip, was) && was <= e.now
    ensures Waited(Noted(l, s, e, ip), Step(s, e), ip, e.now)
  {
    hide Earliest, Slack;
    if e.Begins? && ip in s.table {
      LockoutGrows(l.counted, if s.table[ip].n >= l.counted then s.table[ip].n else l.counted);
    }
  }

  /** Which attempts a step turns into followers. */
  lemma StepFollowers(l: Ledger, s: State, e: Event, ip: string, was: int)
    requires Waited(l, s, ip, was)
    ensures var now := Followers(Noted(l, s, e, ip), Step(s, e), ip);
            if e.Fails? && Own(s, e, ip) && e.attempt in l.open then now == InFlight(s, ip) - {e.attempt}
            else if e.Fails? || e.Leaves? then now == Followers(l, s, ip) - {e.attempt}
            else now == Followers(l, s, ip)
  {
    hide Allowed, Fail, Pruned;
    var now, before := Followers(Noted(l, s, e, ip), Step(s, e), ip), Followers(l, s, ip);
    if e.Fails? && Own(s, e, ip) && e.attempt in l.open {
      assert now == InFlight(s, ip) - {e.attempt};
    } else if e.Fails? || e.Leaves? {
      assert now == before - {e.attempt};
    } else {
      assert now == before;
    }
  }

  lemma Without(s: set<nat>, a: nat)
    ensures |s - {a}| == if a in s then |s| - 1 else |s|
  {
    if a !in s {
      assert s - {a} == s;
    }
  }

  lemma StepCounts(l: Ledger, s: State, e: Event, ip: string, was: int)
    requires Waited(l, s, ip, was)
    ensures var n, t, before := Noted(l, s, e, ip), Step(s, e), |Followers(l, s, ip)|;
            var now := |Followers(n, t, ip)|;
            if e.Fails? && Own(s, e, ip) && e.attempt in l.open
            then n.leaders == l.leaders + 1 && now == |InFlight(s, ip)| - 1
            else n.leaders == l.leaders && now <= if e.Fails? && Own(s, e, ip) then before - 1 else before
  {
    StepFollowers(l, s, e, ip, was);
    Without(InFlight(s, ip), e.attempt);
    Without(Followers(l, s, ip), e.attempt);
  }

  lemma StepStaysFew(l: Ledger, s: State, e: Event, ip: string, times: seq<int>, was: int, c: nat)
    requires Few(l, s, ip, times, c) && Waited(l, s, ip, was) && |InFlight(s, ip)| <= c
    ensures var more := times + if e.Fails? && Own(s, e, ip) then [e.now] else [];
            Few(Noted(l, s, e, ip), Step(s, e), ip, more, c)
    ensures e.Fails? && Own(s, e, ip) && e.attempt !in l.open ==> l.leaders > 0
  {
    hide Followers, Noted, Step, Waited, InFlight, Own;
    StepCounts(l, s, e, ip, was);
    OneMore(c, l.leaders);
  }

  lemma OneMore(c: nat, n: nat)
    ensures c * (n + 1) == c * n + c
    ensures n == 0 ==> c * n == 0
  {
  }

  lemma StepTimed(l: Ledger, s: State, e: Event, ip: string, times: seq<int>, was: int)
    requires Timed(l, times, was) && was <= e.now
    requires e.Fails? && Own(s, e, ip) && e.attempt !in l.open ==> l.leaders > 0
    ensures var more := times + if e.Fails? && Own(s, e, ip) then [e.now] else [];
            Timed(Noted(l, s, e, ip), more, e.now)
  {
    hide Pruned, Allowed;
  }

  ghost predicate Accounted(l: Ledger, s: State, ip: string, times: seq<int>, now: int, c: nat) {
    Known(l, s, ip) && Paid(l, now) && Waited(l, s, ip, now) && Few(l, s, ip, times, c) && Timed(l, times, now)
  }

  lemma StepAccounted(l: Ledger, s: State, e: Event, ip: string, times: seq<int>, was: int, c: nat)
    requires Accounted(l, s, ip, times, was, c) && |InFlight(s, ip)| <= c && was <= e.now
    requires !(e.Clears? && Own(s, e, ip))
    ensures var more := times + if e.Fails? && Own(s, e, ip) then [e.now] else [];
            Accounted(Noted(l, s, e, ip), Step(s, e), ip, more, e.now, c)
  {
    hide Known, Paid, Noted, Step, Few, Timed, Waited, InFlight;
    StepStaysFew(l, s, e, ip, times, was, c);
    StepTimed(l, s, e, ip, times, was);
    StepPays(l, s, e, ip, was);
    StepWaits(l, s, e, ip, was);
  }

  lemma {:induction false} AllAccounted(evs: seq<Event>, ip: string, c: nat)
    requires Guessing(evs, ip, c)
    ensures |InFlight(After(evs), ip)| <= c
    ensures evs != [] ==> Accounted(Leaders(evs, ip), After(evs), ip, FailTimes(evs, ip), evs[|evs| - 1].now, c)
  {
    if evs == [] {
      assert InFlight(After(evs), ip) == {};
    } else {
      var front, e := evs[..|evs| - 1], evs[|evs| - 1];
      AllAccounted(front, ip, c);
      var was := if front == [] then e.now else front[|front| - 1].now;
      assert front == [] ==> Accounted(Leaders(front, ip), After(front), ip, FailTimes(front, ip), was, c);
      hide Accounted, Noted, Step, InFlight;
      StepAccounted(Leaders(front, ip), After(front), e, ip, FailTimes(front, ip), was, c);
    }
  }

  // ------------------------------------------------------------ the bound

  /** However a client with at most c attempts in flight times them, and whatever others do, N recorded
      failures take it at least 498 N / c - 3600 seconds. */
  lemma OverlapBound(evs: seq<Event>, ip: string, c: nat)
    requires Guessing(evs, ip, c) && FailTimes(evs, ip) != []
    ensures var times := FailTimes(evs, ip);
            498 * |times| <= c * (Span(times) + 3600)
  {
    hide *;
    var l, times := Leaders(evs, ip), FailTimes(evs, ip);
    FewPerLeader(evs, ip, c);
    Scaled(|times|, c, l.leaders, Span(times) + 3600);
  }

  lemma FewPerLeader(evs: seq<Event>, ip: string, c: nat)
    requires Guessing(evs, ip, c) && FailTimes(evs, ip) != []
    ensures var times := FailTimes(evs, ip);
            |times| <= c * Leaders(evs, ip).leaders && 498 * Leaders(evs, ip).leaders <= Span(times) + 3600
  {
    AllAccounted(evs, ip, c);
    hide Known, Waited, Followers, Leaders, FailTimes, After;
  }

  lemma Scaled(n: nat, c: nat, leaders: nat, d: int)
    requires n <= c * leaders && 498 * leaders <= d
    ensures 498 * n <= c * d
  {
    assert c * d == c * (498 * leaders) + c * (d - 498 * leaders);
  }

  /** One attempt at a time: N failures take at least 498 N - 3600 seconds, and that little only for
      ten failures in 1380 seconds. */
  lemma LockoutBound(evs: seq<Event>, ip: string)
    requires Guessing(evs, ip, 1) && FailTimes(evs, ip) != []
    ensures var times := FailTimes(evs, ip);
            && 498 * |times| <= Span(times) + 3600
            && (498 * |times| == Span(times) + 3600 ==> |times| == 10 && Span(times) == 1380)
  {
    AllAccounted(evs, ip, 1);
    hide Known, Waited;
  }

  // ------------------------------------------------------------ rounds of attempts at once

  /** How many attempts k rounds of c make. */
  function Guesses(c: nat, k: nat): nat {
    if k == 0 then 0 else Guesses(c, k - 1) + c
  }

  lemma {:induction false} GuessesMade(c: nat, k: nat)
    ensures Guesses(c, k) == c * k
  {
    if k > 0 {
      GuessesMade(c, k - 1);
      OneMore(c, k - 1);
    }
  }

  /** When round k of c attempts at once can begin, the first one at time 0. */
  function RoundTime(c: nat, k: nat): (t: int)
    ensures t >= 0
  {
    if k <= 1 then 0 else RoundTime(c, k - 1) + LockoutSeconds(Guesses(c, k - 1))
  }

  /** Attempts 0 to i - 1 begin at time t, after evs. */
  function Begun(evs: seq<Event>, ip: string, i: nat, t: int): seq<Event> {
    if i == 0 then evs else Begun(evs, ip, i - 1, t) + [Begins(i - 1, ip, t)]
  }

  /** The last i of c attempts fail at time t, after evs. */
  function Failing(evs: seq<Event>, c: nat, i: nat, t: int): seq<Event>
    requires i <= c
  {
    if i == 0 then evs else Failing(evs, c, i - 1, t) + [Fails(c - i, t)]
  }

  /** k rounds of c attempts at once, each as early as the limiter lets it begin. */
  function Rounds(ip: string, c: nat, k: nat): seq<Event> {
    if k == 0 then []
    else Failing(Begun(Rounds(ip, c, k - 1), ip, c, RoundTime(c, k)), c, c, RoundTime(c, k))
  }

  /** Attempts 0 to i - 1, all of ip. */
  function Crew(ip: string, i: nat): (r: map<nat, string>)
    ensures forall a: nat :: a in r <==> a < i
    ensures forall a: nat :: a in r ==> r[a] == ip
  {
    if i == 0 then map[] else Crew(ip, i - 1)[i - 1 := ip]
  }

  function Single(ip: string, n: nat, at: int): Table {
    if n == 0 then map[] else map[ip := Failed(n, at)]
  }

  predicate Latest(evs: seq<Event>, now: int) {
    forall i :: 0 <= i < |evs| ==> evs[i].now <= now
  }

  lemma {:induction false} CrewSize(t: Table, ip: string, i: nat)
    ensures |InFlight(State(t, Crew(ip, i)), ip)| == i
  {
    hide Crew;
    var all := InFlight(State(t, Crew(ip, i)), ip);
    if i == 0 {
      assert all == {};
    } else {
      CrewSize(t, ip, i - 1);
      var fewer := InFlight(State(t, Crew(ip, i - 1)), ip);
      assert i - 1 !in fewer && all == fewer + {i - 1};
    }
  }

  lemma ExtendOrder(evs: seq<Event>, e: Event)
    requires InOrder(evs) && Latest(evs, e.now)
    ensures InOrder(evs + [e]) && Latest(evs + [e], e.now)
  {
  }

  lemma Extend(evs: seq<Event>, e: Event, ip: string, c: nat)
    requires Guessing(evs, ip, c) && Latest(evs, e.now) && !e.Clears?
    requires |InFlight(Step(After(evs), e), ip)| <= c
    ensures var more := evs + [e];
            && Guessing(more, ip, c) && Latest(more, e.now) && After(more) == Step(After(evs), e)
            && FailTimes(more, ip) ==
               FailTimes(evs, ip) + if e.Fails? && Own(After(evs), e, ip) then [e.now] else []
  {
    var more := evs + [e];
    assert more[..|more| - 1] == evs && more[|more| - 1] == e;
    ExtendOrder(evs, e);
    hide InOrder, Latest, InFlight, Step, Own;
  }

  lemma CrewBegins(t: Table, ip: string, i: nat, now: int)
    requires i > 0 && Allowed(t, ip, now)
    ensures Step(State(t, Crew(ip, i - 1)), Begins(i - 1, ip, now)) == State(t, Crew(ip, i))
  {
  }

  lemma CrewFails(ip: string, i: nat, n: nat, at: int, now: int)
    requires i > 0 && now - LOGIN_FAIL_TTL_SEC <= at
    ensures var s, e := State(Single(ip, n, at), Crew(ip, i)), Fails(i - 1, now);
            Step(s, e) == State(Single(ip, n + 1, now), Crew(ip, i - 1)) && Own(s, e, ip)
  {
    assert Crew(ip, i) - {i - 1} == Crew(ip, i - 1);
    assert Pruned(Single(ip, n, at), now) == Single(ip, n, at);
  }

  lemma {:induction false} BegunOk(evs: seq<Event>, ip: string, c: nat, i: nat, t: int, table: Table)
    requires i <= c && Guessing(evs, ip, c) && Latest(evs, t)
    requires After(evs) == State(table, map[]) && Allowed(table, ip, t)
    ensures var more := Begun(evs, ip, i, t);
            && Guessing(more, ip, c) && Latest(more, t)
            && After(more) == State(table, Crew(ip, i)) && FailTimes(more, ip) == FailTimes(evs, ip)
  {
    hide After, Guessing, Latest, FailTimes, InFlight, Step, Allowed;
    if i > 0 {
      BegunOk(evs, ip, c, i - 1, t, table);
      CrewBegins(table, ip, i, t);
      CrewSize(table, ip, i);
      Extend(Begun(evs, ip, i - 1, t), Begins(i - 1, ip, t), ip, c);
    }
  }

  lemma {:induction false} FailingOk(evs: seq<Event>, ip: string, c: nat, i: nat, t: int, n: nat, at: int)
    requires i <= c && Guessing(evs, ip, c) && Latest(evs, t) && t - LOGIN_FAIL_TTL_SEC <= at
    requires After(evs) == State(Single(ip, n, at), Crew(ip, c))
    ensures var more, times, before := Failing(evs, c, i, t), FailTimes(Failing(evs, c, i, t), ip), FailTimes(evs, ip);
            && Guessing(more, ip, c) && Latest(more, t)
            && After(more) == State(Single(ip, n + i, if i == 0 then at else t), Crew(ip, c - i))
            && |times| == |before| + i && before <= times
            && (forall k :: |before| <= k < |times| ==> times[k] == t)
  {
    hide After, Guessing, Latest, FailTimes, InFlight, Step, Own, Single, Crew;
    if i > 0 {
      FailingOk(evs, ip, c, i - 1, t, n, at);
      CrewFails(ip, c - i + 1, n + i - 1, if i == 1 then at else t, t);
      CrewSize(Single(ip, n + i, t), ip, c - i);
      Extend(Failing(evs, c, i - 1, t), Fails(c - i, t), ip, c);
    }
  }

  lemma NextRound(ip: string, c: nat, k: nat)
    requires k > 0
    ensures var t, at := RoundTime(c, k), RoundTime(c, k - 1);
            at <= t <= at + 600 && Allowed(Single(ip, Guesses(c, k - 1), at), ip, t)
    ensures c > 0 && Guesses(c, k - 1) == 0 ==> RoundTime(c, k) == 0
  {
  }

  /** evs is a run of ip alone that records n failures, the first at time 0 and the last at time at. */
  ghost predicate Ran(evs: seq<Event>, ip: string, c: nat, n: nat, at: int) {
    var times := FailTimes(evs, ip);
    && Guessing(evs, ip, c) && Latest(evs, at) && After(evs) == State(Single(ip, n, at), map[])
    && |times| == n && (n > 0 ==> times[0] == 0 && times[n - 1] == at)
  }

  lemma RoundHappens(evs: seq<Event>, ip: string, c: nat, n: nat, at: int, t: int)
    requires c > 0 && Ran(evs, ip, c, n, at) && (n == 0 ==> t == 0)
    requires at <= t <= at + 600 && Allowed(Single(ip, n, at), ip, t)
    ensures Ran(Failing(Begun(evs, ip, c, t), c, c, t), ip, c, n + c, t)
  {
    LaterIsLater(evs, at, t);
    hide After, Guessing, Latest, FailTimes, Allowed, Single;
    BegunOk(evs, ip, c, c, t, Single(ip, n, at));
    FailingOk(Begun(evs, ip, c, t), ip, c, c, t, n, at);
  }

  lemma NothingRan(ip: string, c: nat)
    ensures Ran([], ip, c, 0, 0)
  {
  }

  lemma LaterIsLater(evs: seq<Event>, t: int, u: int)
    requires Latest(evs, t) && t <= u
    ensures Latest(evs, u)
  {
  }

  lemma {:induction false} RoundsRun(ip: string, c: nat, k: nat)
    requires c > 0
    ensures Ran(Rounds(ip, c, k), ip, c, Guesses(c, k), RoundTime(c, k))
  {
    hide Ran, Allowed, Failing, Begun, Single;
    if k == 0 {
      NothingRan(ip, c);
    } else {
      RoundsRun(ip, c, k - 1);
      NextRound(ip, c, k);
      hide RoundTime;
      RoundHappens(Rounds(ip, c, k - 1), ip, c, Guesses(c, k - 1), RoundTime(c, k - 1), RoundTime(c, k));
    }
  }

  /** The limiter lets k rounds of c attempts happen: they record c k failures in RoundTime(c, k) seconds. */
  lemma RoundsHappen(ip: string, c: nat, k: nat)
    requires c > 0 && k > 0
    ensures var evs, times := Rounds(ip, c, k), FailTimes(Rounds(ip, c, k), ip);
            Guessing(evs, ip, c) && |times| == c * k && times != [] && Span(times) == RoundTime(c, k)
  {
    RoundsRun(ip, c, k);
    GuessesMade(c, k);
    assert Guesses(c, k) > 0;
    hide After, Guessing, Latest, FailTimes, Single, Rounds, RoundTime, Guesses;
  }

  /** The bound for one attempt at a time is met: ten failures in 1380 seconds. */
  lemma BoundIsMet(ip: string)
    ensures var evs, times := Rounds(ip, 1, 10), FailTimes(Rounds(ip, 1, 10), ip);
            Guessing(evs, ip, 1) && |times| == 10 && Span(times) == 1380
  {
    RoundsHappen(ip, 1, 10);
    assert RoundTime(1, 3) == 0;
    assert RoundTime(1, 5) == 120;
    assert RoundTime(1, 7) == 480;
    assert RoundTime(1, 9) == 1080;
    hide Rounds, FailTimes, Guessing;
  }

  /** It fails as soon as attempts overlap: two at a time fail eight times in 360 seconds. */
  lemma PairsAreQuicker(ip: string)
    ensures var evs, times := Rounds(ip, 2, 4), FailTimes(Rounds(ip, 2, 4), ip);
            Guessing(evs, ip, 2) && |times| == 8 && Span(times) == 360
  {
    RoundsHappen(ip, 2, 4);
    assert RoundTime(2, 2) == 0;
    assert RoundTime(2, 3) == 60;
    hide Rounds, FailTimes, Guessing;
  }

  /** And eight at a time fail eight times at once. */
  lemma EightAtOnce(ip: string)
    ensures var evs, times := Rounds(ip, 8, 1), FailTimes(Rounds(ip, 8, 1), ip);
            Guessing(evs, ip, 8) && |times| == 8 && Span(times) == 0
  {
    RoundsHappen(ip, 8, 1);
  }

  /** N failures of ip within a run take 498 N - 3600 seconds or more. */
  ghost predicate Slow(evs: seq<Event>, ip: string) {
    var times := FailTimes(evs, ip);
    times != [] ==> 498 * |times| <= Span(times) + 3600
  }

  lemma AtMostMore(evs: seq<Event>, ip: string, c: nat, d: nat)
    requires AtMost(evs, ip, c) && c <= d
    ensures AtMost(evs, ip, d)
  {
  }

  /** Every run of a client is that slow exactly when its attempts never overlap. */
  lemma SlowUnlessOverlapping(ip: string, c: nat)
    ensures (forall evs :: Guessing(evs, ip, c) ==> Slow(evs, ip)) <==> c <= 1
  {
    if c <= 1 {
      forall evs | Guessing(evs, ip, c)
        ensures Slow(evs, ip)
      {
        AtMostMore(evs, ip, c, 1);
        if FailTimes(evs, ip) != [] {
          LockoutBound(evs, ip);
        }
      }
    } else {
      PairsAreQuicker(ip);
      AtMostMore(Rounds(ip, 2, 4), ip, 2, c);
      assert Guessing(Rounds(ip, 2, 4), ip, c) && !Slow(Rounds(ip, 2, 4), ip);
    }
  }
}
