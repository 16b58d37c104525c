/**
 * The session list of api/appAuthAPI.py: pruning with a cap per account, the
 * legacy single-session slot that mirrors the newest entry, and lookup by token.
 */
module Sessions {
  import opened Sequences

  const MAX_SESSIONS: nat := 10
  const ADMIN_USER_ID := "administrator"
  const MAX_REMEMBER_SESSION_DAYS := 365
  const DAY_SEC := 24 * 60 * 60

  /** The user_id field of a stored session: absent (or blank), or the text it
      normalises to, which is "" when that text is no account id. */
  datatype Owner = Unset | Id(id: string)

  datatype Session = Session(tokenHash: string, createdAt: int, expiresAt: int, owner: Owner)

  /** The legacy slot. It has no user id. */
  datatype Slot = Slot(tokenHash: string, expiresAt: int)

  const EMPTY_SLOT := Slot("", 0)

  datatype Store = Store(sessions: seq<Session>, slot: Slot, lastLoginAt: int, rememberDays: int)

  predicate IsHexDigit(c: char) {
    '0' <= c <= '9' || 'a' <= c <= 'f' || 'A' <= c <= 'F'
  }

  predicate IsSha256Hex(s: string) {
    |s| == 64 && forall i :: 0 <= i < |s| ==> IsHexDigit(s[i])
  }

  function OwnerId(s: Session): string {
    match s.owner
    case Unset => ADMIN_USER_ID
    case Id(id) => id
  }

  function SortKey(s: Session): int {
    if s.createdAt != 0 then s.createdAt else s.expiresAt
  }

  function IsOwner(u: string): Session -> bool {
    (s: Session) => OwnerId(s) == u
  }

  function IsLive(now: int): Session -> bool {
    (s: Session) => IsSha256Hex(s.tokenHash) && s.expiresAt > now && OwnerId(s) != ""
  }

  // ---------------------------------------------------------------- sorting

  /** Insertion in front of equal keys: with Sort, the stable sort of list.sort. */
  function Insert(x: Session, l: seq<Session>): (r: seq<Session>)
    ensures |r| == |l| + 1
  {
    if l == [] || SortKey(x) <= SortKey(l[0]) then [x] + l
    else [l[0]] + Insert(x, l[1..])
  }

  function Sort(l: seq<Session>): (r: seq<Session>)
    ensures |r| == |l|
  {
    if l == [] then [] else Insert(l[0], Sort(l[1..]))
  }

  predicate Sorted(l: seq<Session>) {
    forall i, j :: 0 <= i < j < |l| ==> SortKey(l[i]) <= SortKey(l[j])
  }

  lemma {:induction false} InsertMember(x: Session, l: seq<Session>)
    ensures forall y :: y in Insert(x, l) <==> y == x || y in l
  {
    if l == [] || SortKey(x) <= SortKey(l[0]) {
    } else {
      InsertMember(x, l[1..]);
      assert forall y :: y in l <==> y == l[0] || y in l[1..];
    }
  }

  lemma {:induction false} InsertSorted(x: Session, l: seq<Session>)
    requires Sorted(l)
    ensures Sorted(Insert(x, l))
  {
    if l == [] || SortKey(x) <= SortKey(l[0]) {
    } else {
      InsertSorted(x, l[1..]);
      InsertMember(x, l[1..]);
      var r := Insert(x, l[1..]);
      forall k | 0 <= k < |r|
        ensures SortKey(l[0]) <= SortKey(r[k])
      {
        assert r[k] in r;
      }
    }
  }

  lemma {:induction false} InsertMultiset(x: Session, l: seq<Session>)
    ensures multiset(Insert(x, l)) == multiset(l) + multiset{x}
  {
    if l == [] || SortKey(x) <= SortKey(l[0]) {
    } else {
      InsertMultiset(x, l[1..]);
      assert l == [l[0]] + l[1..];
    }
  }

  lemma {:induction false} SortSorts(l: seq<Session>)
    ensures Sorted(Sort(l))
  {
    if l != [] {
      SortSorts(l[1..]);
      InsertSorted(l[0], Sort(l[1..]));
    }
  }

  lemma {:induction false} SortMultiset(l: seq<Session>)
    ensures multiset(Sort(l)) == multiset(l)
  {
    if l != [] {
      SortMultiset(l[1..]);
      InsertMultiset(l[0], Sort(l[1..]));
      assert l == [l[0]] + l[1..];
    }
  }

  lemma {:induction false} SortMember(l: seq<Session>)
    ensures forall x :: x in Sort(l) <==> x in l
  {
    if l != [] {
      SortMember(l[1..]);
      InsertMember(l[0], Sort(l[1..]));
      assert forall y :: y in l <==> y == l[0] || y in l[1..];
    }
  }

  lemma {:induction false} SortOfSorted(l: seq<Session>)
    requires Sorted(l)
    ensures Sort(l) == l
  {
    if l != [] {
      SortOfSorted(l[1..]);
      assert l == [l[0]] + l[1..];
    }
  }

  lemma InsertCons(x: Session, y: Session, l: seq<Session>)
    ensures Insert(x, [y] + l) == if SortKey(x) <= SortKey(y) then [x] + ([y] + l) else [y] + Insert(x, l)
  {
    assert ([y] + l)[1..] == l;
  }

  lemma SortCons(x: Session, l: seq<Session>)
    ensures Sort([x] + l) == Insert(x, Sort(l))
  {
    assert ([x] + l)[1..] == l;
  }

  lemma InsertFront(x: Session, l: seq<Session>)
    requires forall y :: y in l ==> SortKey(x) <= SortKey(y)
    ensures Insert(x, l) == [x] + l
  {
  }

  lemma {:induction false} InsertFilter(p: Session -> bool, x: Session, l: seq<Session>)
    requires Sorted(l)
    ensures Filter(p, Insert(x, l)) == if p(x) then Insert(x, Filter(p, l)) else Filter(p, l)
  {
    if l == [] || SortKey(x) <= SortKey(l[0]) {
      FilterCons(p, x, l);
      FilterMember(p, l);
      InsertFront(x, Filter(p, l));
    } else {
      var y, rest := l[0], l[1..];
      assert l == [y] + rest;
      InsertFilter(p, x, rest);
      FilterCons(p, y, Insert(x, rest));
      FilterCons(p, y, rest);
      InsertCons(x, y, Filter(p, rest));
    }
  }

  /** Sorting commutes with selecting: this is where stability matters. */
  lemma {:induction false} SortFilter(p: Session -> bool, l: seq<Session>)
    ensures Filter(p, Sort(l)) == Sort(Filter(p, l))
  {
    if l != [] {
      var x, rest := l[0], l[1..];
      assert l == [x] + rest;
      SortFilter(p, rest);
      SortSorts(rest);
      InsertFilter(p, x, Sort(rest));
      FilterCons(p, x, rest);
      SortCons(x, Filter(p, rest));
    }
  }

  lemma FilterOfSorted(p: Session -> bool, l: seq<Session>)
    requires Sorted(l)
    ensures Sorted(Filter(p, l)) && Sort(Filter(p, l)) == Filter(p, l)
  {
    SortOfSorted(l);
    SortFilter(p, l);
    SortSorts(Filter(p, l));
  }

  // ---------------------------------------------------------------- pruning

  /** Owners in first-seen order: the key order of the buckets dict. */
  function Owners(l: seq<Session>): (r: seq<string>)
    ensures Distinct(r)
    ensures forall u :: u in r <==> exists i :: 0 <= i < |l| && OwnerId(l[i]) == u
  {
    if l == [] then []
    else
      var front := Owners(l[..|l| - 1]);
      var u := OwnerId(l[|l| - 1]);
      if u in front then front else front + [u]
  }

  /** The newest MAX_SESSIONS entries of every owner in us, bucket after bucket. */
  function Capped(keep: seq<Session>, us: seq<string>): seq<Session> {
    if us == [] then []
    else Capped(keep, us[..|us| - 1]) + LastN(Filter(IsOwner(us[|us| - 1]), keep), MAX_SESSIONS)
  }

  function Prune(l: seq<Session>, now: int): seq<Session> {
    var keep := Sort(Filter(IsLive(now), l));
    Sort(Capped(keep, Owners(keep)))
  }

  /** What pruning must keep of one owner: the last ten of the live sessions in stable key order. */
  function Newest(l: seq<Session>, now: int, u: string): seq<Session> {
    LastN(Sort(Filter(IsOwner(u), Filter(IsLive(now), l))), MAX_SESSIONS)
  }

  lemma {:induction false} CappedOf(keep: seq<Session>, us: seq<string>, u: string)
    requires Distinct(us)
    ensures Filter(IsOwner(u), Capped(keep, us))
         == if u in us then LastN(Filter(IsOwner(u), keep), MAX_SESSIONS) else []
  {
    if us != [] {
      var front, v := us[..|us| - 1], us[|us| - 1];
      assert us == front + [v];
      CappedOf(keep, front, u);
      var bucket := Filter(IsOwner(v), keep);
      var cut := LastN(bucket, MAX_SESSIONS);
      FilterConcat(IsOwner(u), Capped(keep, front), cut);
      FilterMember(IsOwner(v), keep);
      assert forall x :: x in cut ==> x in bucket;
      if u == v {
        FilterAll(IsOwner(u), cut);
        assert u !in front;
      } else {
        FilterNone(IsOwner(u), cut);
      }
    }
  }

  /** The law all others follow from: per owner, pruning keeps exactly the newest ten live sessions. */
  lemma PruneOf(l: seq<Session>, now: int, u: string)
    ensures Filter(IsOwner(u), Prune(l, now)) == Newest(l, now, u)
  {
    var live := Filter(IsLive(now), l);
    var keep := Sort(live);
    var all := Capped(keep, Owners(keep));
    SortFilter(IsOwner(u), all);
    CappedOf(keep, Owners(keep), u);
    SortFilter(IsOwner(u), live);
    var mine := Filter(IsOwner(u), keep);
    SortSorts(Filter(IsOwner(u), live));
    if u in Owners(keep) {
      SortOfSorted(LastN(mine, MAX_SESSIONS));
    } else {
      FilterMember(IsOwner(u), keep);
      FilterNone(IsOwner(u), keep);
    }
  }

  lemma NewestFacts(l: seq<Session>, now: int, u: string)
    ensures Sorted(Newest(l, now, u)) && |Newest(l, now, u)| <= MAX_SESSIONS
    ensures forall x :: x in Newest(l, now, u) ==> x in l && IsLive(now)(x) && OwnerId(x) == u
  {
    var live := Filter(IsLive(now), l);
    var mine := Filter(IsOwner(u), live);
    SortSorts(mine);
    SortMember(mine);
    FilterMember(IsOwner(u), live);
    FilterMember(IsLive(now), l);
    assert Suffix(Newest(l, now, u), Sort(mine));
  }

  lemma PruneMember(l: seq<Session>, now: int, x: Session)
    ensures x in Prune(l, now) <==> x in Newest(l, now, OwnerId(x))
    ensures x in Prune(l, now) ==> x in l && IsLive(now)(x)
  {
    PruneOf(l, now, OwnerId(x));
    FilterMember(IsOwner(OwnerId(x)), Prune(l, now));
    NewestFacts(l, now, OwnerId(x));
  }

  /** No account ever holds more than ten sessions after pruning. */
  lemma PruneCaps(l: seq<Session>, now: int, u: string)
    ensures |Filter(IsOwner(u), Prune(l, now))| <= MAX_SESSIONS
  {
    PruneOf(l, now, u);
  }

  /** An account below the cap loses nothing but its dead sessions. */
  lemma PruneKeepsLive(l: seq<Session>, now: int, u: string)
    requires |Filter(IsOwner(u), Filter(IsLive(now), l))| <= MAX_SESSIONS
    ensures multiset(Filter(IsOwner(u), Prune(l, now))) == multiset(Filter(IsOwner(u), Filter(IsLive(now), l)))
  {
    PruneOf(l, now, u);
    SortMultiset(Filter(IsOwner(u), Filter(IsLive(now), l)));
  }

  lemma LaterOfSorted(l: seq<Session>, t2: int)
    requires Sorted(l)
    ensures var again := Filter(IsLive(t2), LastN(l, MAX_SESSIONS));
            Suffix(LastN(Sort(again), MAX_SESSIONS), LastN(Filter(IsLive(t2), l), MAX_SESSIONS))
  {
    var again := Filter(IsLive(t2), LastN(l, MAX_SESSIONS));
    FilterSuffix(IsLive(t2), LastN(l, MAX_SESSIONS), l);
    FilterOfSorted(IsLive(t2), LastN(l, MAX_SESSIONS));
    hide Sort;
  }

  /** Pruning after an earlier pruning: per account an end of what one later pruning keeps. */
  lemma PruneLater(l: seq<Session>, t1: int, t2: int, u: string)
    requires t1 <= t2
    ensures Suffix(Filter(IsOwner(u), Prune(Prune(l, t1), t2)), Filter(IsOwner(u), Prune(l, t2)))
  {
    var live1 := Filter(IsOwner(u), Filter(IsLive(t1), l));
    PruneOf(Prune(l, t1), t2, u);
    FilterSwap(IsOwner(u), IsLive(t2), Prune(l, t1));
    PruneOf(l, t1, u);
    PruneOf(l, t2, u);
    SortFilter(IsLive(t2), live1);
    LiveAgain(l, t1, t2, u);
    SortSorts(live1);
    LaterOfSorted(Sort(live1), t2);
  }

  lemma LiveAgain(l: seq<Session>, t1: int, t2: int, u: string)
    requires t1 <= t2
    ensures Filter(IsLive(t2), Filter(IsOwner(u), Filter(IsLive(t1), l)))
         == Filter(IsOwner(u), Filter(IsLive(t2), l))
  {
    FilterSwap(IsLive(t2), IsOwner(u), Filter(IsLive(t1), l));
    FilterSwap(IsLive(t2), IsLive(t1), l);
    FilterMember(IsLive(t2), l);
    FilterAll(IsLive(t1), Filter(IsLive(t2), l));
  }

  /** Pruning twice at one moment keeps, account by account, the same sessions in the same order. */
  lemma PruneTwice(l: seq<Session>, now: int, u: string)
    ensures Filter(IsOwner(u), Prune(Prune(l, now), now)) == Filter(IsOwner(u), Prune(l, now))
  {
    PruneOf(Prune(l, now), now, u);
    PruneOf(l, now, u);
    NewestFacts(l, now, u);
    FilterSwap(IsOwner(u), IsLive(now), Prune(l, now));
    FilterAll(IsLive(now), Newest(l, now, u));
    SortOfSorted(Newest(l, now, u));
  }

  // ------------------------------------------------- adding one session

  function IsAfter(key: int): Session -> bool {
    (s: Session) => SortKey(s) > key
  }

  function IsUpTo(key: int): Session -> bool {
    (s: Session) => SortKey(s) <= key
  }

  lemma {:induction false} SortedSplit(l: seq<Session>, key: int)
    requires Sorted(l)
    ensures l == Filter(IsUpTo(key), l) + Filter(IsAfter(key), l)
  {
    if l != [] {
      SortedSplit(l[1..], key);
      if SortKey(l[0]) > key {
        FilterNone(IsUpTo(key), l);
        FilterAll(IsAfter(key), l);
      }
    }
  }

  lemma SortedSnoc(l: seq<Session>, n: Session)
    requires Sorted(l) && forall x :: x in l ==> SortKey(x) <= SortKey(n)
    ensures Sort(l + [n]) == l + [n]
  {
    assert forall i :: 0 <= i < |l| ==> l[i] in l;
    SortOfSorted(l + [n]);
  }

  lemma SnocUpTo(l: seq<Session>, n: Session)
    requires Sorted(l)
    ensures Filter(IsUpTo(SortKey(n)), Sort(l + [n])) == Filter(IsUpTo(SortKey(n)), l) + [n]
  {
    var up := IsUpTo(SortKey(n));
    FilterOfSorted(up, l);
    FilterMember(up, l);
    SortedSnoc(Filter(up, l), n);
    FilterConcat(up, l, [n]);
    FilterAll(up, [n]);
    SortFilter(up, l + [n]);
  }

  lemma SnocAfter(l: seq<Session>, n: Session)
    requires Sorted(l)
    ensures Filter(IsAfter(SortKey(n)), Sort(l + [n])) == Filter(IsAfter(SortKey(n)), l)
  {
    var after := IsAfter(SortKey(n));
    SortFilter(after, l + [n]);
    FilterConcat(after, l, [n]);
    FilterNone(after, [n]);
    assert Filter(after, l) + [] == Filter(after, l);
    FilterOfSorted(after, l);
  }

  lemma SortSnoc(l: seq<Session>, n: Session)
    requires Sorted(l)
    ensures Sort(l + [n]) == Filter(IsUpTo(SortKey(n)), l) + [n] + Filter(IsAfter(SortKey(n)), l)
  {
    SortSorts(l + [n]);
    SortedSplit(Sort(l + [n]), SortKey(n));
    SnocUpTo(l, n);
    SnocAfter(l, n);
  }

  /** Adding a session for one account and pruning leaves every other account's share as a plain pruning would. */
  lemma AddSparesOthers(l: seq<Session>, now: int, n: Session, v: string)
    requires OwnerId(n) != v
    ensures Filter(IsOwner(v), Prune(Prune(l, now) + [n], now)) == Filter(IsOwner(v), Prune(l, now))
  {
    var p := Prune(l, now);
    PruneOf(p + [n], now, v);
    PruneOf(p, now, v);
    PruneTwice(l, now, v);
    FilterSwap(IsOwner(v), IsLive(now), p + [n]);
    FilterSwap(IsOwner(v), IsLive(now), p);
    FilterConcat(IsOwner(v), p, [n]);
    FilterNone(IsOwner(v), [n]);
    assert Filter(IsOwner(v), p + [n]) == Filter(IsOwner(v), p);
  }

  /**
   * The new session survives the cap exactly when fewer than ten live sessions
   * of its account sort after it.
   */
  lemma AddSurvives(l: seq<Session>, now: int, n: Session)
    requires IsLive(now)(n) && n !in l
    ensures n in Prune(Prune(l, now) + [n], now)
       <==> |Filter(IsAfter(SortKey(n)), Filter(IsOwner(OwnerId(n)), Filter(IsLive(now), l)))| < MAX_SESSIONS
  {
    var u, key := OwnerId(n), SortKey(n);
    var p := Prune(l, now);
    var mine := Newest(l, now, u);
    PruneMember(p + [n], now, n);
    PruneOf(l, now, u);
    NewestFacts(l, now, u);
    // what pruning sees of this account is its pruned share and the new session
    FilterSwap(IsOwner(u), IsLive(now), p + [n]);
    FilterConcat(IsOwner(u), p, [n]);
    FilterAll(IsOwner(u), [n]);
    FilterConcat(IsLive(now), mine, [n]);
    FilterAll(IsLive(now), mine);
    FilterAll(IsLive(now), [n]);
    assert Newest(p + [n], now, u) == LastN(Sort(mine + [n]), MAX_SESSIONS);
    SortSnoc(mine, n);
    var before, after := Filter(IsUpTo(key), mine), Filter(IsAfter(key), mine);
    FilterMember(IsUpTo(key), mine);
    FilterMember(IsAfter(key), mine);
    LastOfThree(before, n, after);
    // and the sessions after it are the same ones, cut at ten
    var live := Filter(IsOwner(u), Filter(IsLive(now), l));
    SortSorts(live);
    AfterLastN(Sort(live), key);
    SortFilter(IsAfter(key), live);
  }

  lemma LastOfThree(a: seq<Session>, n: Session, b: seq<Session>)
    requires n !in a && n !in b
    ensures n in LastN(a + [n] + b, MAX_SESSIONS) <==> |b| < MAX_SESSIONS
  {
    var l := a + [n] + b;
    var r := LastN(l, MAX_SESSIONS);
    if |b| < MAX_SESSIONS {
      assert r[|r| - 1 - |b|] == l[|a|] == n;
    } else {
      assert forall i :: 0 <= i < |r| ==> r[i] == b[|b| - |r| + i];
    }
  }

  lemma LastNOfConcat(a: seq<Session>, b: seq<Session>)
    requires |b| >= MAX_SESSIONS
    ensures LastN(a + b, MAX_SESSIONS) == LastN(b, MAX_SESSIONS)
  {
    assert (a + b)[|a + b| - MAX_SESSIONS..] == b[|b| - MAX_SESSIONS..];
  }

  lemma LastNAfter(l: seq<Session>, key: int)
    requires Sorted(l) && |Filter(IsAfter(key), l)| >= MAX_SESSIONS
    ensures Filter(IsAfter(key), LastN(l, MAX_SESSIONS)) == LastN(l, MAX_SESSIONS)
  {
    var up, after := Filter(IsUpTo(key), l), Filter(IsAfter(key), l);
    SortedSplit(l, key);
    LastNOfConcat(up, after);
    var r := LastN(after, MAX_SESSIONS);
    FilterMember(IsAfter(key), l);
    assert forall x :: x in r ==> x in after;
    FilterAll(IsAfter(key), r);
  }

  lemma AfterLastN(l: seq<Session>, key: int)
    requires Sorted(l)
    ensures |Filter(IsAfter(key), LastN(l, MAX_SESSIONS))| < MAX_SESSIONS
       <==> |Filter(IsAfter(key), l)| < MAX_SESSIONS
  {
    FilterSuffix(IsAfter(key), LastN(l, MAX_SESSIONS), l);
    if |l| > MAX_SESSIONS && |Filter(IsAfter(key), l)| >= MAX_SESSIONS {
      LastNAfter(l, key);
    }
  }
  // ------------------------------------------------- the store and its legacy slot

  function RememberDays(days: int): (r: int)
    ensures 1 <= r <= MAX_REMEMBER_SESSION_DAYS
  {
    var d := if days == 0 then 30 else days;
    if d < 1 then 1 else if d > MAX_REMEMBER_SESSION_DAYS then MAX_REMEMBER_SESSION_DAYS else d
  }

  function Ttl(st: Store): int {
    RememberDays(st.rememberDays) * DAY_SEC
  }

  /** The slot read as a session: no owner, so readers take it for the administrator's. */
  function LegacyEntry(st: Store): Option<Session> {
    var Slot(hash, exp) := st.slot;
    if !IsSha256Hex(hash) || exp <= 0 then None
    else
      var created := if st.lastLoginAt != 0 then st.lastLoginAt
                     else if exp - Ttl(st) > 1 then exp - Ttl(st) else 1;
      Some(Session(hash, created, exp, Unset))
  }

  predicate HasHash(l: seq<Session>, hash: string) {
    exists i :: 0 <= i < |l| && l[i].tokenHash == hash
  }

  function Iter(st: Store): seq<Session> {
    match LegacyEntry(st)
    case None => st.sessions
    case Some(e) => if HasHash(st.sessions, e.tokenHash) then st.sessions else st.sessions + [e]
  }

  function Mirror(l: seq<Session>): Slot {
    if l == [] then EMPTY_SLOT else Slot(l[|l| - 1].tokenHash, l[|l| - 1].expiresAt)
  }

  /** Every writer of the list writes the slot with it. */
  function WithSessions(st: Store, l: seq<Session>): Store {
    st.(sessions := l, slot := Mirror(l))
  }

  function Opens(now: int, hash: string): Session -> bool {
    (s: Session) => s.expiresAt > now && IsSha256Hex(s.tokenHash) && s.tokenHash == hash
  }

  /** Lookup by token hash; None stands for a blank token. */
  function Find(st: Store, now: int, token: Option<string>): Option<Session> {
    match token
    case None => None
    case Some(hash) =>
      var hits := Filter(Opens(now, hash), Iter(st));
      if hits == [] then None else Some(hits[0])
  }

  function Entry(st: Store, now: int, hash: string, uid: string): Session {
    Session(hash, now, now + Ttl(st), Id(uid))
  }

  /** The list with one more session, pruned before and after. */
  function Extended(l: seq<Session>, now: int, entry: Session): seq<Session> {
    Prune(Prune(l, now) + [entry], now)
  }

  function Issue(st: Store, now: int, hash: string, uid: string): Store {
    WithSessions(st, Extended(Iter(st), now, Entry(st, now, hash, uid))).(lastLoginAt := now)
  }

  function NotHash(hash: string): Session -> bool {
    (s: Session) => s.tokenHash != hash
  }

  function Drop(st: Store, now: int, token: Option<string>): Store {
    match token
    case None => st
    case Some(hash) => WithSessions(st, Filter(NotHash(hash), Prune(Iter(st), now)))
  }

  function ClearAll(st: Store): Store {
    WithSessions(st, [])
  }

  function ClearOthers(st: Store, now: int, token: Option<string>): Store {
    match Find(st, now, token)
    case None => WithSessions(st, [])
    case Some(s) => WithSessions(st, [s])
  }

  /** The owner text as the clearing operations normalise it: "" when there is none. */
  function RawId(s: Session): string {
    match s.owner
    case Unset => ""
    case Id(id) => id
  }

  function NotOf(uid: string): Session -> bool {
    (s: Session) => RawId(s) != uid
  }

  function ClearUser(st: Store, now: int, uid: string): Store {
    if uid == "" then st
    else WithSessions(st, Filter(NotOf(uid), Prune(Iter(st), now)))
  }

  function NotOfExcept(uid: string, token: Option<string>): Session -> bool {
    (s: Session) =>
      (if RawId(s) == "" then ADMIN_USER_ID else RawId(s)) != uid || token == Some(s.tokenHash)
  }

  function ClearUserExcept(st: Store, now: int, uid: string, token: Option<string>): Store {
    if uid == "" then st
    else WithSessions(st, Filter(NotOfExcept(uid, token), Prune(Iter(st), now)))
  }

  datatype Op =
    | IssueOp(hash: string, uid: string)
    | DropOp(token: Option<string>)
    | ClearAllOp
    | ClearOthersOp(token: Option<string>)
    | ClearUserOp(uid: string)
    | ClearUserExceptOp(uid: string, token: Option<string>)

  function Apply(st: Store, now: int, op: Op): Store {
    match op
    case IssueOp(hash, uid) => Issue(st, now, hash, uid)
    case DropOp(token) => Drop(st, now, token)
    case ClearAllOp => ClearAll(st)
    case ClearOthersOp(token) => ClearOthers(st, now, token)
    case ClearUserOp(uid) => ClearUser(st, now, uid)
    case ClearUserExceptOp(uid, token) => ClearUserExcept(st, now, uid, token)
  }

  /** The slot is blank or mirrors a session of the list. */
  predicate MirrorOk(st: Store) {
    st.slot.tokenHash == "" || HasHash(st.sessions, st.slot.tokenHash)
  }

  lemma MirrorHidesSlot(st: Store)
    requires MirrorOk(st)
    ensures Iter(st) == st.sessions
  {
  }

  lemma MirrorStep(st: Store, now: int, op: Op)
    requires MirrorOk(st)
    ensures MirrorOk(Apply(st, now, op))
  {
    var l := Apply(st, now, op).sessions;
    if l != [] {
      assert HasHash(l, l[|l| - 1].tokenHash);
    }
  }

  /** No sequence of operations lets the ownerless slot add a session to the list readers see. */
  lemma {:induction false} MirrorRun(states: seq<Store>, ops: seq<(int, Op)>)
    requires |states| == |ops| + 1 && MirrorOk(states[0])
    requires forall i :: 0 <= i < |ops| ==> states[i + 1] == Apply(states[i], ops[i].0, ops[i].1)
    ensures MirrorOk(states[|ops|]) && Iter(states[|ops|]) == states[|ops|].sessions
    decreases |ops|
  {
    if ops != [] {
      var n := |ops| - 1;
      MirrorRun(states[..|ops|], ops[..n]);
      MirrorStep(states[n], ops[n].0, ops[n].1);
    }
    MirrorHidesSlot(states[|ops|]);
  }

  /** Where the sessions of the next list come from. */
  predicate From(next: seq<Session>, prev: seq<Session>, now: int, op: Op) {
    forall s :: s in next
      ==> s in prev || (op.IssueOp? && s.tokenHash == op.hash && s.owner == Id(op.uid) && s.createdAt == now)
  }

  lemma ExtendedFrom(l: seq<Session>, now: int, entry: Session)
    ensures forall x :: x in Extended(l, now, entry) ==> x in l || x == entry
  {
    var grown := Prune(l, now) + [entry];
    forall s | s in Prune(grown, now)
      ensures s in l || s == entry
    {
      PruneMember(grown, now, s);
      PruneMember(l, now, s);
    }
  }

  /** Every session of l is older than the moment and carries another token. */
  ghost predicate OlderThan(l: seq<Session>, now: int, hash: string) {
    forall x :: x in l ==> x.tokenHash != hash && SortKey(x) <= now
  }

  lemma ExtendedHas(l: seq<Session>, now: int, entry: Session)
    requires IsLive(now)(entry) && OlderThan(l, SortKey(entry), entry.tokenHash)
    ensures entry in Extended(l, now, entry)
  {
    var live := Filter(IsLive(now), l);
    FilterMember(IsOwner(OwnerId(entry)), live);
    FilterMember(IsLive(now), l);
    FilterNone(IsAfter(SortKey(entry)), Filter(IsOwner(OwnerId(entry)), live));
    assert entry !in l;
    AddSurvives(l, now, entry);
  }

  lemma OnlyHit(l: seq<Session>, now: int, entry: Session)
    requires entry in l && Opens(now, entry.tokenHash)(entry)
    requires forall x :: x in l && x.tokenHash == entry.tokenHash ==> x == entry
    ensures var hits := Filter(Opens(now, entry.tokenHash), l);
            hits != [] && hits[0] == entry
  {
    FilterMember(Opens(now, entry.tokenHash), l);
    var hits := Filter(Opens(now, entry.tokenHash), l);
    assert entry in hits && hits[0] in hits;
  }

  /** A token just issued is found at once: the cap never throws the new session out. */
  lemma IssuedIsFound(st: Store, now: int, u: string, hash: string)
    requires MirrorOk(st) && OlderThan(st.sessions, now, hash)
    requires now > 0 && u != "" && IsSha256Hex(hash)
    ensures Find(Issue(st, now, hash, u), now, Some(hash)) == Some(Entry(st, now, hash, u))
  {
    hide Prune;
    var entry := Entry(st, now, hash, u);
    MirrorHidesSlot(st);
    MirrorStep(st, now, IssueOp(hash, u));
    MirrorHidesSlot(Issue(st, now, hash, u));
    ExtendedHas(st.sessions, now, entry);
    ExtendedFrom(st.sessions, now, entry);
    OnlyHit(Extended(st.sessions, now, entry), now, entry);
  }

  lemma IssueFrom(st: Store, now: int, hash: string, uid: string)
    requires MirrorOk(st)
    ensures From(Issue(st, now, hash, uid).sessions, st.sessions, now, IssueOp(hash, uid))
  {
    MirrorHidesSlot(st);
    ExtendedFrom(st.sessions, now, Entry(st, now, hash, uid));
  }

  lemma FilterPruneFrom(st: Store, now: int, p: Session -> bool, op: Op)
    requires MirrorOk(st)
    ensures From(Filter(p, Prune(Iter(st), now)), st.sessions, now, op)
  {
    MirrorHidesSlot(st);
    PruneSubset(st.sessions, now);
    FilterMember(p, Prune(st.sessions, now));
  }

  /** An operation only ever keeps sessions that were there, or adds the one it issues. */
  lemma ApplyFrom(st: Store, now: int, op: Op)
    requires MirrorOk(st)
    ensures From(Apply(st, now, op).sessions, st.sessions, now, op)
  {
    match op {
      case IssueOp(hash, uid) => IssueFrom(st, now, hash, uid);
      case DropOp(token) =>
        if token.Some? {
          FilterPruneFrom(st, now, NotHash(token.value), op);
        }
      case ClearAllOp =>
      case ClearOthersOp(token) =>
        MirrorHidesSlot(st);
        FindFrom(st, now, token);
      case ClearUserOp(uid) => FilterPruneFrom(st, now, NotOf(uid), op);
      case ClearUserExceptOp(uid, token) => FilterPruneFrom(st, now, NotOfExcept(uid, token), op);
    }
  }

  lemma PruneSubset(l: seq<Session>, now: int)
    ensures forall x :: x in Prune(l, now) ==> x in l && IsLive(now)(x)
  {
    forall x | x in Prune(l, now)
      ensures x in l && IsLive(now)(x)
    {
      PruneMember(l, now, x);
    }
  }

  lemma FindFrom(st: Store, now: int, token: Option<string>)
    ensures var r := Find(st, now, token);
            r.Some? ==> token == Some(r.value.tokenHash) && r.value in Iter(st) && r.value.expiresAt > now
    ensures Find(st, now, token).None? && token.Some?
        ==> forall s :: s in Iter(st) ==> !Opens(now, token.value)(s)
  {
    if token.Some? {
      var hits := Filter(Opens(now, token.value), Iter(st));
      FilterMember(Opens(now, token.value), Iter(st));
      assert hits != [] ==> hits[0] in hits;
    }
  }

  /** Clearing a managed account leaves it no session at all. */
  lemma ClearUserClears(st: Store, now: int, uid: string)
    requires uid != "" && uid != ADMIN_USER_ID
    ensures forall s :: s in ClearUser(st, now, uid).sessions ==> OwnerId(s) != uid
  {
    FilterMember(NotOf(uid), Prune(Iter(st), now));
  }

  /** Clearing one account leaves every other account's share as a plain pruning would. */
  lemma ClearSparesOthers(st: Store, now: int, uid: string, token: Option<string>, v: string)
    requires uid != "" && v != uid && v != ""
    ensures Filter(IsOwner(v), ClearUser(st, now, uid).sessions) == Filter(IsOwner(v), Prune(Iter(st), now))
    ensures Filter(IsOwner(v), ClearUserExcept(st, now, uid, token).sessions)
         == Filter(IsOwner(v), Prune(Iter(st), now))
  {
    hide Prune, Iter;
    var l := Prune(Iter(st), now);
    FilterMember(IsOwner(v), l);
    FilterSwap(IsOwner(v), NotOf(uid), l);
    FilterAll(NotOf(uid), Filter(IsOwner(v), l));
    FilterSwap(IsOwner(v), NotOfExcept(uid, token), l);
    FilterAll(NotOfExcept(uid, token), Filter(IsOwner(v), l));
  }
}
