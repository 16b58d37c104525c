/**
 * The order pruning leaves, which decides what the legacy slot mirrors: when a
 * second pruning keeps it, an input on which it does not, and sessions without
 * creation time, which push a new one out.
 */
module SessionOrder {
  import opened Sequences
  import opened Sessions
  import opened Samples

  // ------------------------------------------------------------ the same sessions

  lemma {:induction false} FilterCount(p: Session -> bool, l: seq<Session>, x: Session)
    requires p(x)
    ensures multiset(Filter(p, l))[x] == multiset(l)[x]
  {
    if l != [] {
      FilterCount(p, l[1..], x);
      assert l == [l[0]] + l[1..];
    }
  }

  /** Whatever the order, pruning again at the same time keeps exactly the same sessions. */
  lemma PruneTwiceSame(l: seq<Session>, now: int)
    ensures multiset(Prune(Prune(l, now), now)) == multiset(Prune(l, now))
  {
    hide Prune;
    var p := Prune(l, now);
    forall x: Session ensures multiset(Prune(p, now))[x] == multiset(p)[x] {
      var mine := IsOwner(OwnerId(x));
      FilterCount(mine, p, x);
      FilterCount(mine, Prune(p, now), x);
      PruneTwice(l, now, OwnerId(x));
    }
  }

  // ------------------------------------------------------------ the same order

  lemma {:induction false} OwnersAbsorb(a: seq<Session>, b: seq<Session>)
    requires forall x :: x in b ==> OwnerId(x) in Owners(a)
    ensures Owners(a + b) == Owners(a)
  {
    if b == [] {
      assert a + b == a;
    } else {
      var front := b[..|b| - 1];
      OwnersAbsorb(a, front);
      assert (a + b)[..|a + b| - 1] == a + front;
      assert b[|b| - 1] in b;
    }
  }

  lemma OwnersSnoc(a: seq<Session>, x: Session)
    requires OwnerId(x) !in Owners(a)
    ensures Owners(a + [x]) == Owners(a) + [OwnerId(x)]
  {
    assert (a + [x])[..|a|] == a;
  }

  /** Where the n-th owner comes first. */
  lemma {:induction false} OwnersAt(l: seq<Session>, n: nat) returns (t: nat)
    requires n < |Owners(l)|
    ensures t < |l| && Owners(l[..t]) == Owners(l)[..n] && OwnerId(l[t]) == Owners(l)[n]
  {
    var front := l[..|l| - 1];
    if n < |Owners(front)| {
      t := OwnersAt(front, n);
      assert front[..t] == l[..t];
    } else {
      t := |l| - 1;
    }
  }

  lemma InsertConcat(x: Session, a: seq<Session>, b: seq<Session>)
    requires b == [] || SortKey(x) <= SortKey(b[0])
    ensures Insert(x, a + b) == Insert(x, a) + b
  {
    if a == [] {
      assert a + b == b;
    } else if SortKey(x) > SortKey(a[0]) {
      InsertConcat(x, a[1..], b);
      assert (a + b)[1..] == a[1..] + b;
    }
  }

  /** Sorting leaves an end alone that is sorted and no less than the rest. */
  lemma {:induction false} SortTail(a: seq<Session>, b: seq<Session>)
    requires Sorted(b) && forall x, y :: x in a && y in b ==> SortKey(x) <= SortKey(y)
    ensures Sort(a + b) == Sort(a) + b
  {
    if a == [] {
      assert a + b == b;
      SortOfSorted(b);
    } else {
      assert (a + b)[1..] == a[1..] + b;
      SortTail(a[1..], b);
      assert b != [] ==> b[0] in b;
      InsertConcat(a[0], Sort(a[1..]), b);
    }
  }

  ghost predicate UnderCap(l: seq<Session>) {
    forall u :: |Filter(IsOwner(u), l)| <= MAX_SESSIONS
  }

  /** Under the cap the buckets hold everything their owners have. */
  lemma CappedHolds(keep: seq<Session>, us: seq<string>, x: Session)
    requires Distinct(us) && UnderCap(keep)
    ensures x in Capped(keep, us) <==> x in keep && OwnerId(x) in us
  {
    CappedOf(keep, us, OwnerId(x));
    FilterMember(IsOwner(OwnerId(x)), Capped(keep, us));
    FilterMember(IsOwner(OwnerId(x)), keep);
  }

  /** The sorted buckets so far, cut where the next owner begins. */
  lemma SplitAt(c: seq<Session>, b: seq<Session>)
    requires Sorted(b) && b != []
    ensures var m := SortKey(b[0]);
            var x, y := Filter(IsUpTo(m), c), Filter(IsUpTo(m), b);
            && y != [] && y[0] == b[0]
            && Sort(c) == Sort(x) + Filter(IsAfter(m), Sort(c))
            && Sort(c + b) == Sort(x) + y + Filter(IsAfter(m), Sort(c + b))
  {
    hide Sort;
    var m := SortKey(b[0]);
    var up := IsUpTo(m);
    var x, y := Filter(up, c), Filter(up, b);
    SortSorts(c);
    SortedSplit(Sort(c), m);
    SortFilter(up, c);
    SortSorts(c + b);
    SortedSplit(Sort(c + b), m);
    SortFilter(up, c + b);
    FilterConcat(up, c, b);
    FilterMember(up, c);
    FilterMember(up, b);
    FilterOfSorted(up, b);
    assert forall s :: s in b ==> SortKey(s) >= m;
    SortTail(x, y);
  }

  lemma FirstOfBucket(keep: seq<Session>, t: nat, v: string)
    requires t < |keep| && OwnerId(keep[t]) == v && v !in Owners(keep[..t])
    ensures Filter(IsOwner(v), keep) != [] && Filter(IsOwner(v), keep)[0] == keep[t]
  {
    assert keep == keep[..t] + keep[t..];
    FilterConcat(IsOwner(v), keep[..t], keep[t..]);
    FilterNone(IsOwner(v), keep[..t]);
    assert Filter(IsOwner(v), keep[t..])[0] == keep[t];
  }

  /** Every owner before the n-th has a session no later than the n-th owner's first. */
  lemma EarlierOwner(keep: seq<Session>, n: nat, u: string) returns (x: Session)
    requires Sorted(keep) && n < |Owners(keep)| && u in Owners(keep)[..n]
    ensures x in keep && OwnerId(x) == u
    ensures var b := Filter(IsOwner(Owners(keep)[n]), keep); b != [] && SortKey(x) <= SortKey(b[0])
  {
    hide Filter;
    var v := Owners(keep)[n];
    var t := OwnersAt(keep, n);
    assert v !in Owners(keep)[..n];
    FirstOfBucket(keep, t, v);
    assert u in Owners(keep[..t]);
    var i :| 0 <= i < t && OwnerId(keep[..t][i]) == u;
    x := keep[i];
  }

  lemma CappedNext(keep: seq<Session>, us: seq<string>, n: nat)
    requires n < |us| && UnderCap(keep)
    ensures Capped(keep, us[..n + 1]) == Capped(keep, us[..n]) + Filter(IsOwner(us[n]), keep)
  {
    assert us[..n + 1][..n] == us[..n];
  }

  /** The part of the buckets up to the next owner's first session has all owners before it. */
  lemma FrontOwners(keep: seq<Session>, n: nat, c: seq<Session>, x: seq<Session>)
    requires Sorted(keep) && UnderCap(keep) && n < |Owners(keep)|
    requires c == Capped(keep, Owners(keep)[..n]) && Owners(Sort(c)) == Owners(keep)[..n]
    requires Filter(IsOwner(Owners(keep)[n]), keep) != []
    requires x == Filter(IsUpTo(SortKey(Filter(IsOwner(Owners(keep)[n]), keep)[0])), c)
    requires Sort(c) == Sort(x) + Filter(IsAfter(SortKey(Filter(IsOwner(Owners(keep)[n]), keep)[0])), Sort(c))
    ensures Owners(Sort(x)) == Owners(keep)[..n]
  {
    hide Sort, Capped;
    var us := Owners(keep);
    var m := SortKey(Filter(IsOwner(us[n]), keep)[0]);
    SortMember(x);
    SortMember(c);
    FilterMember(IsUpTo(m), c);
    FilterMember(IsAfter(m), Sort(c));
    forall u | u in us[..n] ensures u in Owners(Sort(x)) {
      var s := EarlierOwner(keep, n, u);
      CappedHolds(keep, us[..n], s);
      assert s in Sort(x);
    }
    forall s | s in Filter(IsAfter(m), Sort(c)) ensures OwnerId(s) in us[..n] {
      CappedHolds(keep, us[..n], s);
    }
    OwnersAbsorb(Sort(x), Filter(IsAfter(m), Sort(c)));
  }

  /** One more bucket. */
  lemma CappedOwnersStep(keep: seq<Session>, us: seq<string>, n: nat)
    requires Sorted(keep) && UnderCap(keep) && us == Owners(keep) && n < |us|
    requires Owners(Sort(Capped(keep, us[..n]))) == us[..n]
    ensures Owners(Sort(Capped(keep, us[..n]) + Filter(IsOwner(us[n]), keep))) == us[..n + 1]
  {
    hide Sort, Owners, Capped, Distinct;
    var c, b := Capped(keep, us[..n]), Filter(IsOwner(us[n]), keep);
    BucketHas(keep, us[n]);
    FilterOfSorted(IsOwner(us[n]), keep);
    SplitAt(c, b);
    var m := SortKey(b[0]);
    var x, y, z := Filter(IsUpTo(m), c), Filter(IsUpTo(m), b), Filter(IsAfter(m), Sort(c + b));
    FrontOwners(keep, n, c, x);
    BucketOwners(keep, us, n, m);
    DistinctFront(us, n);
    assert y[0] in y && us[n] in us[..n + 1];
    TailOwners(Sort(x), y, z, us[..n + 1]);
  }

  lemma BucketOwners(keep: seq<Session>, us: seq<string>, n: nat, m: int)
    requires UnderCap(keep) && us == Owners(keep) && n < |us|
    ensures var b := Filter(IsOwner(us[n]), keep);
            var y, z := Filter(IsUpTo(m), b), Filter(IsAfter(m), Sort(Capped(keep, us[..n]) + b));
            && (forall s :: s in y ==> OwnerId(s) == us[n])
            && (forall s :: s in z ==> OwnerId(s) in us[..n + 1])
  {
    var c, b := Capped(keep, us[..n]), Filter(IsOwner(us[n]), keep);
    FilterMember(IsOwner(us[n]), keep);
    BucketBefore(keep, us, n);
    hide Sort, Owners, Capped, UnderCap, Filter;
    assert us[..n + 1] == us[..n] + [us[n]];
    FilterMember(IsUpTo(m), b);
    FilterMember(IsAfter(m), Sort(c + b));
    SortMember(c + b);
  }

  lemma DistinctFront(us: seq<string>, n: nat)
    requires Distinct(us) && n < |us|
    ensures Distinct(us[..n + 1]) && us[..n + 1] == us[..n] + [us[n]]
  {
  }

  lemma BucketBefore(keep: seq<Session>, us: seq<string>, n: nat)
    requires UnderCap(keep) && us == Owners(keep) && n < |us|
    ensures forall s :: s in Capped(keep, us[..n]) ==> OwnerId(s) in us[..n]
  {
    forall s | s in Capped(keep, us[..n]) ensures OwnerId(s) in us[..n] { CappedHolds(keep, us[..n], s); }
  }

  /** Sorted buckets name their owners in the order in which the buckets were filled. */
  lemma {:induction false} CappedOwners(keep: seq<Session>, n: nat)
    requires Sorted(keep) && UnderCap(keep) && n <= |Owners(keep)|
    ensures Owners(Sort(Capped(keep, Owners(keep)[..n]))) == Owners(keep)[..n]
  {
    if n == 0 {
      assert Capped(keep, Owners(keep)[..0]) == [];
      NoOwners();
    } else {
      hide Sort, Capped, Owners;
      CappedOwners(keep, n - 1);
      CappedNext(keep, Owners(keep), n - 1);
      CappedOwnersStep(keep, Owners(keep), n - 1);
    }
  }

  lemma NoOwners()
    ensures Owners(Sort([])) == []
  {
  }

  lemma BucketHas(keep: seq<Session>, v: string)
    requires v in Owners(keep)
    ensures Filter(IsOwner(v), keep) != []
  {
    var i :| 0 <= i < |keep| && OwnerId(keep[i]) == v;
    FilterMember(IsOwner(v), keep);
    assert keep[i] in keep;
  }

  lemma TailOwners(a: seq<Session>, y: seq<Session>, z: seq<Session>, us: seq<string>)
    requires us != [] && Distinct(us) && Owners(a) == us[..|us| - 1] && y != [] && OwnerId(y[0]) == us[|us| - 1]
    requires forall s :: s in y || s in z ==> OwnerId(s) in us
    ensures Owners(a + y + z) == us
  {
    hide Owners;
    assert us == us[..|us| - 1] + [us[|us| - 1]];
    OwnersSnoc(a, y[0]);
    OwnersAbsorb(a + [y[0]], y[1..] + z);
    assert a + y + z == (a + [y[0]]) + (y[1..] + z);
  }

  lemma {:induction false} CappedSame(a: seq<Session>, b: seq<Session>, us: seq<string>)
    requires forall u :: LastN(Filter(IsOwner(u), a), MAX_SESSIONS) == LastN(Filter(IsOwner(u), b), MAX_SESSIONS)
    ensures Capped(a, us) == Capped(b, us)
  {
    if us != [] {
      CappedSame(a, b, us[..|us| - 1]);
    }
  }

  lemma LiveUnderCap(l: seq<Session>, now: int)
    requires UnderCap(Filter(IsLive(now), l))
    ensures UnderCap(Sort(Filter(IsLive(now), l)))
  {
    var live := Filter(IsLive(now), l);
    forall u ensures |Filter(IsOwner(u), Sort(live))| <= MAX_SESSIONS {
      SortFilter(IsOwner(u), live);
      assert |Sort(Filter(IsOwner(u), live))| == |Filter(IsOwner(u), live)|;
    }
  }

  /** What a second pruning works on. */
  lemma PrunedIsSorted(l: seq<Session>, now: int)
    ensures Sort(Filter(IsLive(now), Prune(l, now))) == Prune(l, now)
  {
    var keep := Sort(Filter(IsLive(now), l));
    forall x | x in Prune(l, now) ensures IsLive(now)(x) { PruneMember(l, now, x); }
    FilterAll(IsLive(now), Prune(l, now));
    SortSorts(Capped(keep, Owners(keep)));
    SortOfSorted(Prune(l, now));
  }

  /** With at most ten live sessions per account a second pruning changes nothing, order included. */
  lemma PruneSettles(l: seq<Session>, now: int)
    requires UnderCap(Filter(IsLive(now), l))
    ensures Prune(Prune(l, now), now) == Prune(l, now)
  {
    var live := Filter(IsLive(now), l);
    var keep, p := Sort(live), Prune(l, now);
    SortSorts(live);
    LiveUnderCap(l, now);
    CappedOwners(keep, |Owners(keep)|);
    assert Owners(keep)[..|Owners(keep)|] == Owners(keep);
    assert Owners(p) == Owners(keep);
    PrunedIsSorted(l, now);
    forall u ensures LastN(Filter(IsOwner(u), p), MAX_SESSIONS) == LastN(Filter(IsOwner(u), keep), MAX_SESSIONS) {
      PruneOf(l, now, u);
      SortFilter(IsOwner(u), live);
    }
    hide Sort, Capped;
    CappedSame(p, keep, Owners(keep));
  }

  // ------------------------------------------------------------ exactly when the order stays

  function HasKey(key: int): Session -> bool {
    (s: Session) => SortKey(s) == key
  }

  /** Sorted lists are equal that agree key by key. */
  lemma {:induction false} EqualByKeys(a: seq<Session>, b: seq<Session>)
    requires Sorted(a) && Sorted(b) && forall key :: Filter(HasKey(key), a) == Filter(HasKey(key), b)
    ensures a == b
  {
    if a == [] || b == [] {
      SomeKey(a);
      SomeKey(b);
    } else {
      SameHead(a, b);
      forall key ensures Filter(HasKey(key), a[1..]) == Filter(HasKey(key), b[1..]) {
        TailFilter(HasKey(key), a);
        TailFilter(HasKey(key), b);
        assert Filter(HasKey(key), a) == Filter(HasKey(key), b);
      }
      EqualByKeys(a[1..], b[1..]);
      assert a == [a[0]] + a[1..] && b == [b[0]] + b[1..];
    }
  }

  lemma SomeKey(l: seq<Session>)
    ensures l != [] ==> Filter(HasKey(SortKey(l[0])), l) != []
  {
  }

  lemma TailFilter(p: Session -> bool, l: seq<Session>)
    requires l != []
    ensures Filter(p, l[1..]) == if p(l[0]) then Filter(p, l)[1..] else Filter(p, l)
  {
  }

  lemma SameHead(a: seq<Session>, b: seq<Session>)
    requires Sorted(a) && Sorted(b) && forall key :: Filter(HasKey(key), a) == Filter(HasKey(key), b)
    requires a != [] && b != []
    ensures a[0] == b[0]
  {
    FilterMember(HasKey(SortKey(a[0])), a);
    FilterMember(HasKey(SortKey(a[0])), b);
    FilterMember(HasKey(SortKey(b[0])), a);
    FilterMember(HasKey(SortKey(b[0])), b);
    assert a[0] in Filter(HasKey(SortKey(a[0])), a) && b[0] in Filter(HasKey(SortKey(b[0])), b);
    assert Filter(HasKey(SortKey(a[0])), a)[0] == a[0] && Filter(HasKey(SortKey(b[0])), b)[0] == b[0];
  }

  /** The sessions at one key, account after account. */
  function AtKey(p: seq<Session>, us: seq<string>, key: int): seq<Session> {
    if us == [] then []
    else AtKey(p, us[..|us| - 1], key) + Filter(HasKey(key), Filter(IsOwner(us[|us| - 1]), p))
  }

  /** The account has a session at that key. */
  function KeptAt(p: seq<Session>, key: int): string -> bool {
    (u: string) => Filter(HasKey(key), Filter(IsOwner(u), p)) != []
  }

  lemma {:induction false} CappedAtKey(keep: seq<Session>, p: seq<Session>, us: seq<string>, key: int)
    requires forall u :: LastN(Filter(IsOwner(u), keep), MAX_SESSIONS) == Filter(IsOwner(u), p)
    ensures Filter(HasKey(key), Capped(keep, us)) == AtKey(p, us, key)
  {
    if us != [] {
      CappedAtKey(keep, p, us[..|us| - 1], key);
      FilterConcat(HasKey(key), Capped(keep, us[..|us| - 1]), LastN(Filter(IsOwner(us[|us| - 1]), keep), MAX_SESSIONS));
    }
  }

  lemma SortAtKey(l: seq<Session>, key: int)
    ensures Filter(HasKey(key), Sort(l)) == Filter(HasKey(key), l)
  {
    SortFilter(HasKey(key), l);
    FilterMember(HasKey(key), l);
    OneKeySorted(Filter(HasKey(key), l), key);
    SortOfSorted(Filter(HasKey(key), l));
  }

  lemma OneKeySorted(l: seq<Session>, key: int)
    requires forall s :: s in l ==> SortKey(s) == key
    ensures Sorted(l)
  {
  }

  lemma MineAtKey(p: seq<Session>, u: string, key: int)
    ensures forall s :: s in Filter(HasKey(key), Filter(IsOwner(u), p)) ==> OwnerId(s) == u
  {
    FilterMember(IsOwner(u), p);
    FilterMember(HasKey(key), Filter(IsOwner(u), p));
  }

  lemma OneMoreOwner(a: seq<Session>, mine: seq<Session>, u: string)
    requires u !in Owners(a) && forall s :: s in mine ==> OwnerId(s) == u
    ensures Owners(a + mine) == Owners(a) + if mine != [] then [u] else []
  {
    hide Owners;
    if mine != [] {
      assert mine[0] in mine;
      OwnersSnoc(a, mine[0]);
      OwnersAbsorb(a + [mine[0]], mine[1..]);
      assert a + mine == (a + [mine[0]]) + mine[1..];
    } else {
      assert a + mine == a;
    }
  }

  lemma AtKeySnoc(p: seq<Session>, us: seq<string>, u: string, key: int)
    ensures AtKey(p, us + [u], key) == AtKey(p, us, key) + Filter(HasKey(key), Filter(IsOwner(u), p))
  {
    assert (us + [u])[..|us|] == us;
  }

  lemma FilterSnoc(q: string -> bool, us: seq<string>, u: string)
    ensures Filter(q, us + [u]) == Filter(q, us) + if q(u) then [u] else []
  {
    FilterConcat(q, us, [u]);
    FilterCons(q, u, []);
    assert [u] + [] == [u];
  }

  lemma NotFiltered(q: string -> bool, us: seq<string>, u: string)
    requires u !in us
    ensures u !in Filter(q, us)
  {
    FilterMember(q, us);
  }

  lemma LastOwner(us: seq<string>)
    requires us != [] && Distinct(us)
    ensures us == us[..|us| - 1] + [us[|us| - 1]] && us[|us| - 1] !in us[..|us| - 1] && Distinct(us[..|us| - 1])
  {
  }

  /** Only the accounts with a session at the key count, and they can be read off in order. */
  lemma {:induction false} AtKeyOwners(p: seq<Session>, us: seq<string>, key: int)
    requires Distinct(us)
    ensures AtKey(p, us, key) == AtKey(p, Filter(KeptAt(p, key), us), key)
    ensures Owners(AtKey(p, us, key)) == Filter(KeptAt(p, key), us)
  {
    if us != [] {
      hide Distinct, Filter, AtKey, Owners, KeptAt;
      LastOwner(us);
      AtKeyOwners(p, us[..|us| - 1], key);
      AtKeyOwnersSnoc(p, us[..|us| - 1], us[|us| - 1], key);
    }
  }

  lemma AtKeyOwnersSnoc(p: seq<Session>, front: seq<string>, u: string, key: int)
    requires u !in front
    requires AtKey(p, front, key) == AtKey(p, Filter(KeptAt(p, key), front), key)
    requires Owners(AtKey(p, front, key)) == Filter(KeptAt(p, key), front)
    ensures AtKey(p, front + [u], key) == AtKey(p, Filter(KeptAt(p, key), front + [u]), key)
    ensures Owners(AtKey(p, front + [u], key)) == Filter(KeptAt(p, key), front + [u])
  {
    hide Filter, AtKey, Owners;
    var mine, r := Filter(HasKey(key), Filter(IsOwner(u), p)), Filter(KeptAt(p, key), front);
    NotFiltered(KeptAt(p, key), front, u);
    FilterSnoc(KeptAt(p, key), front, u);
    AtKeySnoc(p, front, u, key);
    AtKeySnoc(p, r, u, key);
    MineAtKey(p, u, key);
    OneMoreOwner(AtKey(p, front, key), mine, u);
    assert r + [] == r && AtKey(p, front, key) + [] == AtKey(p, front, key);
  }

  /** Accounts with a kept session at the same time come in the same order by their first live session as by
      their first kept one. */
  ghost predicate TiesInOrder(l: seq<Session>, now: int) {
    var p := Prune(l, now);
    forall key :: Filter(KeptAt(p, key), Owners(Sort(Filter(IsLive(now), l)))) == Filter(KeptAt(p, key), Owners(p))
  }

  /** What both prunings have at one key. */
  lemma BothAtKey(l: seq<Session>, now: int, key: int)
    ensures var p := Prune(l, now);
            && Filter(HasKey(key), p) == AtKey(p, Owners(Sort(Filter(IsLive(now), l))), key)
            && Filter(HasKey(key), Prune(p, now)) == AtKey(p, Owners(p), key)
  {
    var p, keep := Prune(l, now), Sort(Filter(IsLive(now), l));
    forall u
      ensures LastN(Filter(IsOwner(u), keep), MAX_SESSIONS) == Filter(IsOwner(u), p)
      ensures LastN(Filter(IsOwner(u), p), MAX_SESSIONS) == Filter(IsOwner(u), p)
    {
      PruneOf(l, now, u);
      SortFilter(IsOwner(u), Filter(IsLive(now), l));
    }
    PrunedIsSorted(l, now);
    hide Sort, Capped;
    CappedAtKey(keep, p, Owners(keep), key);
    CappedAtKey(p, p, Owners(p), key);
    SortAtKey(Capped(keep, Owners(keep)), key);
    SortAtKey(Capped(p, Owners(p)), key);
  }

  lemma PruneSorts(l: seq<Session>, now: int)
    ensures Sorted(Prune(l, now))
  {
    var keep := Sort(Filter(IsLive(now), l));
    SortSorts(Capped(keep, Owners(keep)));
  }

  /** A second pruning changes nothing, order included, exactly when such ties are in order. */
  lemma PruneTwiceInOrder(l: seq<Session>, now: int)
    ensures Prune(Prune(l, now), now) == Prune(l, now) <==> TiesInOrder(l, now)
  {
    hide Prune, Sort, KeptAt, Filter, AtKey;
    var p := Prune(l, now);
    var us, vs := Owners(Sort(Filter(IsLive(now), l))), Owners(p);
    hide Owners;
    forall key
      ensures Filter(HasKey(key), p) == AtKey(p, us, key) && Filter(HasKey(key), Prune(p, now)) == AtKey(p, vs, key)
      ensures AtKey(p, us, key) == AtKey(p, vs, key) <==> Filter(KeptAt(p, key), us) == Filter(KeptAt(p, key), vs)
    {
      BothAtKey(l, now, key);
      AtKeyOwners(p, us, key);
      AtKeyOwners(p, vs, key);
    }
    if TiesInOrder(l, now) {
      PruneSorts(l, now);
      PruneSorts(p, now);
      forall key ensures Filter(HasKey(key), Prune(p, now)) == Filter(HasKey(key), p) {
        assert Filter(KeptAt(p, key), us) == Filter(KeptAt(p, key), vs);
      }
      EqualByKeys(Prune(p, now), p);
    }
    if Prune(p, now) == p {
      forall key ensures Filter(KeptAt(p, key), us) == Filter(KeptAt(p, key), vs) {
        assert AtKey(p, us, key) == AtKey(p, vs, key);
      }
    }
  }

  // ------------------------------------------------------------ an input on which the order changes

  function At(c: char, key: int, owner: string): Session {
    Session(Hash(c), key, key + 100, Id(owner))
  }

  function Digit(i: nat): char
    requires i < 10
  {
    ('0' as int + i) as char
  }

  /** Ten sessions of one account at the same time, each with its own token. */
  function Ten(): (r: seq<Session>)
    ensures |r| == 10 && forall i :: 0 <= i < 10 ==> r[i] == At(Digit(i), 5, "a")
  {
    seq(10, i requires 0 <= i < 10 => At(Digit(i), 5, "a"))
  }

  lemma AtLive(c: char, key: nat, owner: string)
    requires owner != "" && IsHexDigit(c)
    ensures IsLive(6)(At(c, key, owner))
  {
    HashIsHex(c);
  }

  lemma AllLive()
    ensures forall s :: s in Mixed() ==> IsLive(6)(s)
  {
    hide IsLive;
    AtLive('a', 1, "a");
    AtLive('b', 2, "b");
    AtLive('c', 5, "b");
    forall i: nat | i < 10 ensures IsLive(6)(At(Digit(i), 5, "a")) {
      AtLive(Digit(i), 5, "a");
    }
  }

  lemma KeptAsIs(l: seq<Session>, now: int)
    requires Sorted(l) && forall s :: s in l ==> IsLive(now)(s)
    ensures Sort(Filter(IsLive(now), l)) == l
  {
    FilterAll(IsLive(now), l);
    SortOfSorted(l);
  }

  /** Account a at 1 and ten times at 5, account b at 2 and 5. */
  function Mixed(): seq<Session> {
    [EARLY, SECOND] + Ten() + [LATE]
  }

  const EARLY := At('a', 1, "a")
  const SECOND := At('b', 2, "b")
  const LATE := At('c', 5, "b")

  /** No two sessions carry the same token. */
  predicate DistinctTokens(l: seq<Session>) {
    forall i, j :: 0 <= i < j < |l| ==> l[i].tokenHash != l[j].tokenHash
  }

  lemma MixedDistinct()
    ensures DistinctTokens(Mixed())
  {
    var l := Mixed();
    forall i, j | 0 <= i < j < |l| ensures l[i].tokenHash[0] != l[j].tokenHash[0] {
      assert 2 <= i < 12 ==> l[i] == Ten()[i - 2];
      assert 2 <= j < 12 ==> l[j] == Ten()[j - 2];
    }
  }

  lemma OwnersOfPair(x: Session, y: Session)
    requires OwnerId(x) != OwnerId(y)
    ensures Owners([x, y]) == [OwnerId(x), OwnerId(y)]
  {
    assert [x, y] == ([] + [x]) + [y];
    assert Owners([]) == [];
    OwnersSnoc([], x);
    assert [] + [x] == [x];
    OwnersSnoc([x], y);
  }

  lemma CappedTwo(keep: seq<Session>, u: string, v: string)
    ensures Capped(keep, [u, v])
         == LastN(Filter(IsOwner(u), keep), MAX_SESSIONS) + LastN(Filter(IsOwner(v), keep), MAX_SESSIONS)
  {
    assert [u, v][..1] == [u] && [u][..0] == [];
    assert Capped(keep, [u]) == LastN(Filter(IsOwner(u), keep), MAX_SESSIONS);
  }

  /** The shares of both accounts in a list that mixes them in one of three ways. */
  lemma SharesOf(front: seq<Session>, mid: seq<Session>, back: seq<Session>, u: string)
    ensures Filter(IsOwner(u), front + mid + back)
         == Filter(IsOwner(u), front) + Filter(IsOwner(u), mid) + Filter(IsOwner(u), back)
  {
    FilterConcat(IsOwner(u), front + mid, back);
    FilterConcat(IsOwner(u), front, mid);
  }

  lemma FilterPair(p: Session -> bool, x: Session, y: Session)
    ensures Filter(p, [x, y]) == (if p(x) then [x] else []) + (if p(y) then [y] else [])
  {
    FilterCons(p, x, [y]);
    FilterCons(p, y, []);
    assert [x] + [y] == [x, y] && [y] + [] == [y];
  }

  lemma FilterOne(p: Session -> bool, y: Session)
    ensures Filter(p, [y]) == if p(y) then [y] else []
  {
    FilterCons(p, y, []);
    assert [y] + [] == [y];
  }

  /** What an account has of a list that mixes those ten with others. */
  lemma ShareOf(x: seq<Session>, w: Session, u: string)
    ensures Filter(IsOwner(u), x + Ten() + [w])
         == Filter(IsOwner(u), x) + (if u == "a" then Ten() else []) + (if OwnerId(w) == u then [w] else [])
  {
    hide Filter;
    SharesOf(x, Ten(), [w], u);
    if u == "a" { FilterAll(IsOwner(u), Ten()); } else { FilterNone(IsOwner(u), Ten()); }
    FilterOne(IsOwner(u), w);
  }

  lemma MixedShares()
    ensures LastN(Filter(IsOwner("a"), Mixed()), MAX_SESSIONS) == Ten()
    ensures LastN(Filter(IsOwner("b"), Mixed()), MAX_SESSIONS) == [SECOND, LATE]
  {
    hide Filter, Hash;
    ShareOf([EARLY, SECOND], LATE, "a");
    ShareOf([EARLY, SECOND], LATE, "b");
    FilterPair(IsOwner("a"), EARLY, SECOND);
    FilterPair(IsOwner("b"), EARLY, SECOND);
    assert [EARLY] + [] == [EARLY] && [] + [SECOND] == [SECOND];
    assert [EARLY] + Ten() + [] == [EARLY] + Ten();
    assert ([EARLY] + Ten())[1..] == Ten();
    assert [SECOND] + [] + [LATE] == [SECOND, LATE];
  }

  lemma SortedConcat(a: seq<Session>, b: seq<Session>)
    requires Sorted(a) && Sorted(b) && forall x, y :: x in a && y in b ==> SortKey(x) <= SortKey(y)
    ensures Sorted(a + b)
  {
  }

  lemma MixedKept()
    ensures Sort(Filter(IsLive(6), Mixed())) == Mixed()
  {
    hide Sort, Filter, IsLive, Hash;
    AllLive();
    MixedSorted();
    KeptAsIs(Mixed(), 6);
  }

  lemma MixedSorted()
    ensures Sorted(Mixed())
  {
    hide Hash;
    SortedConcat([EARLY, SECOND], Ten());
    SortedConcat([EARLY, SECOND] + Ten(), [LATE]);
  }

  lemma MixedOwners()
    ensures Owners(Mixed()) == ["a", "b"]
  {
    hide Owners;
    OwnersOfPair(EARLY, SECOND);
    OwnersAbsorb([EARLY, SECOND], Ten() + [LATE]);
    assert Mixed() == [EARLY, SECOND] + (Ten() + [LATE]);
  }

  lemma MixedCapped()
    ensures Capped(Mixed(), Owners(Mixed())) == Ten() + [SECOND, LATE]
  {
    MixedOwners();
    MixedShares();
    hide Capped, Mixed, Ten, Owners, Filter;
    CappedTwo(Mixed(), "a", "b");
  }

  /** The stable sort moves the one early session to the front. */
  lemma BucketsSorted()
    ensures Sort(Ten() + [SECOND, LATE]) == [SECOND] + (Ten() + [LATE])
  {
    hide Hash, Sort, Filter;
    var t := Ten();
    var c := t + [SECOND, LATE];
    SortSorts(c);
    SortedSplit(Sort(c), 2);
    SortFilter(IsUpTo(2), c);
    SortFilter(IsAfter(2), c);
    FilterConcat(IsUpTo(2), t, [SECOND, LATE]);
    FilterConcat(IsAfter(2), t, [SECOND, LATE]);
    FilterNone(IsUpTo(2), t);
    FilterAll(IsAfter(2), t);
    FilterPair(IsUpTo(2), SECOND, LATE);
    FilterPair(IsAfter(2), SECOND, LATE);
    assert [] + ([SECOND] + []) == [SECOND];
    assert t + ([] + [LATE]) == t + [LATE];
    SortOfSorted([SECOND]);
    SortOfSorted(t + [LATE]);
  }

  lemma OncePruned()
    ensures Prune(Mixed(), 6) == Once()
  {
    hide Capped, Owners, Sort, Filter, Ten, Mixed;
    MixedKept();
    MixedCapped();
    BucketsSorted();
  }

  /** What the first pruning leaves. */
  function Once(): seq<Session> {
    [SECOND] + (Ten() + [LATE])
  }

  lemma OnceKept()
    ensures Sort(Filter(IsLive(6), Once())) == Once()
  {
    hide Sort, Filter, IsLive, Hash;
    AllLive();
    assert forall s :: s in Once() ==> s in Mixed();
    OnceSorted();
    KeptAsIs(Once(), 6);
  }

  lemma OnceSorted()
    ensures Sorted(Once())
  {
    hide Hash;
    SortedConcat(Ten(), [LATE]);
    SortedConcat([SECOND], Ten() + [LATE]);
  }

  lemma OnceOwners()
    ensures Owners(Once()) == ["b", "a"]
  {
    hide Owners;
    var first, rest := Ten()[0], Ten()[1..] + [LATE];
    OwnersOfPair(SECOND, first);
    OwnersAbsorb([SECOND, first], rest);
    assert Once() == [SECOND, first] + rest;
  }

  lemma TwicePruned()
    ensures Prune(Once(), 6) == [SECOND, LATE] + Ten()
  {
    OnceKept();
    OnceOwners();
    SecondShares();
    hide Capped, Owners, Filter, Sort;
    CappedTwo(Once(), "b", "a");
    SortOfSorted([SECOND, LATE] + Ten());
  }

  lemma SecondShares()
    ensures var l := Once();
            && LastN(Filter(IsOwner("a"), l), MAX_SESSIONS) == Ten()
            && LastN(Filter(IsOwner("b"), l), MAX_SESSIONS) == [SECOND, LATE]
  {
    hide Filter, Hash;
    var l := Once();
    assert l == [SECOND] + Ten() + [LATE];
    ShareOf([SECOND], LATE, "a");
    ShareOf([SECOND], LATE, "b");
    FilterOne(IsOwner("a"), SECOND);
    FilterOne(IsOwner("b"), SECOND);
    assert [] + Ten() + [] == Ten();
    assert [SECOND] + [] + [LATE] == [SECOND, LATE];
  }

  /** Above the cap it can: pruning again hands the legacy slot from account b to account a. */
  lemma PruneTwiceCanDiffer()
    ensures var once := Prune(Mixed(), 6);
            var twice := Prune(once, 6);
            && DistinctTokens(Mixed()) && twice != once && once != [] && twice != []
            && Mirror(once) != Mirror(twice)
            && OwnerId(once[|once| - 1]) == "b" && OwnerId(twice[|twice| - 1]) == "a"
  {
    MixedDistinct();
    OncePruned();
    TwicePruned();
    hide Prune, Mixed;
    var once, twice := [SECOND] + (Ten() + [LATE]), [SECOND, LATE] + Ten();
    assert once[|once| - 1] == LATE && twice[|twice| - 1] == Ten()[9];
    assert LATE.tokenHash[0] == 'c' && Ten()[9].tokenHash[0] == '9';
  }

  // ------------------------------------------------------------ sessions without creation time

  /** A live session of uid with no creation time. */
  predicate Undated(s: Session, now: int, uid: string) {
    IsLive(now)(s) && OwnerId(s) == uid && s.createdAt == 0
  }

  /** Such sessions sort by their expiry, after any new one: ten of them push it out. */
  lemma UndatedPushOut(l: seq<Session>, now: int, entry: Session)
    requires now > 0 && IsLive(now)(entry) && entry.createdAt == now && entry !in l
    requires |l| >= MAX_SESSIONS && forall s :: s in l ==> Undated(s, now, OwnerId(entry))
    ensures entry !in Extended(l, now, entry)
  {
    hide Prune;
    FilterAll(IsLive(now), l);
    FilterAll(IsOwner(OwnerId(entry)), l);
    FilterAll(IsAfter(SortKey(entry)), l);
    AddSurvives(l, now, entry);
  }

  /** A session that did not survive its own cap opens nothing. */
  lemma NotIssued(st: Store, now: int, hash: string, uid: string)
    requires MirrorOk(st) && Entry(st, now, hash, uid) !in Extended(st.sessions, now, Entry(st, now, hash, uid))
    requires forall s :: s in st.sessions ==> s.tokenHash != hash
    ensures Find(Issue(st, now, hash, uid), now, Some(hash)) == None
  {
    hide Prune;
    var entry := Entry(st, now, hash, uid);
    MirrorHidesSlot(st);
    ExtendedFrom(st.sessions, now, entry);
    MirrorStep(st, now, IssueOp(hash, uid));
    MirrorHidesSlot(Issue(st, now, hash, uid));
    FilterNone(Opens(now, hash), Extended(st.sessions, now, entry));
  }

  /** Ten sessions of one account without creation time, each with its own token. */
  function TenUndated(): (r: seq<Session>)
    ensures |r| == 10 && forall i :: 0 <= i < 10 ==> r[i] == Session(Hash(Digit(i)), 0, 100, Id("u"))
  {
    seq(10, i requires 0 <= i < 10 => Session(Hash(Digit(i)), 0, 100, Id("u")))
  }

  lemma TenUndatedShape()
    ensures DistinctTokens(TenUndated())
    ensures forall s :: s in TenUndated() ==> Undated(s, 6, "u") && s.tokenHash != HEX
    ensures HasHash(TenUndated(), Hash('9'))
  {
    var l := TenUndated();
    forall i, j | 0 <= i < j < |l| ensures l[i].tokenHash[0] != l[j].tokenHash[0] {
    }
    forall i | 0 <= i < |l| ensures Undated(l[i], 6, "u") && l[i].tokenHash != HEX {
      HashIsHex(Digit(i));
      assert HEX[0] == 'a';
    }
    assert l[9].tokenHash == Hash('9');
  }

  /** A login that finds ten of them leaves a token that opens nothing. */
  lemma UndatedLoginFails()
    ensures var st := Store(TenUndated(), Slot(Hash('9'), 100), 0, 30);
            && DistinctTokens(st.sessions) && (forall s :: s in st.sessions ==> s.tokenHash != HEX)
            && MirrorOk(st) && Find(Issue(st, 6, HEX, "u"), 6, Some(HEX)) == None
  {
    hide Extended, Issue, Find, Hash, IsSha256Hex;
    TenUndatedShape();
    HashIsHex('a');
    var st := Store(TenUndated(), Slot(Hash('9'), 100), 0, 30);
    UndatedPushOut(st.sessions, 6, Entry(st, 6, HEX, "u"));
    NotIssued(st, 6, HEX, "u");
  }
}
