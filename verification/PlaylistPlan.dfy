/** The edit plan of a playlist save, and what a provider that honours it is left with. */
module PlaylistPlan {
  import opened Sequences

  datatype Resource = Resource(smart: bool, canAdd: bool, canRemove: bool, canReorder: bool)

  datatype Outcome =
    | Rejected
    | Plan(adds: seq<string>, removes: set<string>, reorder: Option<seq<string>>)

  function Among(l: seq<string>): string -> bool {
    (k: string) => k in l
  }

  function Outside(l: seq<string>): string -> bool {
    (k: string) => k !in l
  }

  function Keep(removes: set<string>): string -> bool {
    (k: string) => k !in removes
  }

  function Keys(l: seq<string>): set<string> {
    set k | k in l
  }

  function Adds(current: seq<string>, desired: seq<string>): seq<string> {
    Filter(Outside(current), desired)
  }

  function Removes(current: seq<string>, desired: seq<string>): set<string> {
    Keys(current) - Keys(desired)
  }

  /** current lists the keys of the playlist in order, a key once for each of its items; desired comes
      from a dictionary and has no key twice. */
  function MakePlan(r: Resource, current: seq<string>, desired: seq<string>): Outcome {
    var adds, removes := Adds(current, desired), Removes(current, desired);
    if r.smart || (adds != [] && !r.canAdd) || (removes != {} && !r.canRemove) then Rejected
    else
      var kept := Filter(Among(desired), current);
      Plan(adds, removes, if r.canReorder && desired != [] && desired != kept then Some(desired) else None)
  }

  // ------------------------------------------------------------ providers

  /** Adding keeps what is there, in order, and puts each new key in once, anywhere. */
  predicate AddsHonoured(l: seq<string>, adds: seq<string>, l': seq<string>) {
    Filter(Outside(adds), l') == l && multiset(l') == multiset(l) + multiset(adds)
  }

  /** Removing takes every item of the given keys out. */
  predicate RemovesHonoured(l: seq<string>, removes: set<string>, l': seq<string>) {
    l' == Filter(Keep(removes), l)
  }

  /** Each key where it comes first. */
  function FirstSeen(l: seq<string>): (r: seq<string>)
    ensures forall k :: k in r <==> k in l
    ensures Distinct(r) && |r| <= |l|
  {
    if l == [] then []
    else
      var front := FirstSeen(l[..|l| - 1]);
      if l[|l| - 1] in front then front else front + [l[|l| - 1]]
  }

  /** Reordering moves items only, and brings the keys into the order given. */
  predicate ReorderHonoured(l: seq<string>, order: Option<seq<string>>, l': seq<string>) {
    match order
    case None => l' == l
    case Some(o) => multiset(l') == multiset(l) && (Keys(l) == Keys(o) ==> FirstSeen(l') == o)
  }

  // ------------------------------------------------------------ what the plan achieves

  lemma AddsAreNew(current: seq<string>, desired: seq<string>)
    ensures forall k :: k in Adds(current, desired) <==> k in desired && k !in current
  {
    FilterMember(Outside(current), desired);
  }

  lemma AddedKeys(l: seq<string>, adds: seq<string>, l': seq<string>)
    requires AddsHonoured(l, adds, l')
    ensures Keys(l') == Keys(l) + Keys(adds)
  {
    forall k
      ensures k in l' <==> k in l || k in adds
    {
      assert k in l' <==> k in multiset(l');
    }
  }

  /** Carrying the plan out leaves exactly the desired keys. */
  lemma PlanReachesKeys(r: Resource, current: seq<string>, desired: seq<string>, added: seq<string>, left: seq<string>)
    requires var p := MakePlan(r, current, desired);
             p.Plan? && AddsHonoured(current, p.adds, added) && RemovesHonoured(added, p.removes, left)
    ensures Keys(left) == Keys(desired)
  {
    var p := MakePlan(r, current, desired);
    AddsAreNew(current, desired);
    AddedKeys(current, p.adds, added);
    FilterMember(Keep(p.removes), added);
    forall k
      ensures k in left <==> k in desired
    {
      assert k in added <==> k in Keys(added);
    }
  }

  /** Adds and removes do not overlap, and every other way to reach the desired keys includes them. */
  lemma PlanIsMinimal(current: seq<string>, desired: seq<string>, adds: set<string>, removes: set<string>)
    requires (Keys(current) + adds) - removes == Keys(desired)
    ensures Keys(Adds(current, desired)) <= adds && Removes(current, desired) <= removes
    ensures Keys(Adds(current, desired)) !! Removes(current, desired)
  {
    AddsAreNew(current, desired);
    forall k | k in desired
      ensures k in Keys(current) + adds && k !in removes
    {
      assert k in Keys(desired);
    }
    forall k | k in Removes(current, desired)
      ensures k in removes
    {
      assert k !in Keys(desired);
    }
  }

  /** Additions and removals the playlist supports that reach the desired keys. */
  predicate Reaches(r: Resource, current: seq<string>, desired: seq<string>, adds: set<string>, removes: set<string>) {
    && (adds != {} ==> r.canAdd) && (removes != {} ==> r.canRemove)
    && (Keys(current) + adds) - removes == Keys(desired)
  }

  /** A save is rejected exactly when the playlist is a smart one or supports no way to the desired keys. */
  lemma RejectedWhenImpossible(r: Resource, current: seq<string>, desired: seq<string>)
    ensures MakePlan(r, current, desired).Rejected?
       <==> r.smart || !exists adds, removes :: Reaches(r, current, desired, adds, removes)
  {
    var adds, removes := Adds(current, desired), Removes(current, desired);
    AddsAreNew(current, desired);
    assert adds != [] <==> Keys(adds) != {} by {
      assert adds != [] ==> adds[0] in Keys(adds);
    }
    assert (Keys(current) + Keys(adds)) - removes == Keys(desired);
    if MakePlan(r, current, desired).Plan? {
      assert Reaches(r, current, desired, Keys(adds), removes);
    }
    forall more, fewer | Reaches(r, current, desired, more, fewer)
      ensures Keys(adds) <= more && removes <= fewer
    {
      PlanIsMinimal(current, desired, more, fewer);
    }
  }

  lemma {:induction false} FirstSeenOfDistinct(l: seq<string>)
    requires Distinct(l)
    ensures FirstSeen(l) == l
  {
    if l != [] {
      FirstSeenOfDistinct(l[..|l| - 1]);
    }
  }

  lemma KeptWhenNoReorder(current: seq<string>, desired: seq<string>)
    requires desired == [] || desired == Filter(Among(desired), current)
    ensures Adds(current, desired) == []
    ensures Filter(Keep(Removes(current, desired)), current) == desired
  {
    FilterMember(Among(desired), current);
    FilterNone(Outside(current), desired);
    SameFilter(Keep(Removes(current, desired)), Among(desired), current);
    if desired == [] {
      FilterNone(Among(desired), current);
    }
  }

  lemma {:induction false} SameFilter(p: string -> bool, q: string -> bool, l: seq<string>)
    requires forall k :: k in l ==> p(k) == q(k)
    ensures Filter(p, l) == Filter(q, l)
  {
    if l != [] {
      SameFilter(p, q, l[1..]);
    }
  }

  /**
   * On a playlist that can be reordered the keys end up in the submitted order,
   * whether or not a reorder is issued; none is issued only when nothing was
   * added and the kept keys already stood in that order.
   */
  lemma PlanReachesOrder(r: Resource, current: seq<string>, desired: seq<string>,
                         added: seq<string>, left: seq<string>, final: seq<string>)
    requires r.canReorder && Distinct(desired)
    requires var p := MakePlan(r, current, desired);
             p.Plan? && AddsHonoured(current, p.adds, added) && RemovesHonoured(added, p.removes, left)
             && ReorderHonoured(left, p.reorder, final)
    ensures FirstSeen(final) == desired
    ensures MakePlan(r, current, desired).reorder.None? ==> Adds(current, desired) == [] && final == desired
  {
    var p := MakePlan(r, current, desired);
    PlanReachesKeys(r, current, desired, added, left);
    FirstSeenOfDistinct(desired);
    if p.reorder.None? {
      KeptWhenNoReorder(current, desired);
      FilterAll(Outside([]), added);
    }
  }

  /** A reorder is planned exactly on a playlist that can be reordered, when taking the removed items out does not
      leave the submitted list already, and it asks for that list. */
  lemma ReorderWhenNeeded(r: Resource, current: seq<string>, desired: seq<string>)
    requires MakePlan(r, current, desired).Plan?
    ensures var p := MakePlan(r, current, desired);
            && (p.reorder.Some? <==>
                  && r.canReorder && desired != []
                  && forall left :: RemovesHonoured(current, p.removes, left) ==> left != desired)
            && (p.reorder.Some? ==> p.reorder.value == desired)
  {
    var p := MakePlan(r, current, desired);
    SameFilter(Keep(p.removes), Among(desired), current);
    assert RemovesHonoured(current, p.removes, Filter(Keep(p.removes), current));
  }

  /** A playlist without repeated keys ends up as exactly the submitted list. */
  lemma PlanReachesList(r: Resource, current: seq<string>, desired: seq<string>,
                        added: seq<string>, left: seq<string>, final: seq<string>)
    requires r.canReorder && Distinct(desired) && Distinct(current)
    requires var p := MakePlan(r, current, desired);
             p.Plan? && AddsHonoured(current, p.adds, added) && RemovesHonoured(added, p.removes, left)
             && ReorderHonoured(left, p.reorder, final)
    ensures final == desired
  {
    PlanReachesOrder(r, current, desired, added, left, final);
    var p := MakePlan(r, current, desired);
    AddsAreNew(current, desired);
    NoRepeats(desired);
    NoRepeats(current);
    FilterRepeats(Outside(current), desired);
    FilterRepeats(Keep(p.removes), added);
    forall k
      ensures multiset(final)[k] <= 1
    {
      assert multiset(final)[k] == multiset(left)[k] <= multiset(added)[k];
      assert multiset(added)[k] == multiset(current)[k] + multiset(p.adds)[k];
      assert k in p.adds <==> k in multiset(p.adds);
      assert k in current <==> k in multiset(current);
    }
    OnceIsDistinct(final);
    FirstSeenOfDistinct(final);
  }

  lemma {:induction false} FilterRepeats(p: string -> bool, l: seq<string>)
    ensures forall k :: multiset(Filter(p, l))[k] <= multiset(l)[k]
  {
    if l != [] {
      FilterRepeats(p, l[1..]);
      assert l == [l[0]] + l[1..];
    }
  }

  lemma {:induction false} NoRepeats(l: seq<string>)
    requires Distinct(l)
    ensures forall k :: multiset(l)[k] <= 1
  {
    if l != [] {
      NoRepeats(l[1..]);
      assert l == [l[0]] + l[1..];
      assert l[0] !in l[1..];
    }
  }

  lemma {:induction false} OnceIsDistinct(l: seq<string>)
    requires forall k :: multiset(l)[k] <= 1
    ensures Distinct(l)
  {
    if l != [] {
      var x, rest := l[0], l[1..];
      assert l == [x] + rest;
      forall k
        ensures multiset(rest)[k] <= 1
      {
        assert multiset(rest)[k] <= multiset(l)[k];
      }
      OnceIsDistinct(rest);
      assert x !in rest by {
        assert multiset(l)[x] == 1 + multiset(rest)[x];
      }
    }
  }

  // ------------------------------------------------------------ providers that remove one item per key

  /** l without the first item of each key in removes. */
  function RemoveOnce(l: seq<string>, removes: set<string>): seq<string> {
    if l == [] then []
    else if l[0] in removes then RemoveOnce(l[1..], removes - {l[0]})
    else [l[0]] + RemoveOnce(l[1..], removes)
  }

  lemma {:induction false} RemoveOnceCounts(l: seq<string>, removes: set<string>, k: string)
    ensures multiset(RemoveOnce(l, removes))[k]
         == if k in removes && k in l then multiset(l)[k] - 1 else multiset(l)[k]
  {
    if l != [] {
      assert l == [l[0]] + l[1..];
      RemoveOnceCounts(l[1..], if l[0] in removes then removes - {l[0]} else removes, k);
      assert k in l[1..] <==> k in multiset(l[1..]);
    }
  }

  /** The plan names each key once, so such a provider reaches the desired keys exactly when no key to be
      removed is in the playlist twice. */
  lemma SingleRemovals(current: seq<string>, desired: seq<string>, added: seq<string>)
    requires AddsHonoured(current, Adds(current, desired), added)
    ensures Keys(RemoveOnce(added, Removes(current, desired))) == Keys(desired)
       <==> forall k :: k in Removes(current, desired) ==> multiset(current)[k] == 1
  {
    var removes := Removes(current, desired);
    var left := RemoveOnce(added, removes);
    AddsAreNew(current, desired);
    AddedKeys(current, Adds(current, desired), added);
    forall k
      ensures k in left <==> k in desired || (k in removes && multiset(current)[k] > 1)
    {
      RemoveOnceCounts(added, removes, k);
      assert k in left <==> k in multiset(left);
      assert k in added <==> k in Keys(added);
      assert k in added <==> k in multiset(added);
      assert k in Adds(current, desired) <==> k in multiset(Adds(current, desired));
    }
    if Keys(left) == Keys(desired) {
      forall k | k in removes
        ensures multiset(current)[k] == 1
      {
        assert k !in Keys(desired);
        assert k in current;
      }
    }
  }
}
