/**
 * What importing a policy leaves at each place, that is, for each provider or
 * instance of it and each kind of list.
 */
module PolicyPlaces {
  import opened JsonTree
  import opened Sequences
  import opened PolicyMerge

  // ------------------------------------------------------------ merged items

  lemma JoinHolds(env: Env, a: Table, b: Table, j: nat, k: string, f: string)
    requires j < |a + b|
    ensures Holds(env, a + b, j, k, f) == if j < |a| then Holds(env, a, j, k, f) else Holds(env, b, j - |a|, k, f)
  {
  }

  /** The first holder of two tables in a row is that of the first one, if that has one. */
  lemma JoinFirst(env: Env, a: Table, b: Table, j: nat, k: string, f: string)
    requires j < |a + b| && FirstHolds(env, a + b, j, k, f)
    ensures j < |a| ==> FirstHolds(env, a, j, k, f)
    ensures j >= |a| ==> FirstHolds(env, b, j - |a|, k, f) && forall i: nat | i < |a| :: !Holds(env, a, i, k, f)
  {
    hide Holds;
    JoinHolds(env, a, b, j, k, f);
    forall i: nat | i < j
      ensures !Holds(env, a + b, i, k, f)
      ensures i < |a| ==> !Holds(env, a, i, k, f)
      ensures i >= |a| ==> !Holds(env, b, i - |a|, k, f)
    {
      JoinHolds(env, a, b, i, k, f);
    }
    if j >= |a| {
      forall i: nat | i < j - |a| ensures !Holds(env, b, i, k, f) {
        JoinHolds(env, a, b, i + |a|, k, f);
      }
    }
  }

  /** What a field is after an item decided by one table was merged with one decided by another. */
  predicate Fills(had: Option<Item>, next: Option<Item>, r: Option<Item>, f: string) {
    && (had.Some? && Filled(had.value, f) ==> r.Some? && f in r.value && r.value[f] == had.value[f])
    && (!(had.Some? && Filled(had.value, f)) && next.Some? && Filled(next.value, f) ==>
          r.Some? && f in r.value && r.value[f] == next.value[f])
    && (!(had.Some? && Filled(had.value, f)) && !(next.Some? && Filled(next.value, f)) ==>
          r.None? || !Filled(r.value, f))
  }

  lemma DecidedJoin(
    env: Env, a: Table, b: Table, had: Option<Item>, next: Option<Item>, r: Option<Item>, k: string, f: string)
    requires Decided(env, a, had, k, f) && Decided(env, b, next, k, f) && Fills(had, next, r, f)
    ensures Decided(env, a + b, r, k, f)
  {
    hide FinalKey, FirstHolds;
    forall j: nat | j < |a + b| && FirstHolds(env, a + b, j, k, f)
      ensures f in (a + b)[j].1 && r.Some? && f in r.value && r.value[f] == (a + b)[j].1[f]
    {
      JoinFirst(env, a, b, j, k, f);
      HoldsFirst(env, a + b, j, k, f);
      if j < |a| {
        assert (a + b)[j] == a[j];
      } else {
        assert (a + b)[j] == b[j - |a|];
      }
    }
    if forall j: nat | j < |a + b| :: !Holds(env, a + b, j, k, f) {
      forall j: nat | j < |a| ensures !Holds(env, a, j, k, f) {
        JoinHolds(env, a, b, j, k, f);
      }
      forall j: nat | j < |b| ensures !Holds(env, b, j, k, f) {
        JoinHolds(env, a, b, j + |a|, k, f);
      }
    }
  }

  lemma HoldsFirst(env: Env, t: Table, j: nat, k: string, f: string)
    requires j < |t| && FirstHolds(env, t, j, k, f)
    ensures Filled(t[j].1, f)
  {
  }

  /** A field of a merged item is that of the first entry of its key that has it filled, stored entries first. */
  lemma MergedItemField(env: Env, stored: Table, imported: Table, k: string, f: string)
    requires k != "" && f != "ids"
    ensures Decided(env, stored + imported, Lookup(MergeItems(env, stored, imported), k), k, f)
  {
    var a, b := Lookup(Canonical(env, stored), k), Lookup(Canonical(env, imported), k);
    CanonicalField(env, stored, k, f);
    CanonicalField(env, imported, k, f);
    CanonicalUnique(env, imported);
    AbsorbAt(env, Canonical(env, stored), Canonical(env, imported), k);
    var r := Lookup(MergeItems(env, stored, imported), k);
    assert r == match b case None => a case Some(item) => Some(MergeItem(env, OrEmpty(a), item));
    if b.Some? {
      MergedField(env, OrEmpty(a), b.value, f);
      NothingFilled(f);
    }
    hide MergeItems, MergeItem, Canonical, Lookup, Decided;
    DecidedJoin(env, stored, imported, a, b, r, k, f);
  }

  lemma NothingFilled(f: string)
    ensures !Filled(map[], f)
  {
  }

  // ------------------------------------------------------------ the order of items

  /** The keys of the entries in the order in which they first come, entries without a key aside. */
  function KeysInOrder(env: Env, t: Table): seq<string> {
    if t == [] then []
    else
      var front, k := KeysInOrder(env, t[..|t| - 1]), FinalKey(env, t[|t| - 1]);
      if k == "" || k in front then front else front + [k]
  }

  function Keys(t: Table): seq<string> {
    seq(|t|, i requires 0 <= i < |t| => t[i].0)
  }

  lemma KeyThere(t: Table, k: string)
    ensures Lookup(t, k).Some? <==> k in Keys(t)
  {
    LookupNone(t, k);
    if k in Keys(t) {
      var i :| 0 <= i < |t| && Keys(t)[i] == k;
      assert t[i].0 == k;
    }
    if Lookup(t, k).Some? {
      var i :| 0 <= i < |t| && t[i].0 == k;
      assert Keys(t)[i] == k;
    }
  }

  lemma PutKeysInOrder(t: Table, k: string, item: Item)
    requires UniqueKeys(t)
    ensures Keys(Put(t, k, item)) == if k in Keys(t) then Keys(t) else Keys(t) + [k]
  {
    PutKeys(t, k, item);
    KeyThere(t, k);
  }

  lemma {:induction false} CanonicalInOrder(env: Env, t: Table)
    ensures Keys(Canonical(env, t)) == KeysInOrder(env, t)
  {
    hide MergeItem;
    if t != [] {
      var front, last := t[..|t| - 1], t[|t| - 1];
      CanonicalInOrder(env, front);
      CanonicalUnique(env, front);
      var c, k := Canonical(env, front), FinalKey(env, last);
      KeyThere(c, k);
      PutKeysInOrder(c, k, last.1);
      PutKeysInOrder(c, k, MergeItem(env, OrEmpty(Lookup(c, k)), last.1));
    }
  }

  /** The keys of l after those of acc that are not there yet. */
  function Added(acc: seq<string>, l: seq<string>): seq<string> {
    if l == [] then acc
    else
      var front, k := Added(acc, l[..|l| - 1]), l[|l| - 1];
      if k in front then front else front + [k]
  }

  lemma {:induction false} AbsorbInOrder(env: Env, t: Table, more: Table)
    requires UniqueKeys(t)
    ensures Keys(Absorb(env, t, more)) == Added(Keys(t), Keys(more))
  {
    hide MergeItem;
    if more == [] {
      assert Keys(more) == [];
    } else {
      var front, last := more[..|more| - 1], more[|more| - 1];
      AbsorbInOrder(env, t, front);
      AbsorbUnique(env, t, front);
      var a := Absorb(env, t, front);
      assert Keys(more)[..|more| - 1] == Keys(front);
      PutKeysInOrder(a, last.0, MergeItem(env, OrEmpty(Lookup(a, last.0)), last.1));
    }
  }

  lemma {:induction false} AddedInOrder(env: Env, a: Table, b: Table)
    ensures Added(KeysInOrder(env, a), KeysInOrder(env, b)) == KeysInOrder(env, a + b)
  {
    if b == [] {
      assert a + b == a;
    } else {
      var front, last := b[..|b| - 1], b[|b| - 1];
      AddedInOrder(env, a, front);
      assert (a + b)[..|a + b| - 1] == a + front && (a + b)[|a + b| - 1] == last;
      var l, k := KeysInOrder(env, front), FinalKey(env, last);
      assert k != "" && k !in l ==> (l + [k])[..|l|] == l;
      AddedThere(KeysInOrder(env, a), l, k);
    }
  }

  lemma {:induction false} AddedThere(acc: seq<string>, l: seq<string>, k: string)
    ensures k in Added(acc, l) <==> k in acc || k in l
  {
    if l != [] {
      AddedThere(acc, l[..|l| - 1], k);
      assert l == l[..|l| - 1] + [l[|l| - 1]];
    }
  }

  /** Merged items come in the order in which their keys are first filed at, stored entries first. */
  lemma ItemsInOrder(env: Env, stored: Table, imported: Table)
    ensures Keys(MergeItems(env, stored, imported)) == KeysInOrder(env, stored + imported)
  {
    hide Canonical, Absorb, KeysInOrder, Added;
    CanonicalInOrder(env, stored);
    CanonicalInOrder(env, imported);
    CanonicalUnique(env, stored);
    AbsorbInOrder(env, Canonical(env, stored), Canonical(env, imported));
    AddedInOrder(env, stored, imported);
  }

  // ------------------------------------------------------------ places

  /** A list of one kind, of a provider itself or of one of its instances. */
  datatype Place = Place(provider: string, of: Option<string>, kind: Kind)

  /** The lists of a provider or of one of its instances, if it has any. */
  function ListsOf(policy: Policy, provider: string, of: Option<string>): Option<Features> {
    if provider !in policy then None
    else
      match of
      case None => Some(policy[provider].features)
      case Some(i) =>
        if i in policy[provider].instances then Some(policy[provider].instances[i]) else None
  }

  function At(policy: Policy, x: Place): Option<Feature> {
    match ListsOf(policy, x.provider, x.of)
    case None => None
    case Some(lists) => if x.kind in lists then Some(lists[x.kind]) else None
  }

  function BlocksIn(f: Option<Feature>): seq<string> {
    match f case None => [] case Some(x) => x.blocks
  }

  function ItemsIn(f: Option<Feature>): Option<Table> {
    match f case None => None case Some(x) => x.items
  }

  function Entries(items: Option<Table>): Table {
    match items case None => [] case Some(t) => t
  }

  /** Blocks of both sides and no others, each once, in the order in which they first come, stored ones first. */
  ghost predicate BlocksMerged(env: Env, was: seq<string>, more: seq<string>, now: seq<string>) {
    && (forall key :: HasKey(env, now, key) <==> Names(env, was, key) || Names(env, more, key))
    && IsDeduplicated(env, now) && now == Firsts(env, was + more, |was + more|)
  }

  /** Without imported items the stored ones stay; otherwise every key either side files at is there and no other,
      in the order first filed at, and every field but ids is that of the first entry that has it filled. */
  ghost predicate ItemsMerged(env: Env, was: Option<Table>, more: Option<Table>, now: Option<Table>) {
    if more.None? then now == was
    else
      var all := Entries(was) + more.value;
      && now.Some? && Keys(now.value) == KeysInOrder(env, all)
      && (forall k :: Lookup(now.value, k).Some?
                 <==> k != "" && (Files(env, Entries(was), k) || Files(env, more.value, k)))
      && (forall k, f :: k != "" && f != "ids" ==> Decided(env, all, Lookup(now.value, k), k, f))
  }

  lemma MergedFeature(env: Env, t: Feature, f: Feature)
    ensures var r := MergeFeature(env, t, f);
            BlocksMerged(env, t.blocks, f.blocks, r.blocks) && ItemsMerged(env, t.items, f.items, r.items)
  {
    hide MergeBlocks, MergeItems, Firsts, Names, HasKey, IsDeduplicated, Decided, Files, Lookup, KeysInOrder;
    BlocksInFirstSeenOrder(env, t.blocks, f.blocks);
    forall key
      ensures HasKey(env, MergeBlocks(env, t.blocks, f.blocks), key)
         <==> Names(env, t.blocks, key) || Names(env, f.blocks, key)
    {
      BlocksAreUnion(env, t.blocks, f.blocks, key);
    }
    BlocksAreUnion(env, t.blocks, f.blocks, "");
    if f.items.Some? {
      var was, more := Entries(t.items), f.items.value;
      ItemsInOrder(env, was, more);
      forall k
        ensures Lookup(MergeItems(env, was, more), k).Some?
           <==> k != "" && (Files(env, was, k) || Files(env, more, k))
      {
        MergedKeys(env, was, more, k);
      }
      forall k, f | k != "" && f != "ids"
        ensures Decided(env, was + more, Lookup(MergeItems(env, was, more), k), k, f)
      {
        MergedItemField(env, was, more, k, f);
      }
    }
  }

  /**
   * Place by place: what either side has is there and nothing else, a place the
   * import does not name is as stored, and at the others blocks and items are
   * merged with the stored side first.
   */
  lemma MergedPlaces(envs: Kind -> Env, stored: Policy, imported: Policy, x: Place)
    ensures var was, more, now := At(stored, x), At(imported, x), At(MergePolicy(envs, stored, imported), x);
            && (now.Some? <==> was.Some? || more.Some?)
            && (more.None? ==> now == was)
            && (more.Some? ==>
                  && BlocksMerged(envs(x.kind), BlocksIn(was), more.value.blocks, now.value.blocks)
                  && ItemsMerged(envs(x.kind), ItemsIn(was), more.value.items, now.value.items))
    ensures ListsOf(MergePolicy(envs, stored, imported), x.provider, x.of).Some?
       <==> ListsOf(stored, x.provider, x.of).Some? || ListsOf(imported, x.provider, x.of).Some?
    ensures x.provider in MergePolicy(envs, stored, imported) <==> x.provider in stored || x.provider in imported
  {
    var was, more := At(stored, x), At(imported, x);
    if more.Some? {
      MergedFeature(envs(x.kind), if was.Some? then was.value else NO_FEATURE, more.value);
    }
    hide MergeFeature, BlocksMerged, ItemsMerged;
  }
}
