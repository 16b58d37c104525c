/**
 * Merging an imported manual policy into the stored one: block lists by first
 * appearance, manual items field by field with the stored side winning.
 */
module PolicyMerge {
  import opened JsonTree
  import opened Sequences
  import opened Text

  type Item = map<string, Json>

  /** Items in dictionary order: unique keys, each with its item. */
  type Table = seq<(string, Item)>

  /** Case folding, blank characters, the canonical key of an item and the merge of two id sets.
      The key depends on the kind of list, so each kind comes with its own. */
  datatype Env = Env(
    lower: string -> string, blank: char -> bool,
    keyOf: (string, Item) -> string,
    mergeIds: (Item, Item) -> Item)

  // ------------------------------------------------------------ block lists

  predicate HasKey(env: Env, l: seq<string>, key: string) {
    exists i :: 0 <= i < |l| && env.lower(l[i]) == key
  }

  function Add(env: Env, acc: seq<string>, x: string): seq<string> {
    var s := Strip(env.blank, x);
    if s == "" || HasKey(env, acc, env.lower(s)) then acc else acc + [s]
  }

  function Collect(env: Env, acc: seq<string>, l: seq<string>): seq<string> {
    if l == [] then acc else Add(env, Collect(env, acc, l[..|l| - 1]), l[|l| - 1])
  }

  function MergeBlocks(env: Env, a: seq<string>, b: seq<string>): seq<string> {
    Collect(env, [], a + b)
  }

  method MergeBlockLists(env: Env, a: seq<string>, b: seq<string>) returns (out: seq<string>)
    ensures out == MergeBlocks(env, a, b)
  {
    var seen: set<string> := {};
    out := [];
    var l := a + b;
    for i := 0 to |l|
      invariant out == Collect(env, [], l[..i])
      invariant forall key :: key in seen <==> HasKey(env, out, key)
    {
      assert l[..i + 1][..i] == l[..i];
      var s := Strip(env.blank, l[i]);
      if s != "" && env.lower(s) !in seen {
        HasKeySnoc(env, out, s);
        seen := seen + {env.lower(s)};
        out := out + [s];
      }
    }
    assert l[..|l|] == l;
  }

  lemma HasKeySnoc(env: Env, l: seq<string>, s: string)
    ensures forall key :: HasKey(env, l + [s], key) <==> HasKey(env, l, key) || key == env.lower(s)
  {
    forall key
      ensures HasKey(env, l + [s], key) <==> HasKey(env, l, key) || key == env.lower(s)
    {
      if HasKey(env, l, key) {
        var i :| 0 <= i < |l| && env.lower(l[i]) == key;
        assert (l + [s])[i] == l[i];
      }
      assert (l + [s])[|l|] == s;
    }
  }

  lemma {:induction false} CollectConcat(env: Env, acc: seq<string>, a: seq<string>, b: seq<string>)
    ensures Collect(env, acc, a + b) == Collect(env, Collect(env, acc, a), b)
  {
    if b == [] {
      assert a + b == a;
    } else {
      CollectConcat(env, acc, a, b[..|b| - 1]);
      assert (a + b)[..|a + b| - 1] == a + b[..|b| - 1];
    }
  }

  /** Some entry of l names key. */
  predicate Names(env: Env, l: seq<string>, key: string) {
    exists i :: 0 <= i < |l| && Strip(env.blank, l[i]) != "" && env.lower(Strip(env.blank, l[i])) == key
  }

  lemma {:induction false} CollectKeys(env: Env, acc: seq<string>, l: seq<string>, key: string)
    ensures HasKey(env, Collect(env, acc, l), key) <==> HasKey(env, acc, key) || Names(env, l, key)
  {
    if l != [] {
      var front, x := l[..|l| - 1], Strip(env.blank, l[|l| - 1]);
      CollectKeys(env, acc, front, key);
      HasKeySnoc(env, Collect(env, acc, front), x);
      assert Names(env, l, key) <==> Names(env, front, key) || (x != "" && env.lower(x) == key);
    }
  }

  /** A list of stripped, non-empty entries, no two of which are the same but for case. */
  predicate IsDeduplicated(env: Env, l: seq<string>) {
    && (forall i :: 0 <= i < |l| ==> l[i] != "" && Strip(env.blank, l[i]) == l[i])
    && (forall i, j :: 0 <= i < j < |l| ==> env.lower(l[i]) != env.lower(l[j]))
  }

  lemma {:induction false} CollectDeduplicates(env: Env, acc: seq<string>, l: seq<string>)
    requires IsDeduplicated(env, acc)
    ensures IsDeduplicated(env, Collect(env, acc, l)) && acc <= Collect(env, acc, l)
  {
    if l != [] {
      CollectDeduplicates(env, acc, l[..|l| - 1]);
      StripTwice(env.blank, l[|l| - 1]);
    }
  }

  lemma {:induction false} CollectOfDeduplicated(env: Env, l: seq<string>)
    requires IsDeduplicated(env, l)
    ensures Collect(env, [], l) == l
  {
    if l != [] {
      CollectOfDeduplicated(env, l[..|l| - 1]);
    }
  }

  /** Collecting a list or only its first appearances makes no difference to what follows. */
  lemma {:induction false} CollectFirsts(env: Env, acc: seq<string>, l: seq<string>)
    ensures Collect(env, acc, Collect(env, [], l)) == Collect(env, acc, l)
  {
    if l != [] {
      var front, x := l[..|l| - 1], l[|l| - 1];
      var s, firsts := Strip(env.blank, x), Collect(env, [], front);
      CollectFirsts(env, acc, front);
      if s != "" && HasKey(env, firsts, env.lower(s)) {
        CollectKeys(env, [], front, env.lower(s));
        CollectKeys(env, acc, front, env.lower(s));
      } else if s != "" {
        assert (firsts + [s])[..|firsts|] == firsts;
        StripTwice(env.blank, x);
      }
    }
  }

  /** The merged list: keys of both sides, no key twice, a deduplicated stored list as its beginning. */
  lemma BlocksAreUnion(env: Env, a: seq<string>, b: seq<string>, key: string)
    ensures HasKey(env, MergeBlocks(env, a, b), key) <==> Names(env, a, key) || Names(env, b, key)
    ensures IsDeduplicated(env, MergeBlocks(env, a, b))
    ensures IsDeduplicated(env, a) ==> a <= MergeBlocks(env, a, b)
  {
    CollectKeys(env, [], a + b, key);
    assert Names(env, a + b, key) <==> Names(env, a, key) || Names(env, b, key) by {
      NamesConcat(env, a, b, key);
    }
    CollectDeduplicates(env, [], a + b);
    if IsDeduplicated(env, a) {
      CollectConcat(env, [], a, b);
      CollectOfDeduplicated(env, a);
      CollectDeduplicates(env, a, b);
    }
  }

  lemma NamesConcat(env: Env, a: seq<string>, b: seq<string>, key: string)
    ensures Names(env, a + b, key) <==> Names(env, a, key) || Names(env, b, key)
  {
    if Names(env, a, key) {
      var i :| 0 <= i < |a| && Strip(env.blank, a[i]) != "" && env.lower(Strip(env.blank, a[i])) == key;
      assert (a + b)[i] == a[i];
    }
    if Names(env, b, key) {
      var i :| 0 <= i < |b| && Strip(env.blank, b[i]) != "" && env.lower(Strip(env.blank, b[i])) == key;
      assert (a + b)[|a| + i] == b[i];
    }
  }

  /** The entry at j is the first that names its key. */
  predicate IsFirst(env: Env, l: seq<string>, j: nat)
    requires j < |l|
  {
    var s := Strip(env.blank, l[j]);
    s != "" && forall i :: 0 <= i < j ==>
      Strip(env.blank, l[i]) == "" || env.lower(Strip(env.blank, l[i])) != env.lower(s)
  }

  /** The first appearances of l, in order. */
  function Firsts(env: Env, l: seq<string>, n: nat): seq<string>
    requires n <= |l|
  {
    if n == 0 then []
    else Firsts(env, l, n - 1) + if IsFirst(env, l, n - 1) then [Strip(env.blank, l[n - 1])] else []
  }

  lemma {:induction false} CollectIsFirsts(env: Env, l: seq<string>, n: nat)
    requires n <= |l|
    ensures Collect(env, [], l[..n]) == Firsts(env, l, n)
  {
    if n > 0 {
      CollectIsFirsts(env, l, n - 1);
      assert l[..n][..n - 1] == l[..n - 1];
      CollectKeys(env, [], l[..n - 1], env.lower(Strip(env.blank, l[n - 1])));
    }
  }

  /** Merged blocks come in the order in which they are first seen, stored ones before imported ones. */
  lemma BlocksInFirstSeenOrder(env: Env, a: seq<string>, b: seq<string>)
    ensures MergeBlocks(env, a, b) == Firsts(env, a + b, |a + b|)
  {
    CollectIsFirsts(env, a + b, |a + b|);
    assert (a + b)[..|a + b|] == a + b;
  }

  lemma BlocksIdempotent(env: Env, a: seq<string>, b: seq<string>)
    ensures MergeBlocks(env, MergeBlocks(env, a, b), b) == MergeBlocks(env, a, b)
  {
    var m := MergeBlocks(env, a, b);
    CollectDeduplicates(env, [], a + b);
    CollectConcat(env, [], m, b);
    CollectOfDeduplicated(env, m);
    NothingNew(env, m, a, b, |b|);
    assert b[..|b|] == b;
  }

  lemma {:induction false} NothingNew(env: Env, m: seq<string>, a: seq<string>, b: seq<string>, n: nat)
    requires m == MergeBlocks(env, a, b) && n <= |b|
    ensures Collect(env, m, b[..n]) == m
  {
    if n > 0 {
      NothingNew(env, m, a, b, n - 1);
      assert b[..n][..n - 1] == b[..n - 1];
      var s := Strip(env.blank, b[n - 1]);
      if s != "" {
        assert Names(env, b, env.lower(s));
        BlocksAreUnion(env, a, b, env.lower(s));
      }
    }
  }

  lemma BlocksAssociative(env: Env, a: seq<string>, b: seq<string>, c: seq<string>)
    ensures MergeBlocks(env, MergeBlocks(env, a, b), c) == MergeBlocks(env, a, MergeBlocks(env, b, c))
  {
    hide Collect;
    CollectConcat(env, [], MergeBlocks(env, a, b), c);
    CollectFirsts(env, [], a + b);
    CollectConcat(env, [], a + b, c);
    CollectConcat(env, [], a, MergeBlocks(env, b, c));
    CollectFirsts(env, Collect(env, [], a), b + c);
    CollectConcat(env, [], a, b + c);
    assert (a + b) + c == a + (b + c);
  }

  // ------------------------------------------------------------ items

  predicate IsEmptyValue(v: Json) {
    v == Null || v == Str("") || v == List([]) || v == Dict(map[])
  }

  function IdsOf(item: Item): Item {
    if "ids" in item && item["ids"].Dict? then item["ids"].fields else map[]
  }

  /** The value a field gets: the stored one unless it is empty and the import has one; ids stay out of it. */
  function Chosen(base: Item, next: Item, k: string): Json
    requires k in base || k in next
  {
    if k in base && (k == "ids" || k !in next || !IsEmptyValue(base[k])) then base[k] else next[k]
  }

  function MergeFields(base: Item, next: Item): Item {
    map k | k in base.Keys + (next.Keys - {"ids"}) :: Chosen(base, next, k)
  }

  function MergeItem(env: Env, base: Item, next: Item): Item {
    var ids := env.mergeIds(IdsOf(base), IdsOf(next));
    if ids == map[] then MergeFields(base, next) else MergeFields(base, next)["ids" := Dict(ids)]
  }

  method FillFields(base: Item, next: Item) returns (out: Item)
    ensures out == MergeFields(base, next)
  {
    hide IsEmptyValue;
    out := base;
    var todo := next.Keys;
    while todo != {}
      invariant todo <= next.Keys
      invariant out.Keys == base.Keys + (next.Keys - todo - {"ids"})
      invariant forall k :: k in out ==> out[k] == if k in todo then base[k] else Chosen(base, next, k)
      decreases |todo|
    {
      var k :| k in todo;
      todo := todo - {k};
      if k != "ids" && (k !in out || IsEmptyValue(out[k])) {
        out := out[k := next[k]];
      }
    }
  }

  method MergeManualItem(env: Env, base: Item, next: Item) returns (out: Item)
    ensures out == MergeItem(env, base, next)
  {
    out := FillFields(base, next);
    var ids := env.mergeIds(IdsOf(base), IdsOf(next));
    if ids != map[] {
      out := out["ids" := Dict(ids)];
    }
  }

  /** A stored field other than ids keeps its value exactly unless it is empty and the import differs. */
  lemma StoredFieldWins(env: Env, base: Item, next: Item, k: string)
    requires k in base && k != "ids"
    ensures k in MergeItem(env, base, next)
    ensures MergeItem(env, base, next)[k] == base[k]
       <==> !IsEmptyValue(base[k]) || k !in next || next[k] == base[k]
  {
  }

  /** Stored ids, whatever they are, give way exactly to a merge of ids that is not empty and differs. */
  lemma StoredIdsKept(env: Env, base: Item, next: Item)
    requires "ids" in base
    ensures "ids" in MergeItem(env, base, next)
    ensures var ids := env.mergeIds(IdsOf(base), IdsOf(next));
            MergeItem(env, base, next)["ids"] == base["ids"] <==> ids == map[] || Dict(ids) == base["ids"]
  {
  }

  /** Merging the same item again adds nothing, provided merging the same ids again does not. */
  lemma ItemIdempotent(env: Env, base: Item, next: Item)
    requires IdsSettle(env, base, next)
    ensures MergeItem(env, MergeItem(env, base, next), next) == MergeItem(env, base, next)
  {
    var once := MergeItem(env, base, next);
    var ids := env.mergeIds(IdsOf(base), IdsOf(next));
    if ids == map[] {
      assert "ids" in once <==> "ids" in base;
      assert IdsOf(once) == IdsOf(base);
    } else {
      assert IdsOf(once) == ids;
    }
    assert MergeFields(once, next) == once;
  }

  // ------------------------------------------------------------ tables of items

  function Lookup(t: Table, k: string): Option<Item> {
    if t == [] then None
    else if t[|t| - 1].0 == k then Some(t[|t| - 1].1)
    else Lookup(t[..|t| - 1], k)
  }

  /** Dictionary assignment: in place for a known key, at the end for a new one. */
  function Put(t: Table, k: string, item: Item): Table {
    if Lookup(t, k).None? then t + [(k, item)]
    else if t[|t| - 1].0 == k then t[..|t| - 1] + [(k, item)]
    else Put(t[..|t| - 1], k, item) + [t[|t| - 1]]
  }

  function OrEmpty(item: Option<Item>): Item {
    if item.None? then map[] else item.value
  }

  /** One raw entry filed under its canonical key. */
  function File(env: Env, t: Table, key: string, item: Item): Table {
    var final := env.keyOf(Strip(env.blank, key), item);
    if final == "" then t
    else
      match Lookup(t, final)
      case None => Put(t, final, item)
      case Some(had) => Put(t, final, MergeItem(env, had, item))
  }

  function Canonical(env: Env, items: Table): Table {
    if items == [] then []
    else File(env, Canonical(env, items[..|items| - 1]), items[|items| - 1].0, items[|items| - 1].1)
  }

  method CanonicalizeManualItems(env: Env, items: Table) returns (out: Table)
    ensures out == Canonical(env, items)
  {
    out := [];
    for i := 0 to |items|
      invariant out == Canonical(env, items[..i])
    {
      assert items[..i + 1][..i] == items[..i];
      var key := Strip(env.blank, items[i].0);
      var final := env.keyOf(key, items[i].1);
      if final != "" {
        var had := Lookup(out, final);
        if had.Some? {
          var merged := MergeManualItem(env, had.value, items[i].1);
          out := Put(out, final, merged);
        } else {
          out := Put(out, final, items[i].1);
        }
      }
    }
    assert items[..|items|] == items;
  }

  /** Every imported item merged into the stored ones, stored first. */
  function Absorb(env: Env, t: Table, more: Table): Table {
    if more == [] then t
    else
      var front := Absorb(env, t, more[..|more| - 1]);
      var (k, item) := more[|more| - 1];
      Put(front, k, MergeItem(env, OrEmpty(Lookup(front, k)), item))
  }

  function MergeItems(env: Env, stored: Table, imported: Table): Table {
    Absorb(env, Canonical(env, stored), Canonical(env, imported))
  }

  predicate UniqueKeys(t: Table) {
    forall i, j :: 0 <= i < j < |t| ==> t[i].0 != t[j].0
  }

  lemma {:induction false} LookupNone(t: Table, k: string)
    ensures Lookup(t, k).None? <==> forall i :: 0 <= i < |t| ==> t[i].0 != k
  {
    if t != [] {
      LookupNone(t[..|t| - 1], k);
    }
  }

  lemma {:induction false} LookupPut(t: Table, k: string, item: Item, j: string)
    ensures Lookup(Put(t, k, item), j) == if j == k then Some(item) else Lookup(t, j)
  {
    var r := Put(t, k, item);
    if Lookup(t, k).None? || t[|t| - 1].0 == k {
      assert r[..|r| - 1] == if Lookup(t, k).None? then t else t[..|t| - 1];
    } else {
      LookupPut(t[..|t| - 1], k, item, j);
      assert r[..|r| - 1] == Put(t[..|t| - 1], k, item);
    }
  }

  lemma {:induction false} PutKeys(t: Table, k: string, item: Item)
    requires UniqueKeys(t)
    ensures var r := Put(t, k, item);
            && |r| == (if Lookup(t, k).None? then |t| + 1 else |t|)
            && (forall i :: 0 <= i < |t| ==> r[i].0 == t[i].0)
            && (Lookup(t, k).None? ==> r[|t|].0 == k)
    ensures UniqueKeys(Put(t, k, item))
  {
    if Lookup(t, k).None? {
      LookupNone(t, k);
    } else if t[|t| - 1].0 != k {
      PutKeys(t[..|t| - 1], k, item);
    }
  }

  lemma {:induction false} PutSame(t: Table, k: string, item: Item)
    requires Lookup(t, k) == Some(item)
    ensures Put(t, k, item) == t
  {
    if t[|t| - 1].0 != k {
      PutSame(t[..|t| - 1], k, item);
    }
  }

  lemma {:induction false} CanonicalUnique(env: Env, items: Table)
    ensures UniqueKeys(Canonical(env, items))
  {
    if items != [] {
      var front := Canonical(env, items[..|items| - 1]);
      CanonicalUnique(env, items[..|items| - 1]);
      var (key, item) := items[|items| - 1];
      var final := env.keyOf(Strip(env.blank, key), item);
      PutKeys(front, final, item);
      PutKeys(front, final, MergeItem(env, OrEmpty(Lookup(front, final)), item));
    }
  }

  lemma {:induction false} AbsorbUnique(env: Env, t: Table, more: Table)
    requires UniqueKeys(t)
    ensures UniqueKeys(Absorb(env, t, more))
  {
    if more != [] {
      var front := Absorb(env, t, more[..|more| - 1]);
      AbsorbUnique(env, t, more[..|more| - 1]);
      PutKeys(front, more[|more| - 1].0,
              MergeItem(env, OrEmpty(Lookup(front, more[|more| - 1].0)), more[|more| - 1].1));
    }
  }

  /** What a key holds after absorbing a table of unique keys. */
  lemma {:induction false} AbsorbAt(env: Env, t: Table, more: Table, k: string)
    requires UniqueKeys(more)
    ensures Lookup(Absorb(env, t, more), k)
         == match Lookup(more, k)
            case None => Lookup(t, k)
            case Some(item) => Some(MergeItem(env, OrEmpty(Lookup(t, k)), item))
  {
    if more != [] {
      var front := more[..|more| - 1];
      var (j, item) := more[|more| - 1];
      AbsorbAt(env, t, front, k);
      AbsorbAt(env, t, front, j);
      LookupNone(front, j);
      var a := Absorb(env, t, front);
      LookupPut(a, j, MergeItem(env, OrEmpty(Lookup(a, j)), item), k);
    }
  }

  /** The key an entry is filed under; "" is no key. */
  function FinalKey(env: Env, entry: (string, Item)): string {
    env.keyOf(Strip(env.blank, entry.0), entry.1)
  }

  predicate Files(env: Env, t: Table, k: string) {
    exists i :: 0 <= i < |t| && FinalKey(env, t[i]) == k
  }

  /** What filing one more entry does to a key. */
  lemma CanonicalLast(env: Env, t: Table, k: string)
    requires t != []
    ensures var had, last := Lookup(Canonical(env, t[..|t| - 1]), k), t[|t| - 1];
            Lookup(Canonical(env, t), k) ==
            if k == "" || FinalKey(env, last) != k then had
            else if had.None? then Some(last.1) else Some(MergeItem(env, had.value, last.1))
    ensures Lookup(Canonical(env, t), "").None?
    decreases t
  {
    hide MergeItem;
    var c, last := Canonical(env, t[..|t| - 1]), t[|t| - 1];
    var final := FinalKey(env, last);
    if t[..|t| - 1] != [] {
      CanonicalLast(env, t[..|t| - 1], k);
    }
    if final != "" {
      LookupPut(c, final, last.1, k);
      LookupPut(c, final, last.1, "");
      LookupPut(c, final, MergeItem(env, OrEmpty(Lookup(c, final)), last.1), k);
      LookupPut(c, final, MergeItem(env, OrEmpty(Lookup(c, final)), last.1), "");
    }
  }

  lemma {:induction false} CanonicalKeys(env: Env, t: Table, k: string)
    ensures Lookup(Canonical(env, t), k).Some? <==> k != "" && Files(env, t, k)
  {
    hide MergeItem, FinalKey;
    if t != [] {
      var front, last := t[..|t| - 1], t[|t| - 1];
      CanonicalKeys(env, front, k);
      assert Files(env, t, k) <==> Files(env, front, k) || FinalKey(env, last) == k;
      CanonicalLast(env, t, k);
    }
  }

  /** No stored item disappears and no key comes from nowhere. */
  lemma MergedKeys(env: Env, stored: Table, imported: Table, k: string)
    ensures Lookup(MergeItems(env, stored, imported), k).Some?
       <==> k != "" && (Files(env, stored, k) || Files(env, imported, k))
  {
    CanonicalUnique(env, imported);
    AbsorbAt(env, Canonical(env, stored), Canonical(env, imported), k);
    CanonicalKeys(env, stored, k);
    CanonicalKeys(env, imported, k);
  }

  predicate Filled(item: Item, f: string) {
    f in item && !IsEmptyValue(item[f])
  }

  /** Entry j is filed under k and has field f filled. */
  predicate Holds(env: Env, t: Table, j: nat, k: string, f: string)
    requires j < |t|
  {
    FinalKey(env, t[j]) == k && Filled(t[j].1, f)
  }

  predicate FirstHolds(env: Env, t: Table, j: nat, k: string, f: string)
    requires j < |t|
  {
    Holds(env, t, j, k, f) && forall i: nat | i < j :: !Holds(env, t, i, k, f)
  }

  /** How far the first entries decide a field: what the first holder has, or nothing filled. */
  ghost predicate Decided(env: Env, t: Table, r: Option<Item>, k: string, f: string) {
    && (forall j: nat | j < |t| && FirstHolds(env, t, j, k, f) :: r.Some? && f in r.value && r.value[f] == t[j].1[f])
    && ((forall j: nat | j < |t| :: !Holds(env, t, j, k, f)) ==> r.None? || !Filled(r.value, f))
  }

  lemma MergedField(env: Env, had: Item, item: Item, f: string)
    requires f != "ids"
    ensures var r := MergeItem(env, had, item);
            && (Filled(had, f) ==> f in r && r[f] == had[f])
            && (!Filled(had, f) && Filled(item, f) ==> f in r && r[f] == item[f])
            && (!Filled(had, f) && !Filled(item, f) ==> !Filled(r, f))
  {
  }

  lemma HoldsLast(env: Env, t: Table, k: string, f: string)
    requires t != []
    ensures var front, n := t[..|t| - 1], |t| - 1;
            && (forall j: nat | j < n :: Holds(env, t, j, k, f) == Holds(env, front, j, k, f))
            && (forall j: nat | j < n :: FirstHolds(env, t, j, k, f) == FirstHolds(env, front, j, k, f))
            && (FirstHolds(env, t, n, k, f)
                <==> Holds(env, t, n, k, f) && forall j: nat | j < n :: !Holds(env, front, j, k, f))
  {
    hide Filled, FinalKey;
  }

  /** A canonical field is that of the first entry that has it filled. */
  lemma {:induction false} CanonicalField(env: Env, t: Table, k: string, f: string)
    requires k != "" && f != "ids"
    ensures Decided(env, t, Lookup(Canonical(env, t), k), k, f)
  {
    hide Canonical, MergeItem, Filled, FirstHolds, Lookup;
    if t != [] {
      var front, last := t[..|t| - 1], t[|t| - 1];
      var had := Lookup(Canonical(env, front), k);
      CanonicalField(env, front, k, f);
      CanonicalLast(env, t, k);
      HoldsLast(env, t, k, f);
      SomeFirst(env, front, k, f, |front|);
      if FinalKey(env, last) == k {
        FilledHere(env, front, had, k, f);
        FilledIn(last.1, f);
        if had.Some? {
          FilledIn(had.value, f);
          MergedField(env, had.value, last.1, f);
        }
      }
    } else {
      CanonicalEmpty(env, k);
    }
  }

  lemma FilledIn(item: Item, f: string)
    ensures Filled(item, f) ==> f in item
  {
  }

  lemma CanonicalEmpty(env: Env, k: string)
    ensures Lookup(Canonical(env, []), k).None?
  {
  }

  /** Whether the entries so far have the field filled shows in their canonical item. */
  lemma FilledHere(env: Env, t: Table, had: Option<Item>, k: string, f: string)
    requires Decided(env, t, had, k, f)
    ensures had.Some? ==> (Filled(had.value, f) <==> exists j: nat :: j < |t| && Holds(env, t, j, k, f))
    ensures had.None? ==> forall j: nat | j < |t| :: !Holds(env, t, j, k, f)
  {
    SomeFirst(env, t, k, f, |t|);
  }

  lemma {:induction false} SomeFirst(env: Env, t: Table, k: string, f: string, n: nat)
    requires n <= |t|
    ensures (exists j: nat :: j < n && Holds(env, t, j, k, f))
       <==> exists j: nat :: j < n && FirstHolds(env, t, j, k, f)
  {
    if n > 0 {
      SomeFirst(env, t, k, f, n - 1);
      if Holds(env, t, n - 1, k, f) && !exists j: nat :: j < n - 1 && Holds(env, t, j, k, f) {
        assert FirstHolds(env, t, n - 1, k, f);
      }
    }
  }

  /**
   * A stored entry keeps a filled field through an import if and only if it has
   * a key and the first stored entry of that key with the field filled agrees.
   */
  lemma StoredItemsWin(env: Env, stored: Table, imported: Table, i: nat, f: string)
    requires i < |stored| && f != "ids" && Filled(stored[i].1, f)
    ensures var k := FinalKey(env, stored[i]);
            var now := Lookup(MergeItems(env, stored, imported), k);
            now.Some? && f in now.value && now.value[f] == stored[i].1[f] <==>
            k != "" && forall j: nat | j < i && FirstHolds(env, stored, j, k, f) :: stored[j].1[f] == stored[i].1[f]
  {
    var k := FinalKey(env, stored[i]);
    MergedKeys(env, stored, imported, k);
    if k != "" {
      CanonicalField(env, stored, k, f);
      SomeFirst(env, stored, k, f, |stored|);
      assert Holds(env, stored, i, k, f);
      var j: nat :| j < |stored| && FirstHolds(env, stored, j, k, f);
      assert j <= i;
      hide Canonical, Absorb;
      CanonicalUnique(env, imported);
      AbsorbAt(env, Canonical(env, stored), Canonical(env, imported), k);
      var next := Lookup(Canonical(env, imported), k);
      if next.Some? {
        StoredFieldWins(env, Lookup(Canonical(env, stored), k).value, next.value, f);
      }
    }
  }

  predicate Filed(env: Env, k: string, item: Item) {
    k != "" && FinalKey(env, (k, item)) == k
  }

  /** Ids merged with the same ids again stay as they are. */
  predicate IdsSettle(env: Env, base: Item, next: Item) {
    var ids := env.mergeIds(IdsOf(base), IdsOf(next));
    env.mergeIds(ids, IdsOf(next)) == ids
  }

  /** Each item is filed under the key it would be given again. */
  predicate StableKeys(env: Env, t: Table) {
    forall i :: 0 <= i < |t| ==> Filed(env, t[i].0, t[i].1)
  }

  /** Merging the ids of an imported item a second time into a stored one changes nothing. */
  predicate StableIds(env: Env, stored: Table, imported: Table) {
    forall i :: 0 <= i < |imported| ==> IdsSettle(env, OrEmpty(Lookup(stored, imported[i].0)), imported[i].1)
  }

  lemma {:induction false} CanonicalOfStable(env: Env, t: Table)
    requires UniqueKeys(t) && StableKeys(env, t)
    ensures Canonical(env, t) == t
  {
    if t != [] {
      var front := t[..|t| - 1];
      CanonicalOfStable(env, front);
      LookupNone(front, t[|t| - 1].0);
      assert front + [t[|t| - 1]] == t;
    }
  }

  lemma {:induction false} LookupAt(t: Table, i: nat)
    requires UniqueKeys(t) && i < |t|
    ensures Lookup(t, t[i].0) == Some(t[i].1)
  {
    if i < |t| - 1 {
      LookupAt(t[..|t| - 1], i);
    }
  }

  lemma PutAgain(env: Env, t: Table, more: Table, i: nat)
    requires UniqueKeys(more) && StableIds(env, t, more) && i < |more|
    ensures var once := Absorb(env, t, more);
            Put(once, more[i].0, MergeItem(env, OrEmpty(Lookup(once, more[i].0)), more[i].1)) == once
  {
    var once, k, item := Absorb(env, t, more), more[i].0, more[i].1;
    LookupAt(more, i);
    AbsorbAt(env, t, more, k);
    hide Absorb, MergeItem, Lookup, Put;
    ItemIdempotent(env, OrEmpty(Lookup(t, k)), item);
    PutSame(once, k, MergeItem(env, OrEmpty(Lookup(once, k)), item));
  }

  lemma {:induction false} AbsorbAgain(env: Env, t: Table, more: Table, n: nat)
    requires UniqueKeys(more) && StableIds(env, t, more) && n <= |more|
    ensures Absorb(env, Absorb(env, t, more), more[..n]) == Absorb(env, t, more)
  {
    hide MergeItem, Lookup, Put, StableIds, UniqueKeys;
    if n > 0 {
      AbsorbAgain(env, t, more, n - 1);
      assert more[..n][..n - 1] == more[..n - 1];
      PutAgain(env, t, more, n - 1);
    }
  }

  lemma TwiceIfStable(env: Env, stored: Table, imported: Table)
    requires StableKeys(env, MergeItems(env, stored, imported))
    requires StableIds(env, Canonical(env, stored), Canonical(env, imported))
    ensures MergeItems(env, MergeItems(env, stored, imported), imported) == MergeItems(env, stored, imported)
  {
    var t, more := Canonical(env, stored), Canonical(env, imported);
    CanonicalUnique(env, stored);
    CanonicalUnique(env, imported);
    AbsorbUnique(env, t, more);
    CanonicalOfStable(env, MergeItems(env, stored, imported));
    AbsorbAgain(env, t, more, |more|);
    assert more[..|more|] == more;
  }

  /**
   * Keys are stable under the merge of items, for the entries in ok: an item
   * filed once is filed there again, two items filed under one key merge into one
   * filed there, and so does an item merged into none; ids settle after one merge.
   */
  ghost predicate StableUnderMerge(env: Env, ok: (string, Item) -> bool) {
    && (forall k, x :: ok(k, x) && FinalKey(env, (k, x)) != "" ==>
          Filed(env, FinalKey(env, (k, x)), x) && ok(FinalKey(env, (k, x)), x))
    && (forall k, x, y :: ok(k, x) && ok(k, y) && Filed(env, k, x) && Filed(env, k, y) ==>
          Filed(env, k, MergeItem(env, x, y)) && ok(k, MergeItem(env, x, y)) && IdsSettle(env, x, y))
    && (forall k, y :: ok(k, y) && Filed(env, k, y) ==>
          Filed(env, k, MergeItem(env, map[], y)) && ok(k, MergeItem(env, map[], y)) && IdsSettle(env, map[], y))
  }

  predicate AllOk(t: Table, ok: (string, Item) -> bool) {
    forall i :: 0 <= i < |t| ==> ok(t[i].0, t[i].1)
  }

  /** A table of such items under their own keys. */
  predicate Settled(env: Env, t: Table, ok: (string, Item) -> bool) {
    forall i :: 0 <= i < |t| ==> ok(t[i].0, t[i].1) && Filed(env, t[i].0, t[i].1)
  }

  lemma {:induction false} SettledLookup(env: Env, t: Table, ok: (string, Item) -> bool, k: string)
    requires Settled(env, t, ok)
    ensures Lookup(t, k).Some? ==> ok(k, Lookup(t, k).value) && Filed(env, k, Lookup(t, k).value)
  {
    if t != [] && t[|t| - 1].0 != k {
      SettledLookup(env, t[..|t| - 1], ok, k);
    }
  }

  lemma {:induction false} SettledPut(env: Env, t: Table, ok: (string, Item) -> bool, k: string, item: Item)
    requires Settled(env, t, ok) && ok(k, item) && Filed(env, k, item)
    ensures Settled(env, Put(t, k, item), ok)
  {
    hide Filed;
    if Lookup(t, k).Some? && t[|t| - 1].0 != k {
      SettledPut(env, t[..|t| - 1], ok, k, item);
    }
  }

  lemma MergeSettled(env: Env, ok: (string, Item) -> bool, had: Option<Item>, k: string, item: Item)
    requires StableUnderMerge(env, ok) && ok(k, item) && Filed(env, k, item)
    requires had.Some? ==> ok(k, had.value) && Filed(env, k, had.value)
    ensures ok(k, MergeItem(env, OrEmpty(had), item)) && Filed(env, k, MergeItem(env, OrEmpty(had), item))
    ensures IdsSettle(env, OrEmpty(had), item)
  {
    hide MergeItem, Filed;
  }

  lemma {:induction false} CanonicalSettled(env: Env, t: Table, ok: (string, Item) -> bool)
    requires StableUnderMerge(env, ok) && AllOk(t, ok)
    ensures Settled(env, Canonical(env, t), ok)
  {
    hide MergeItem, Filed, Put, Lookup, IdsSettle;
    if t != [] {
      var front, last := t[..|t| - 1], t[|t| - 1];
      CanonicalSettled(env, front, ok);
      var c, k := Canonical(env, front), FinalKey(env, last);
      assert last == (last.0, last.1);
      if k != "" {
        SettledLookup(env, c, ok, k);
        MergeSettled(env, ok, Lookup(c, k), k, last.1);
        SettledPut(env, c, ok, k, last.1);
        SettledPut(env, c, ok, k, MergeItem(env, OrEmpty(Lookup(c, k)), last.1));
      }
    }
  }

  lemma {:induction false} AbsorbSettled(env: Env, t: Table, more: Table, ok: (string, Item) -> bool)
    requires StableUnderMerge(env, ok) && Settled(env, t, ok) && Settled(env, more, ok)
    ensures Settled(env, Absorb(env, t, more), ok)
  {
    hide MergeItem, Filed, Put, Lookup, StableUnderMerge, IdsSettle;
    if more != [] {
      var (k, item) := more[|more| - 1];
      var a := Absorb(env, t, more[..|more| - 1]);
      AbsorbSettled(env, t, more[..|more| - 1], ok);
      SettledLookup(env, a, ok, k);
      MergeSettled(env, ok, Lookup(a, k), k, item);
      SettledPut(env, a, ok, k, MergeItem(env, OrEmpty(Lookup(a, k)), item));
    }
  }

  /** Keys stable under the merge make the keys of the whole result stable. */
  lemma ResultSettled(env: Env, stored: Table, imported: Table, ok: (string, Item) -> bool)
    requires StableUnderMerge(env, ok) && AllOk(stored, ok) && AllOk(imported, ok)
    ensures Settled(env, MergeItems(env, stored, imported), ok)
    ensures StableKeys(env, MergeItems(env, stored, imported))
  {
    hide StableUnderMerge;
    CanonicalSettled(env, stored, ok);
    CanonicalSettled(env, imported, ok);
    AbsorbSettled(env, Canonical(env, stored), Canonical(env, imported), ok);
  }

  lemma ResultIds(env: Env, stored: Table, imported: Table, ok: (string, Item) -> bool)
    requires StableUnderMerge(env, ok) && AllOk(stored, ok) && AllOk(imported, ok)
    ensures StableIds(env, Canonical(env, stored), Canonical(env, imported))
  {
    CanonicalSettled(env, stored, ok);
    CanonicalSettled(env, imported, ok);
    hide Canonical, Filed, FinalKey, MergeItem, Lookup, StableUnderMerge, IdsSettle;
    var t, more := Canonical(env, stored), Canonical(env, imported);
    forall i | 0 <= i < |more|
      ensures IdsSettle(env, OrEmpty(Lookup(t, more[i].0)), more[i].1)
    {
      SettledLookup(env, t, ok, more[i].0);
      MergeSettled(env, ok, Lookup(t, more[i].0), more[i].0, more[i].1);
    }
  }

  /** Merging the same import twice equals merging it once when keys are stable under the merge of items. */
  lemma ImportTwice(env: Env, stored: Table, imported: Table, ok: (string, Item) -> bool)
    requires StableUnderMerge(env, ok) && AllOk(stored, ok) && AllOk(imported, ok)
    ensures MergeItems(env, MergeItems(env, stored, imported), imported) == MergeItems(env, stored, imported)
  {
    ResultSettled(env, stored, imported, ok);
    ResultIds(env, stored, imported, ok);
    TwiceIfStable(env, stored, imported);
  }

  /**
   * It does not when some key's stored and imported items merge into one that
   * belongs under a key neither table files anything at, whatever else they hold.
   */
  lemma MovedKeySplits(env: Env, stored: Table, imported: Table, k: string)
    requires Lookup(Canonical(env, imported), k).Some?
    requires var now := MergeItem(env, OrEmpty(Lookup(Canonical(env, stored), k)),
                             Lookup(Canonical(env, imported), k).value);
             var c := FinalKey(env, (k, now));
             c != "" && !Files(env, stored, c) && !Files(env, imported, c)
    ensures MergeItems(env, MergeItems(env, stored, imported), imported) != MergeItems(env, stored, imported)
  {
    var once := MergeItems(env, stored, imported);
    var now := MergeItem(env, OrEmpty(Lookup(Canonical(env, stored), k)), Lookup(Canonical(env, imported), k).value);
    var c := FinalKey(env, (k, now));
    CanonicalUnique(env, imported);
    AbsorbAt(env, Canonical(env, stored), Canonical(env, imported), k);
    LookupIn(once, k);
    assert Files(env, once, c);
    hide MergeItems, Canonical, MergeItem, Files;
    MergedKeys(env, stored, imported, c);
    MergedKeys(env, once, imported, c);
  }

  lemma {:induction false} LookupIn(t: Table, k: string)
    requires Lookup(t, k).Some?
    ensures exists i :: 0 <= i < |t| && t[i] == (k, Lookup(t, k).value)
  {
    if t[|t| - 1].0 != k {
      LookupIn(t[..|t| - 1], k);
      var i :| 0 <= i < |t| - 1 && t[..|t| - 1][i] == (k, Lookup(t[..|t| - 1], k).value);
      assert t[i] == t[..|t| - 1][i];
    } else {
      assert t[|t| - 1] == (k, t[|t| - 1].1);
    }
  }

  // ------------------------------------------------------------ whole policies

  datatype Kind = Watchlist | History | Ratings | Progress

  /** One kind of one node: its block list, and its manual additions if it has any. */
  datatype Feature = Feature(blocks: seq<string>, items: Option<Table>)

  type Features = map<Kind, Feature>

  datatype Node = Node(features: Features, instances: map<string, Features>)

  type Policy = map<string, Node>

  function MergeFeature(env: Env, t: Feature, f: Feature): Feature {
    Feature(MergeBlocks(env, t.blocks, f.blocks),
            match f.items
            case None => t.items
            case Some(more) => Some(MergeItems(env, if t.items.None? then [] else t.items.value, more)))
  }

  const NO_FEATURE := Feature([], None)
  const NO_NODE := Node(map[], map[])

  function MergeFeatures(envs: Kind -> Env, t: Features, node: Features): Features {
    map k | k in t.Keys + node.Keys ::
      if k !in node then t[k] else MergeFeature(envs(k), if k in t then t[k] else NO_FEATURE, node[k])
  }

  function MergeNode(envs: Kind -> Env, t: Node, node: Node): Node {
    Node(MergeFeatures(envs, t.features, node.features),
         map i | i in t.instances.Keys + node.instances.Keys ::
           if i !in node.instances then t.instances[i]
           else MergeFeatures(envs, if i in t.instances then t.instances[i] else map[], node.instances[i]))
  }

  function MergePolicy(envs: Kind -> Env, stored: Policy, imported: Policy): Policy {
    map p | p in stored.Keys + imported.Keys ::
      if p !in imported then stored[p] else MergeNode(envs, if p in stored then stored[p] else NO_NODE, imported[p])
  }

  predicate FeatureOk(f: Feature, ok: (string, Item) -> bool) {
    f.items.Some? ==> AllOk(f.items.value, ok)
  }

  predicate FeaturesOk(fs: Features, ok: Kind -> (string, Item) -> bool) {
    forall k :: k in fs ==> FeatureOk(fs[k], ok(k))
  }

  predicate NodeOk(node: Node, ok: Kind -> (string, Item) -> bool) {
    FeaturesOk(node.features, ok) && forall i :: i in node.instances ==> FeaturesOk(node.instances[i], ok)
  }

  predicate PolicyOk(policy: Policy, ok: Kind -> (string, Item) -> bool) {
    forall p :: p in policy ==> NodeOk(policy[p], ok)
  }

  ghost predicate KindsStable(envs: Kind -> Env, ok: Kind -> (string, Item) -> bool) {
    forall k :: StableUnderMerge(envs(k), ok(k))
  }

  lemma FeatureTwice(env: Env, t: Feature, f: Feature, ok: (string, Item) -> bool)
    requires StableUnderMerge(env, ok) && FeatureOk(t, ok) && FeatureOk(f, ok)
    ensures MergeFeature(env, MergeFeature(env, t, f), f) == MergeFeature(env, t, f)
  {
    BlocksIdempotent(env, t.blocks, f.blocks);
    if f.items.Some? {
      ImportTwice(env, if t.items.None? then [] else t.items.value, f.items.value, ok);
    }
  }

  lemma FeaturesTwice(envs: Kind -> Env, t: Features, node: Features, ok: Kind -> (string, Item) -> bool)
    requires KindsStable(envs, ok) && FeaturesOk(t, ok) && FeaturesOk(node, ok)
    ensures MergeFeatures(envs, MergeFeatures(envs, t, node), node) == MergeFeatures(envs, t, node)
  {
    hide MergeFeature, StableUnderMerge;
    forall k | k in node
      ensures var f := if k in t then t[k] else NO_FEATURE;
              MergeFeature(envs(k), MergeFeature(envs(k), f, node[k]), node[k]) == MergeFeature(envs(k), f, node[k])
    {
      FeatureTwice(envs(k), if k in t then t[k] else NO_FEATURE, node[k], ok(k));
    }
  }

  lemma NodeTwice(envs: Kind -> Env, t: Node, node: Node, ok: Kind -> (string, Item) -> bool)
    requires KindsStable(envs, ok) && NodeOk(t, ok) && NodeOk(node, ok)
    ensures MergeNode(envs, MergeNode(envs, t, node), node) == MergeNode(envs, t, node)
  {
    hide MergeFeatures, KindsStable;
    FeaturesTwice(envs, t.features, node.features, ok);
    forall i | i in node.instances
      ensures var f := if i in t.instances then t.instances[i] else map[];
              MergeFeatures(envs, MergeFeatures(envs, f, node.instances[i]), node.instances[i])
              == MergeFeatures(envs, f, node.instances[i])
    {
      FeaturesTwice(envs, if i in t.instances then t.instances[i] else map[], node.instances[i], ok);
    }
    assert MergeNode(envs, MergeNode(envs, t, node), node).instances == MergeNode(envs, t, node).instances;
  }

  /** Importing the same policy twice leaves what importing it once leaves, through providers, kinds and instances. */
  lemma PolicyTwice(envs: Kind -> Env, stored: Policy, imported: Policy, ok: Kind -> (string, Item) -> bool)
    requires KindsStable(envs, ok) && PolicyOk(stored, ok) && PolicyOk(imported, ok)
    ensures MergePolicy(envs, MergePolicy(envs, stored, imported), imported) == MergePolicy(envs, stored, imported)
  {
    hide MergeNode, KindsStable;
    forall p | p in imported
      ensures var n := if p in stored then stored[p] else NO_NODE;
              MergeNode(envs, MergeNode(envs, n, imported[p]), imported[p]) == MergeNode(envs, n, imported[p])
    {
      NodeTwice(envs, if p in stored then stored[p] else NO_NODE, imported[p], ok);
    }
  }
}
