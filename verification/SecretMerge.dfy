/**
 * Saving a configuration that was shown with its secrets blanked: the deep
 * merge of the payload into the stored tree, and the pass that puts stored
 * secrets back wherever the payload left them blank or masked.
 */
module SecretMerge {
  import opened JsonTree
  import opened Numbers
  import opened Sequences

  /** blank: None, "", or the mask. sensitiveKey: by the key alone. clean: stripped and lowered. */
  datatype Rules = Rules(blank: Json -> bool, sensitiveKey: string -> bool, clean: string -> string)

  const URL_KEYS: set<string> :=
    {"url", "default_url", "base_url", "healthchecks_base_url", "start_url", "success_url", "failure_url"}

  function CleanPath(r: Rules, path: seq<string>): seq<string> {
    if path == [] then []
    else
      var front := CleanPath(r, path[..|path| - 1]);
      if r.clean(path[|path| - 1]) == "" then front else front + [r.clean(path[|path| - 1])]
  }

  function Cleaned(r: Rules, path: seq<string>): (l: seq<string>)
    ensures |l| == |path|
  {
    seq(|path|, i requires 0 <= i < |path| => r.clean(path[i]))
  }

  function NotBlank(): string -> bool {
    (part: string) => part != ""
  }

  /** The parts of a path count stripped and lowered, and blank ones not at all. */
  lemma {:induction false} CleanPathIs(r: Rules, path: seq<string>)
    ensures CleanPath(r, path) == Filter(NotBlank(), Cleaned(r, path))
  {
    if path == [] {
      assert Cleaned(r, path) == [];
    } else {
      var front, last := path[..|path| - 1], r.clean(path[|path| - 1]);
      CleanPathIs(r, front);
      assert Cleaned(r, path) == Cleaned(r, front) + [last];
      FilterConcat(NotBlank(), Cleaned(r, front), [last]);
      FilterCons(NotBlank(), last, []);
      assert [last] + [] == [last];
    }
  }

  predicate SensitivePath(r: Rules, path: seq<string>) {
    var clean := CleanPath(r, path);
    |clean| >= 3 && clean[0] == "scheduling" && clean[1] == "webhooks" && clean[|clean| - 1] in URL_KEYS
  }

  predicate Sensitive(r: Rules, key: string, path: seq<string>) {
    r.sensitiveKey(key) || SensitivePath(r, path + [key])
  }

  /** Two values the pass walks into together. */
  predicate Walks(inc: Json, mer: Json) {
    (inc.Dict? && mer.Dict?) || (inc.List? && mer.List?)
  }

  function Child(cur: Json, k: string): Json {
    if cur.Dict? && k in cur.fields then cur.fields[k] else Null
  }

  /** The stored value of a key, "" when nothing is stored. */
  function StoredOr(cur: Json, k: string): Json {
    if cur.Dict? && k in cur.fields then cur.fields[k] else Str("")
  }

  function Common(cur: seq<Json>, inc: seq<Json>, mer: seq<Json>): nat {
    Min(|inc|, Min(|mer|, |cur|))
  }

  /** The tree mer after the pass. */
  function Preserve(r: Rules, cur: Json, inc: Json, mer: Json, path: seq<string>): Json
    decreases mer
  {
    if inc.Dict? && mer.Dict? then
      Dict(map k | k in mer.fields ::
             if k !in inc.fields then mer.fields[k]
             else if Walks(inc.fields[k], mer.fields[k]) then
               Preserve(r, Child(cur, k), inc.fields[k], mer.fields[k], path + [k])
             else if Sensitive(r, k, path) && r.blank(inc.fields[k]) then StoredOr(cur, k)
             else mer.fields[k])
    else if inc.List? && cur.List? && mer.List? then
      var n := Common(cur.items, inc.items, mer.items);
      List(seq(|mer.items|, i requires 0 <= i < |mer.items| =>
                 if i < n then Preserve(r, cur.items[i], inc.items[i], mer.items[i], path + [Digits(i)])
                 else mer.items[i]))
    else mer
  }

  /** _deep_merge: dictionaries merge key by key, anything else is replaced. */
  function DeepMerge(stored: Json, over: Json): Json
    requires stored.Dict? && over.Dict?
    decreases over
  {
    Dict(map k | k in stored.fields.Keys + over.fields.Keys ::
           if k !in over.fields then stored.fields[k]
           else if over.fields[k].Dict? && k in stored.fields && stored.fields[k].Dict? then
             DeepMerge(stored.fields[k], over.fields[k])
           else over.fields[k])
  }

  /** The value the pass leaves at one key that payload and merged tree share. */
  method PreserveEntry(r: Rules, cur: Json, inc: Json, mer: Json, path: seq<string>, k: string) returns (v: Json)
    requires inc.Dict? && mer.Dict? && k in inc.fields && k in mer.fields
    ensures v == Preserve(r, cur, inc, mer, path).fields[k]
    decreases mer, 0
  {
    var value := inc.fields[k];
    v := mer.fields[k];
    if Walks(value, v) {
      v := PreserveValues(r, Child(cur, k), value, v, path + [k]);
    } else if Sensitive(r, k, path) && r.blank(value) {
      v := StoredOr(cur, k);
    }
  }

  lemma PreserveKeys(r: Rules, cur: Json, inc: Json, mer: Json, path: seq<string>)
    requires inc.Dict? && mer.Dict?
    ensures var out := Preserve(r, cur, inc, mer, path);
            out.Dict? && out.fields.Keys == mer.fields.Keys
            && forall k :: k in mer.fields && k !in inc.fields ==> out.fields[k] == mer.fields[k]
  {
  }

  method PreserveDict(r: Rules, cur: Json, inc: Json, mer: Json, path: seq<string>) returns (out: Json)
    requires inc.Dict? && mer.Dict?
    ensures out == Preserve(r, cur, inc, mer, path)
    decreases mer, 1
  {
    PreserveKeys(r, cur, inc, mer, path);
    hide Preserve;
    ghost var goal := Preserve(r, cur, inc, mer, path).fields;
    var merged := mer.fields;
    var todo := inc.fields.Keys;
    while todo != {}
      invariant todo <= inc.fields.Keys && merged.Keys == mer.fields.Keys
      invariant forall k :: k in mer.fields ==> merged[k] == if k in todo then mer.fields[k] else goal[k]
      decreases |todo|
    {
      var k :| k in todo;
      todo := todo - {k};
      if k in mer.fields {
        var v := PreserveEntry(r, cur, inc, mer, path, k);
        merged := merged[k := v];
      }
    }
    assert merged == goal;
    out := Dict(merged);
  }

  method PreserveList(r: Rules, cur: Json, inc: Json, mer: Json, path: seq<string>) returns (out: Json)
    requires inc.List? && cur.List? && mer.List?
    ensures out == Preserve(r, cur, inc, mer, path)
    decreases mer, 1
  {
    var items := mer.items;
    for i := 0 to Common(cur.items, inc.items, mer.items)
      invariant |items| == |mer.items|
      invariant forall j :: 0 <= j < |items| ==>
        items[j] == if j < i then Preserve(r, cur.items[j], inc.items[j], mer.items[j], path + [Digits(j)])
                    else mer.items[j]
    {
      var inner := PreserveValues(r, cur.items[i], inc.items[i], mer.items[i], path + [Digits(i)]);
      items := items[i := inner];
    }
    out := List(items);
  }

  /** The pass as coded, walking the payload and rewriting the merged tree entry by entry. */
  method PreserveValues(r: Rules, cur: Json, inc: Json, mer: Json, path: seq<string>) returns (out: Json)
    ensures out == Preserve(r, cur, inc, mer, path)
    decreases mer, 2
  {
    if inc.Dict? && mer.Dict? {
      out := PreserveDict(r, cur, inc, mer, path);
    } else if inc.List? && cur.List? && mer.List? {
      out := PreserveList(r, cur, inc, mer, path);
    } else {
      out := mer;
    }
  }

  // ------------------------------------------------------------ location by location

  datatype Step = Key(k: string) | Idx(i: nat)

  function Get(j: Json, p: seq<Step>): Option<Json> {
    if p == [] then Some(j)
    else
      match p[0]
      case Key(k) => if j.Dict? && k in j.fields then Get(j.fields[k], p[1..]) else None
      case Idx(i) => if j.List? && i < |j.items| then Get(j.items[i], p[1..]) else None
  }

  /** p ends at a sensitive key whose payload value is blank, and payload, merged tree and, through
      lists, stored tree can all be walked down to it. */
  predicate Protected(r: Rules, cur: Json, inc: Json, mer: Json, path: seq<string>, p: seq<Step>)
    decreases |p|
  {
    p != [] &&
    match p[0]
    case Key(k) =>
      && inc.Dict? && mer.Dict? && k in inc.fields && k in mer.fields
      && (if Walks(inc.fields[k], mer.fields[k])
          then Protected(r, Child(cur, k), inc.fields[k], mer.fields[k], path + [k], p[1..])
          else |p| == 1 && Sensitive(r, k, path) && r.blank(inc.fields[k]))
    case Idx(i) =>
      && inc.List? && cur.List? && mer.List? && i < Common(cur.items, inc.items, mer.items)
      && Protected(r, cur.items[i], inc.items[i], mer.items[i], path + [Digits(i)], p[1..])
  }

  /** A protected location ends up with the stored value, or with "" when nothing is stored there. */
  lemma {:induction false} ProtectedRestored(r: Rules, cur: Json, inc: Json, mer: Json, path: seq<string>, p: seq<Step>)
    requires Protected(r, cur, inc, mer, path, p)
    ensures Get(Preserve(r, cur, inc, mer, path), p)
         == Some(if Get(cur, p).Some? then Get(cur, p).value else Str(""))
    decreases |p|
  {
    match p[0] {
      case Key(k) =>
        if Walks(inc.fields[k], mer.fields[k]) {
          ProtectedRestored(r, Child(cur, k), inc.fields[k], mer.fields[k], path + [k], p[1..]);
          NothingBelowNull(p[1..]);
        }
      case Idx(i) =>
        ProtectedRestored(r, cur.items[i], inc.items[i], mer.items[i], path + [Digits(i)], p[1..]);
    }
  }

  /** List items with no stored counterpart are saved as posted, blanks and masks included. */
  lemma NewItemsAsPosted(r: Rules, cur: Json, inc: Json, mer: Json, path: seq<string>, i: nat)
    requires mer.List? && i < |mer.items| && (!cur.List? || |cur.items| <= i)
    ensures var out := Preserve(r, cur, inc, mer, path);
            out.List? && |out.items| == |mer.items| && out.items[i] == mer.items[i]
  {
  }

  lemma NothingBelowNull(p: seq<Step>)
    ensures p != [] ==> Get(Null, p).None?
  {
  }

  /** The same leaf, or containers with the same keys or the same length. */
  predicate Alike(a: Option<Json>, b: Option<Json>) {
    match (a, b)
    case (None, None) => true
    case (Some(Dict(f)), Some(Dict(g))) => f.Keys == g.Keys
    case (Some(List(l)), Some(List(m))) => |l| == |m|
    case (Some(x), Some(y)) => x == y
    case _ => false
  }

  ghost predicate Clear(r: Rules, cur: Json, inc: Json, mer: Json, path: seq<string>, p: seq<Step>) {
    forall n :: 0 <= n <= |p| ==> !Protected(r, cur, inc, mer, path, p[..n])
  }

  lemma ClearBelowKey(r: Rules, cur: Json, inc: Json, mer: Json, path: seq<string>, p: seq<Step>)
    requires p != [] && p[0].Key? && Clear(r, cur, inc, mer, path, p)
    requires inc.Dict? && mer.Dict? && p[0].k in inc.fields && p[0].k in mer.fields
    requires Walks(inc.fields[p[0].k], mer.fields[p[0].k])
    ensures Clear(r, Child(cur, p[0].k), inc.fields[p[0].k], mer.fields[p[0].k], path + [p[0].k], p[1..])
  {
    forall n | 0 <= n <= |p| - 1
      ensures !Protected(r, Child(cur, p[0].k), inc.fields[p[0].k], mer.fields[p[0].k], path + [p[0].k], p[1..][..n])
    {
      assert p[..n + 1][0] == p[0] && p[..n + 1][1..] == p[1..][..n];
    }
  }

  lemma ClearBelowIdx(r: Rules, cur: Json, inc: Json, mer: Json, path: seq<string>, p: seq<Step>)
    requires p != [] && p[0].Idx? && Clear(r, cur, inc, mer, path, p)
    requires inc.List? && cur.List? && mer.List? && p[0].i < Common(cur.items, inc.items, mer.items)
    ensures Clear(r, cur.items[p[0].i], inc.items[p[0].i], mer.items[p[0].i], path + [Digits(p[0].i)], p[1..])
  {
    forall n | 0 <= n <= |p| - 1
      ensures !Protected(r, cur.items[p[0].i], inc.items[p[0].i], mer.items[p[0].i],
                         path + [Digits(p[0].i)], p[1..][..n])
    {
      assert p[..n + 1][0] == p[0] && p[..n + 1][1..] == p[1..][..n];
    }
  }

  lemma AlikeItself(j: Json, p: seq<Step>)
    ensures Alike(Get(j, p), Get(j, p))
  {
  }

  /** Everywhere else, that is unless the location or one above it is protected, the merged tree is untouched. */
  lemma {:induction false} OthersUntouched(r: Rules, cur: Json, inc: Json, mer: Json, path: seq<string>, p: seq<Step>)
    requires Clear(r, cur, inc, mer, path, p)
    ensures Alike(Get(mer, p), Get(Preserve(r, cur, inc, mer, path), p))
    decreases |p|
  {
    if p != [] {
      AlikeItself(mer, p);
      match p[0] {
        case Key(k) =>
          if inc.Dict? && mer.Dict? && k in inc.fields && k in mer.fields {
            if Walks(inc.fields[k], mer.fields[k]) {
              ClearBelowKey(r, cur, inc, mer, path, p);
              OthersUntouched(r, Child(cur, k), inc.fields[k], mer.fields[k], path + [k], p[1..]);
            } else {
              assert !Protected(r, cur, inc, mer, path, p[..1]);
            }
          }
        case Idx(i) =>
          if inc.List? && cur.List? && mer.List? && i < Common(cur.items, inc.items, mer.items) {
            ClearBelowIdx(r, cur, inc, mer, path, p);
            OthersUntouched(r, cur.items[i], inc.items[i], mer.items[i], path + [Digits(i)], p[1..]);
          }
      }
    }
  }

  // ------------------------------------------------------------ posting a shown configuration back

  predicate IsBlanked(r: Rules, v: Json, key: string, path: seq<string>) {
    !v.Dict? && !v.List? && Sensitive(r, key, path) && r.blank(v)
  }

  /**
   * shown is stored with blanks at some sensitive keys. Outside lists it may
   * also leave keys out.
   */
  predicate Shows(r: Rules, stored: Json, shown: Json, path: seq<string>, whole: bool)
    decreases stored
  {
    if stored.Dict? && shown.Dict? then
      && shown.fields.Keys <= stored.fields.Keys
      && (whole ==> shown.fields.Keys == stored.fields.Keys)
      && (forall k :: k in stored.fields && k in shown.fields ==>
            if Walks(shown.fields[k], stored.fields[k]) then
              Shows(r, stored.fields[k], shown.fields[k], path + [k], whole)
            else shown.fields[k] == stored.fields[k] || IsBlanked(r, shown.fields[k], k, path))
    else if stored.List? && shown.List? then
      |shown.items| == |stored.items|
      && (forall i :: 0 <= i < |stored.items| ==> Shows(r, stored.items[i], shown.items[i], path + [Digits(i)], true))
    else shown == stored
  }

  /** The pass never turns one kind of value into another. */
  lemma PreserveKind(r: Rules, cur: Json, inc: Json, mer: Json, path: seq<string>)
    ensures var out := Preserve(r, cur, inc, mer, path);
            (out.Dict? <==> mer.Dict?) && (out.List? <==> mer.List?) && (!Walks(inc, mer) ==> out == mer)
  {
  }

  /** At a key whose posted value is no container, the stored value comes back exactly if it was
      posted or is covered by a blank at a sensitive key. */
  lemma LeafRoundTrip(r: Rules, stored: Json, shown: Json, mer: Json, path: seq<string>, k: string)
    requires stored.Dict? && shown.Dict? && mer.Dict?
    requires k in stored.fields && k in shown.fields && k in mer.fields && mer.fields[k] == shown.fields[k]
    requires !shown.fields[k].Dict? && !shown.fields[k].List?
    ensures Preserve(r, stored, shown, mer, path).fields[k] == stored.fields[k]
       <==> shown.fields[k] == stored.fields[k] || IsBlanked(r, shown.fields[k], k, path)
  {
  }

  lemma {:induction false} WholeKey(r: Rules, stored: Json, shown: Json, path: seq<string>, k: string)
    requires stored.Dict? && shown.Dict? && k in stored.fields && k in shown.fields
    ensures Preserve(r, stored, shown, shown, path).fields[k] == stored.fields[k]
       <==> if Walks(shown.fields[k], stored.fields[k]) then
              Shows(r, stored.fields[k], shown.fields[k], path + [k], true)
            else shown.fields[k] == stored.fields[k] || IsBlanked(r, shown.fields[k], k, path)
    decreases stored, 0
  {
    var was, now := stored.fields[k], shown.fields[k];
    if now.Dict? || now.List? {
      PreserveKind(r, was, now, now, path + [k]);
      if Walks(now, was) {
        WholeRoundTrip(r, was, now, path + [k]);
      }
    } else {
      LeafRoundTrip(r, stored, shown, shown, path, k);
    }
  }

  /** A tree posted whole comes back exactly when it is the stored one with blanks at sensitive keys. */
  lemma {:induction false} WholeRoundTrip(r: Rules, stored: Json, shown: Json, path: seq<string>)
    ensures Preserve(r, stored, shown, shown, path) == stored <==> Shows(r, stored, shown, path, true)
    decreases stored, 1
  {
    var out := Preserve(r, stored, shown, shown, path);
    PreserveKind(r, stored, shown, shown, path);
    if stored.Dict? && shown.Dict? {
      forall k | k in stored.fields && k in shown.fields {
        WholeKey(r, stored, shown, path, k);
      }
      assert out.fields.Keys == shown.fields.Keys;
      assert out == stored <==> out.fields == stored.fields;
    } else if stored.List? && shown.List? {
      forall i | 0 <= i < |stored.items| && i < |shown.items| {
        WholeRoundTrip(r, stored.items[i], shown.items[i], path + [Digits(i)]);
      }
      assert |out.items| == |shown.items|;
      assert out == stored <==> out.items == stored.items;
    }
  }

  lemma {:induction false} SaveKey(r: Rules, stored: Json, shown: Json, path: seq<string>, k: string)
    requires stored.Dict? && shown.Dict? && k in stored.fields && k in shown.fields
    ensures Preserve(r, stored, shown, DeepMerge(stored, shown), path).fields[k] == stored.fields[k]
       <==> if Walks(shown.fields[k], stored.fields[k]) then
              Shows(r, stored.fields[k], shown.fields[k], path + [k], false)
            else shown.fields[k] == stored.fields[k] || IsBlanked(r, shown.fields[k], k, path)
    decreases stored, 0
  {
    var was, now := stored.fields[k], shown.fields[k];
    if now.Dict? && was.Dict? {
      SaveRoundTrip(r, was, now, path + [k]);
    } else if now.Dict? || now.List? {
      PreserveKind(r, was, now, now, path + [k]);
      if Walks(now, was) {
        WholeRoundTrip(r, was, now, path + [k]);
      }
    } else {
      LeafRoundTrip(r, stored, shown, DeepMerge(stored, shown), path, k);
    }
  }

  /**
   * Posting a configuration back, in whole or in part, saves exactly the stored
   * one if and only if what is posted is the stored one with blanks at sensitive
   * keys only, and brings no new key.
   */
  lemma {:induction false} SaveRoundTrip(r: Rules, stored: Json, shown: Json, path: seq<string>)
    requires stored.Dict? && shown.Dict?
    ensures Preserve(r, stored, shown, DeepMerge(stored, shown), path) == stored
       <==> Shows(r, stored, shown, path, false)
    decreases stored, 1
  {
    var merged := DeepMerge(stored, shown);
    var out := Preserve(r, stored, shown, merged, path);
    PreserveKeys(r, stored, shown, merged, path);
    forall k | k in stored.fields && k in shown.fields {
      SaveKey(r, stored, shown, path, k);
    }
    assert out.fields.Keys == stored.fields.Keys + shown.fields.Keys;
    assert out == stored <==> out.fields == stored.fields;
    forall k | k in stored.fields && k !in shown.fields ensures out.fields[k] == stored.fields[k] {}
  }
}
