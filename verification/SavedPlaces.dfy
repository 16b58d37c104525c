/**
 * What a save of the configuration stores, place by place: the deep merge of
 * the payload, and the values put back over it.
 */
module SavedPlaces {
  import opened JsonTree
  import opened SecretMerge
  import opened Sequences

  predicate AllKeys(p: seq<Step>) {
    forall i :: 0 <= i < |p| ==> p[i].Key?
  }

  /** The payload says nothing about a place: a dictionary on the way down lacks the next key. */
  predicate LeftOut(posted: Json, p: seq<Step>) {
    p != [] && p[0].Key? && posted.Dict?
    && (p[0].k !in posted.fields || LeftOut(posted.fields[p[0].k], p[1..]))
  }

  lemma LeftOutIsNowhere(posted: Json, p: seq<Step>)
    requires LeftOut(posted, p)
    ensures Get(posted, p).None?
  {
  }

  /**
   * A deep merge has the posted value wherever one was posted that is not a
   * dictionary, a dictionary wherever one was posted, and what was stored
   * wherever the payload says nothing; there is nothing else in it.
   */
  lemma {:induction false} MergedEverywhere(stored: Json, posted: Json, p: seq<Step>)
    requires stored.Dict? && posted.Dict?
    ensures var m, x := Get(DeepMerge(stored, posted), p), Get(posted, p);
            && (x.Some? && !x.value.Dict? ==> m == x)
            && (x.Some? && x.value.Dict? ==> m.Some? && m.value.Dict?)
            && (x.None? ==> m == if LeftOut(posted, p) then Get(stored, p) else None)
    decreases |p|
  {
    if p != [] && p[0].Key? && p[0].k in posted.fields {
      var k := p[0].k;
      if posted.fields[k].Dict? && k in stored.fields && stored.fields[k].Dict? {
        MergedEverywhere(stored.fields[k], posted.fields[k], p[1..]);
      } else {
        assert Get(DeepMerge(stored, posted), p) == Get(posted, p);
        if LeftOut(posted, p) { NotStored(stored, posted, p); }
      }
    }
  }

  /** Below a key that is not a dictionary on both sides there is nothing of the stored tree. */
  lemma NotStored(stored: Json, posted: Json, p: seq<Step>)
    requires stored.Dict? && posted.Dict? && p != [] && p[0].Key? && p[0].k in posted.fields
    requires p[0].k !in stored.fields || !stored.fields[p[0].k].Dict? || !posted.fields[p[0].k].Dict?
    requires LeftOut(posted, p)
    ensures Get(stored, p).None?
  {
  }

  /** The keys of the place a path leads to. */
  function Names(p: seq<Step>): (r: seq<string>)
    requires AllKeys(p)
    ensures |r| == |p|
  {
    seq(|p|, i requires 0 <= i < |p| => p[i].k)
  }

  /** A posted leaf under keys, in a merged tree that has it. */
  lemma {:induction false} KeptLeaf(r: Rules, cur: Json, inc: Json, mer: Json, path: seq<string>, p: seq<Step>, x: Json)
    requires p != [] && AllKeys(p) && !x.Dict? && !x.List?
    requires Get(inc, p) == Some(x) && Get(mer, p) == Some(x)
    ensures Get(Preserve(r, cur, inc, mer, path), p)
         == Some(if Sensitive(r, p[|p| - 1].k, path + Names(p[..|p| - 1])) && r.blank(x)
                 then if Get(cur, p).Some? then Get(cur, p).value else Str("")
                 else x)
    decreases |p|
  {
    hide Sensitive;
    var k, q := p[0].k, p[1..];
    if q == [] {
      assert Names(p[..0]) == [] && path + [] == path;
      assert p == [Key(k)];
    } else {
      assert Walks(inc.fields[k], mer.fields[k]);
      KeptLeaf(r, Child(cur, k), inc.fields[k], mer.fields[k], path + [k], q, x);
      var below := Preserve(r, Child(cur, k), inc.fields[k], mer.fields[k], path + [k]);
      assert Preserve(r, cur, inc, mer, path).fields[k] == below;
      hide Preserve, Walks;
      assert Names(p[..|p| - 1]) == [k] + Names(q[..|q| - 1]);
      assert path + ([k] + Names(q[..|q| - 1])) == path + [k] + Names(q[..|q| - 1]);
      NothingBelowNull(q);
    }
  }

  /** Down a path the merged tree has a dictionary wherever the payload has one. */
  predicate DictsOver(inc: Json, mer: Json, p: seq<Step>) {
    inc.Dict? ==>
      mer.Dict?
      && (p != [] && p[0].Key? && p[0].k in inc.fields ==>
            p[0].k in mer.fields && DictsOver(inc.fields[p[0].k], mer.fields[p[0].k], p[1..]))
  }

  lemma {:induction false} OverItself(j: Json, p: seq<Step>)
    ensures DictsOver(j, j, p)
    decreases |p|
  {
    if j.Dict? && p != [] && p[0].Key? && p[0].k in j.fields {
      OverItself(j.fields[p[0].k], p[1..]);
    }
  }

  lemma {:induction false} MergeIsOver(stored: Json, posted: Json, p: seq<Step>)
    requires stored.Dict? && posted.Dict?
    ensures DictsOver(posted, DeepMerge(stored, posted), p)
    decreases |p|
  {
    if p != [] && p[0].Key? && p[0].k in posted.fields {
      var k := p[0].k;
      if posted.fields[k].Dict? && k in stored.fields && stored.fields[k].Dict? {
        MergeIsOver(stored.fields[k], posted.fields[k], p[1..]);
      } else {
        OverItself(posted.fields[k], p[1..]);
      }
    }
  }

  lemma {:induction false} KeptRest(r: Rules, cur: Json, inc: Json, mer: Json, path: seq<string>, p: seq<Step>)
    requires LeftOut(inc, p) && DictsOver(inc, mer, p)
    ensures Get(Preserve(r, cur, inc, mer, path), p) == Get(mer, p)
    decreases |p|
  {
    if mer.Dict? && p[0].k in mer.fields && p[0].k in inc.fields {
      var k := p[0].k;
      assert inc.fields[k].Dict?;
      KeptRest(r, Child(cur, k), inc.fields[k], mer.fields[k], path + [k], p[1..]);
    }
  }

  /**
   * A save stores every posted leaf under its keys as posted, except that one
   * left blank or masked where the save is sensitive keeps its stored value, or
   * becomes "" when it has none; what the payload does not mention stays as
   * stored.
   */
  lemma SavedAt(r: Rules, stored: Json, posted: Json, p: seq<Step>)
    requires stored.Dict? && posted.Dict?
    ensures var saved, sent := Get(Preserve(r, stored, posted, DeepMerge(stored, posted), []), p), Get(posted, p);
            && (p != [] && AllKeys(p) && sent.Some? && !sent.value.Dict? && !sent.value.List? ==>
                  saved == if Sensitive(r, p[|p| - 1].k, Names(p[..|p| - 1])) && r.blank(sent.value)
                           then Some(if Get(stored, p).Some? then Get(stored, p).value else Str(""))
                           else sent)
            && (LeftOut(posted, p) ==> saved == Get(stored, p))
  {
    var sent := Get(posted, p);
    MergedEverywhere(stored, posted, p);
    if p != [] && AllKeys(p) && sent.Some? && !sent.value.Dict? && !sent.value.List? {
      KeptLeaf(r, stored, posted, DeepMerge(stored, posted), [], p, sent.value);
      assert [] + Names(p[..|p| - 1]) == Names(p[..|p| - 1]);
    }
    if LeftOut(posted, p) {
      LeftOutIsNowhere(posted, p);
      MergeIsOver(stored, posted, p);
      KeptRest(r, stored, posted, DeepMerge(stored, posted), [], p);
    }
  }
}
