/**
 * Which key an item of a policy gets, read off its fields, and which ids merged
 * items keep.
 */
module KeyLaws {
  import opened ItemKeys
  import opened JsonTree
  import opened PolicyMerge
  import opened Sequences

  // ------------------------------------------------------------ ids

  /** s is the normal form of the value under k. */
  predicate Normal(r: Reading, ids: Item, k: string, s: string) {
    k in ids && r.norm(k, ids[k]) == Some(s) && s != ""
  }

  /** A merged id is the stored one's normal form, else the other's, and is there exactly when one has any. */
  lemma MergedIdIs(r: Reading, had: Item, more: Item, k: string)
    ensures forall s :: Normal(r, had, k, s) ==> k in MergeIds(r, had, more) && MergeIds(r, had, more)[k] == Str(s)
    ensures (forall s :: !Normal(r, had, k, s)) ==>
              forall s :: Normal(r, more, k, s) ==> k in MergeIds(r, had, more) && MergeIds(r, had, more)[k] == Str(s)
    ensures k in MergeIds(r, had, more) ==> exists s :: Normal(r, had, k, s) || Normal(r, more, k, s)
  {
    MergedAt(r, had, more, k);
    hide MergeIds;
    if MergedId(r, had, more, k).Some? {
      var s := MergedId(r, had, more, k).value;
      assert Normal(r, had, k, s) || Normal(r, more, k, s);
    }
  }

  /** The id an item has under a key: the one in its guid, else among its ids, else in a field of its own. */
  ghost predicate HasId(r: Reading, item: Item, k: string, s: string) {
    var top, guid := Field(item, "guid"), Field(IdsOf(item), "guid");
    var text := if IsEmptyValue(top) then guid else top;
    k in ID_KEYS &&
    if !IsEmptyValue(text) && r.guidId(text, k).Some? then r.guidId(text, k) == Some(s)
    else if exists t :: Normal(r, IdsOf(item), k, t) then Normal(r, IdsOf(item), k, s)
    else Normal(r, item, k, s)
  }

  lemma IdFromIs(r: Reading, item: Item, k: string, s: string)
    ensures IdFrom(r, item, k) == Some(s) <==> HasId(r, item, k, s)
  {
    hide ID_KEYS, IsEmptyValue;
    if IdAt(r, IdsOf(item), k).Some? {
      assert Normal(r, IdsOf(item), k, IdAt(r, IdsOf(item), k).value);
    }
  }

  // ------------------------------------------------------------ the first id by priority

  lemma {:induction false} FirstIdIs(r: Reading, f: string -> Option<string>, keys: seq<string>, i: nat)
    requires i < |keys| && f(keys[i]).Some? && forall j :: 0 <= j < i ==> f(keys[j]).None?
    ensures FirstId(r, f, keys) == Some(r.lower(keys[i] + ":" + f(keys[i]).value))
  {
    if i > 0 {
      FirstIdIs(r, f, keys[1..], i - 1);
    }
  }

  lemma {:induction false} FirstIdNone(r: Reading, f: string -> Option<string>, keys: seq<string>)
    ensures FirstId(r, f, keys).None? <==> forall j :: 0 <= j < |keys| ==> f(keys[j]).None?
  {
    if keys != [] {
      FirstIdNone(r, f, keys[1..]);
      assert forall j :: 1 <= j < |keys| ==> keys[j] == keys[1..][j - 1];
    }
  }

  lemma NoneIs(o: Option<string>)
    ensures o.None? <==> forall s :: o != Some(s)
  {
    if o.Some? {
      assert o == Some(o.value);
    }
  }

  /** k is the first key by priority under which the item has an id, and s that id. */
  ghost predicate IsBest(r: Reading, item: Item, i: nat, s: string)
    requires i < |KEY_PRIORITY|
  {
    HasId(r, item, KEY_PRIORITY[i], s) && forall j, t :: 0 <= j < i ==> !HasId(r, item, KEY_PRIORITY[j], t)
  }

  lemma BestIdIs(r: Reading, item: Item, i: nat, s: string)
    requires i < |KEY_PRIORITY| && IsBest(r, item, i, s)
    ensures BestId(r, item) == Some(r.lower(KEY_PRIORITY[i] + ":" + s))
  {
    hide KEY_PRIORITY, IdFrom, HasId, FirstId;
    var f := k => IdFrom(r, item, k);
    IdFromIs(r, item, KEY_PRIORITY[i], s);
    forall j | 0 <= j < i ensures f(KEY_PRIORITY[j]).None? {
      NoneIs(f(KEY_PRIORITY[j]));
      forall t ensures f(KEY_PRIORITY[j]) != Some(t) {
        IdFromIs(r, item, KEY_PRIORITY[j], t);
      }
    }
    FirstIdIs(r, f, KEY_PRIORITY, i);
  }

  /** The item has no id under any of the keys by priority. */
  ghost predicate NoId(r: Reading, item: Item) {
    forall i, s :: 0 <= i < |KEY_PRIORITY| ==> !HasId(r, item, KEY_PRIORITY[i], s)
  }

  lemma NoBestId(r: Reading, item: Item)
    ensures BestId(r, item).None? <==> NoId(r, item)
  {
    hide KEY_PRIORITY, IdFrom, HasId, FirstId;
    var f := k => IdFrom(r, item, k);
    FirstIdNone(r, f, KEY_PRIORITY);
    forall i | 0 <= i < |KEY_PRIORITY|
      ensures f(KEY_PRIORITY[i]).None? <==> forall s :: !HasId(r, item, KEY_PRIORITY[i], s)
    {
      NoneIs(f(KEY_PRIORITY[i]));
      forall s ensures f(KEY_PRIORITY[i]) == Some(s) <==> HasId(r, item, KEY_PRIORITY[i], s) {
        IdFromIs(r, item, KEY_PRIORITY[i], s);
      }
    }
  }

  // ------------------------------------------------------------ keys

  predicate InShow(r: Reading, item: Item) {
    r.text(Field(item, "type")) in {"season", "seasons", "episode", "episodes"}
  }

  /** A movie or show, or any other item that is no season or episode, is keyed by the first id by priority. */
  lemma KeyIsBestId(r: Reading, item: Item, i: nat, s: string)
    requires i < |KEY_PRIORITY| && IsBest(r, item, i, s) && !InShow(r, item)
    ensures CanonicalKey(r, item) == r.lower(KEY_PRIORITY[i] + ":" + s)
  {
    BestIdIs(r, item, i, s);
    hide KEY_PRIORITY, BestId, HasId;
  }

  /** The number in a field, or in the other field when the first is null. */
  predicate Numbered(r: Reading, item: Item, f: string, g: string, n: int) {
    var v := if Field(item, f) != Null then Field(item, f) else Field(item, g);
    v != Null && r.number(v) == Some(n)
  }

  /** A number in decimal with at least two digits. */
  predicate Padded(r: Reading, n: int, t: string) {
    if |r.decimal(n)| >= 2 then t == r.decimal(n) else t == "0" + r.decimal(n)
  }

  /** An episode with a season and a number is keyed by its show and both of them. */
  lemma KeyOfEpisode(r: Reading, item: Item, show: string, season: int, number: int, s: string, e: string)
    requires r.text(Field(item, "type")) in {"episode", "episodes"} && ShowId(r, item) == Some(show)
    requires Numbered(r, item, "season", "season_number", season)
    requires Numbered(r, item, "episode", "episode_number", number)
    requires Padded(r, season, s) && Padded(r, number, e)
    ensures CanonicalKey(r, item) == r.lower(show + "#s" + s + "e" + e)
  {
    hide ShowId, BestId;
    assert show + ("#s" + s + "e" + e) == show + "#s" + s + "e" + e;
  }

  /** A season is keyed by its show and its number. */
  lemma KeyOfSeason(r: Reading, item: Item, show: string, season: int)
    requires r.text(Field(item, "type")) in {"season", "seasons"} && ShowId(r, item) == Some(show)
    requires Numbered(r, item, "season", "season_number", season)
    requires Field(item, "episode") == Null && Field(item, "episode_number") == Null
    ensures CanonicalKey(r, item) == r.lower(show + "#season:" + r.decimal(season))
  {
    hide ShowId, BestId;
    assert show + ("#season:" + r.decimal(season)) == show + "#season:" + r.decimal(season);
  }

  /** The item names its show by s under the i-th key by priority. */
  predicate OfShow(r: Reading, item: Item, i: nat, s: string)
    requires i < |KEY_PRIORITY|
  {
    Field(item, "show_ids").Dict? && Normal(r, Field(item, "show_ids").fields, KEY_PRIORITY[i], s)
  }

  ghost predicate FirstOfShow(r: Reading, item: Item, i: nat, s: string)
    requires i < |KEY_PRIORITY|
  {
    OfShow(r, item, i, s) && forall j: nat, t :: j < i ==> !OfShow(r, item, j, t)
  }

  lemma PriorityIsKnown()
    ensures forall i :: 0 <= i < |KEY_PRIORITY| ==> KEY_PRIORITY[i] in ID_KEYS
  {
  }

  lemma OfShowIs(r: Reading, item: Item, i: nat)
    requires i < |KEY_PRIORITY| && Field(item, "show_ids").Dict?
    ensures var o := IdIn(r, Field(item, "show_ids").fields)(KEY_PRIORITY[i]);
            && (forall s :: o == Some(s) <==> OfShow(r, item, i, s))
            && (o.None? <==> forall s :: !OfShow(r, item, i, s))
  {
    PriorityIsKnown();
    hide ID_KEYS, KEY_PRIORITY;
    NoneIs(IdIn(r, Field(item, "show_ids").fields)(KEY_PRIORITY[i]));
  }

  /** The show is named by the first id by priority among the show's own ids. */
  lemma ShowIsNamed(r: Reading, item: Item, i: nat, s: string)
    requires i < |KEY_PRIORITY| && FirstOfShow(r, item, i, s)
    ensures ShowId(r, item) == Some(r.lower(KEY_PRIORITY[i] + ":" + s))
  {
    var f := IdIn(r, Field(item, "show_ids").fields);
    OfShowIs(r, item, i);
    forall j: nat | j < i ensures f(KEY_PRIORITY[j]).None? {
      OfShowIs(r, item, j);
    }
    hide KEY_PRIORITY, ID_KEYS, FirstId, BestId, OfShow, IdIn;
    FirstIdIs(r, f, KEY_PRIORITY, i);
  }

  /** Without any it is named by the item's own. */
  lemma ShowIsOwn(r: Reading, item: Item)
    requires forall i: nat, s :: i < |KEY_PRIORITY| ==> !OfShow(r, item, i, s)
    ensures ShowId(r, item) == BestId(r, item)
  {
    if Field(item, "show_ids").Dict? {
      var f := IdIn(r, Field(item, "show_ids").fields);
      forall j: nat | j < |KEY_PRIORITY| ensures f(KEY_PRIORITY[j]).None? {
        OfShowIs(r, item, j);
      }
      hide KEY_PRIORITY, ID_KEYS, FirstId, BestId, OfShow, IdIn;
      FirstIdNone(r, f, KEY_PRIORITY);
    }
  }

  /** How a type is spelled in the key from title and year. */
  function Spelled(x: string): string {
    if x in {"movie", "movies", ""} then "movie"
    else if x in {"show", "shows", "series", "tv", "anime"} then "show"
    else if x in {"season", "seasons"} then "season"
    else if x in {"episode", "episodes"} then "episode"
    else x
  }

  /** Without ids an item is keyed by type, title and year, and without a title all share one key. */
  lemma KeyOfTitle(r: Reading, item: Item)
    requires NoId(r, item) && (InShow(r, item) ==> Field(item, "show_ids") == Null)
    ensures var title, year := r.str(Field(item, "title")), r.str(Field(item, "year"));
            CanonicalKey(r, item) ==
            match title
            case None => "unknown:"
            case Some(t) =>
              Spelled(r.text(Field(item, "type"))) + "|title:" + r.lower(t) + "|year:"
              + if year.Some? then year.value else ""
  {
    NoBestId(r, item);
    hide BestId, NoId, Fragment;
  }

  // ------------------------------------------------------------ lists

  /** In a history list an item whose key is an event's, or that is marked as one, keeps an event's key; every other
      entry is filed under its canonical key, stripped and lowered. */
  lemma FiledUnder(r: Reading, kind: Kind, key: string, item: Item)
    ensures var mark := Field(item, "_cw_event_key");
            var event := kind == History
              && (r.isEventKey(key) || Field(item, "_cw_rewatch_sync") == Bool(true)
                  || mark !in {Null, Bool(false), Num(0), Str(""), List([]), Dict(map[])});
            EditorKey(r, kind, key, item) ==
            if event then r.eventKey(key, item)
            else if CanonicalKey(r, item) == "" then r.clean(key) else r.clean(CanonicalKey(r, item))
  {
    hide CanonicalKey;
  }
}
