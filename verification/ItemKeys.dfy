/**
 * The keys and ids the policy merge works with: canonical_key, merge_ids and the
 * key an editor item is filed under, and for which items they make it stable.
 */
module ItemKeys {
  import opened JsonTree
  import opened PolicyMerge
  import opened Sequences
  import Text

  const ID_KEYS: set<string> :=
    {"tmdb", "imdb", "tvdb", "trakt", "simkl", "mal", "anilist", "kitsu", "anidb", "plex", "jellyfin", "mdblist",
     "emby", "guid", "slug"}

  const KEY_PRIORITY: seq<string> :=
    ["tmdb", "imdb", "tvdb", "trakt", "mal", "anilist", "kitsu", "anidb", "simkl", "plex", "guid", "slug"]

  /** What the keys are made of, left open: the normal form of one id, the ids in a guid, a value as stripped text
      (None when null or blank), as stripped and lowered text ("" when false or empty), as a number, a number in
      decimal, lower case with and without stripping; which keys are those of history events, and the key of an
      item that is one. */
  datatype Reading = Reading(
    norm: (string, Json) -> Option<string>,
    guidId: (Json, string) -> Option<string>,
    str: Json -> Option<string>,
    text: Json -> string,
    number: Json -> Option<int>,
    decimal: int -> string,
    lower: string -> string,
    clean: string -> string,
    isEventKey: string -> bool,
    eventKey: (string, Item) -> string,
    blank: char -> bool)

  // ------------------------------------------------------------ ids

  function IdAt(r: Reading, ids: Item, k: string): Option<string> {
    if k !in ids then None
    else
      match r.norm(k, ids[k])
      case None => None
      case Some(s) => if s == "" then None else Some(s)
  }

  function MergedId(r: Reading, had: Item, more: Item, k: string): Option<string> {
    if IdAt(r, had, k).Some? then IdAt(r, had, k) else IdAt(r, more, k)
  }

  /** merge_ids: for every key the first of the two that has a normal form. */
  function MergeIds(r: Reading, had: Item, more: Item): Item {
    map k | k in had.Keys + more.Keys && MergedId(r, had, more, k).Some? :: Str(MergedId(r, had, more, k).value)
  }

  /** The two passes of merge_ids: keys by priority, then whatever is left, stored ids first. */
  method MergeIdsInPasses(r: Reading, had: Item, more: Item) returns (out: Item)
    ensures out == MergeIds(r, had, more)
  {
    out := FirstPass(r, had, more, KEY_PRIORITY);
    hide KEY_PRIORITY;
    out := AddIds(r, out, had, had, more);
    out := AddIds(r, out, more, had, more);
    assert forall k :: k in out <==> k in MergeIds(r, had, more);
  }

  method FirstPass(r: Reading, had: Item, more: Item, keys: seq<string>) returns (out: Item)
    ensures forall k :: k in out <==> k in keys && MergedId(r, had, more, k).Some?
    ensures forall k :: k in out ==> out[k] == Str(MergedId(r, had, more, k).value)
  {
    hide MergedId;
    out := map[];
    for i := 0 to |keys|
      invariant forall k :: k in out <==> k in keys[..i] && MergedId(r, had, more, k).Some?
      invariant forall k :: k in out ==> out[k] == Str(MergedId(r, had, more, k).value)
    {
      assert keys[..i + 1] == keys[..i] + [keys[i]];
      var v := MergedId(r, had, more, keys[i]);
      if v.Some? {
        out := out[keys[i] := Str(v.value)];
      }
    }
    assert keys[..|keys|] == keys;
  }

  /** One stretch of the second pass. */
  method AddIds(r: Reading, start: Item, ids: Item, ghost had: Item, ghost more: Item) returns (out: Item)
    requires forall k :: k in start ==>
               MergedId(r, had, more, k).Some? && start[k] == Str(MergedId(r, had, more, k).value)
    requires forall k :: k in ids && k !in start && IdAt(r, ids, k).Some? ==>
               MergedId(r, had, more, k) == IdAt(r, ids, k)
    ensures forall k :: k in out <==> k in start || (k in ids && IdAt(r, ids, k).Some?)
    ensures forall k :: k in out ==> MergedId(r, had, more, k).Some? && out[k] == Str(MergedId(r, had, more, k).value)
  {
    out := start;
    var todo := ids.Keys;
    while todo != {}
      invariant todo <= ids.Keys
      invariant forall k :: k in out <==> k in start || (k in ids && k !in todo && IdAt(r, ids, k).Some?)
      invariant forall k :: k in out ==>
                  MergedId(r, had, more, k).Some? && out[k] == Str(MergedId(r, had, more, k).value)
      decreases |todo|
    {
      var k :| k in todo;
      todo := todo - {k};
      if k !in out && IdAt(r, ids, k).Some? {
        out := out[k := Str(IdAt(r, ids, k).value)];
      }
    }
  }

  /** Ids in normal form. */
  predicate NormalIds(r: Reading, ids: Item) {
    forall k :: k in ids ==> ids[k].Str? && ids[k].s != "" && r.norm(k, ids[k]) == Some(ids[k].s)
  }

  lemma MergeOfNormal(r: Reading, x: Item, y: Item)
    requires NormalIds(r, x) && NormalIds(r, y)
    ensures MergeIds(r, x, y) == y + x && NormalIds(r, MergeIds(r, x, y))
  {
  }

  lemma MergedAt(r: Reading, x: Item, y: Item, k: string)
    ensures k in MergeIds(r, x, y) <==> MergedId(r, x, y, k).Some?
    ensures k in MergeIds(r, x, y) ==> MergeIds(r, x, y)[k] == Str(MergedId(r, x, y, k).value)
  {
  }

  /** An id that is its own normal form, or has none while the other side brings it. */
  predicate Settles(r: Reading, y: Item, k: string, id: string) {
    var again := IdAt(r, map[k := Str(id)], k);
    again == Some(id) || (again.None? && IdAt(r, y, k) == Some(id))
  }

  /** For any ids, merging the same ones again changes nothing if and only if every merged id settles. */
  lemma IdsTwice(r: Reading, x: Item, y: Item)
    ensures var m := MergeIds(r, x, y);
            MergeIds(r, m, y) == m <==> forall k :: k in m ==> m[k].Str? && Settles(r, y, k, m[k].s)
  {
    var m := MergeIds(r, x, y);
    forall k
      ensures k in m <==> MergedId(r, x, y, k).Some?
      ensures k in MergeIds(r, m, y) <==> MergedId(r, m, y, k).Some?
      ensures k in m ==> m[k] == Str(MergedId(r, x, y, k).value)
      ensures k in MergeIds(r, m, y) ==> MergeIds(r, m, y)[k] == Str(MergedId(r, m, y, k).value)
      ensures k !in m ==> MergedId(r, m, y, k).None?
      ensures k in m ==>
                (Settles(r, y, k, MergedId(r, x, y, k).value) <==> MergedId(r, m, y, k) == MergedId(r, x, y, k))
    {
      MergedAt(r, x, y, k);
      MergedAt(r, m, y, k);
    }
    hide MergeIds, IdAt, MergedId, Settles;
    if MergeIds(r, m, y) == m {
      forall k | k in m ensures Settles(r, y, k, m[k].s) {
        assert MergeIds(r, m, y)[k] == m[k];
      }
    }
  }

  // ------------------------------------------------------------ canonical keys

  function Field(item: Item, f: string): Json {
    if f in item then item[f] else Null
  }

  /** The type of an item as one of the usual names, "movie" when there is none. */
  function TypeOf(r: Reading, item: Item): string {
    var x := r.text(Field(item, "type"));
    if x in {"movies", "movie", ""} then "movie"
    else if x in {"shows", "show", "series", "tv"} then "show"
    else if x in {"seasons", "season"} then "season"
    else if x in {"episodes", "episode"} then "episode"
    else x
  }

  function GuidOf(item: Item): Json {
    if !IsEmptyValue(Field(item, "guid")) then Field(item, "guid") else Field(IdsOf(item), "guid")
  }

  /** The id of an item under one key: from its guid, its ids or a field of its own. */
  function IdFrom(r: Reading, item: Item, k: string): Option<string> {
    if k !in ID_KEYS then None
    else if !IsEmptyValue(GuidOf(item)) && r.guidId(GuidOf(item), k).Some? then r.guidId(GuidOf(item), k)
    else if IdAt(r, IdsOf(item), k).Some? then IdAt(r, IdsOf(item), k)
    else IdAt(r, item, k)
  }

  function FirstId(r: Reading, idOf: string -> Option<string>, keys: seq<string>): Option<string> {
    if keys == [] then None
    else if idOf(keys[0]).Some? then Some(r.lower(keys[0] + ":" + idOf(keys[0]).value))
    else FirstId(r, idOf, keys[1..])
  }

  function BestId(r: Reading, item: Item): Option<string> {
    FirstId(r, k => IdFrom(r, item, k), KEY_PRIORITY)
  }

  function IdIn(r: Reading, ids: Item): string -> Option<string> {
    k => if k in ID_KEYS then IdAt(r, ids, k) else None
  }

  function ShowId(r: Reading, item: Item): Option<string> {
    var ids := Field(item, "show_ids");
    var best := if ids.Dict? then FirstId(r, IdIn(r, ids.fields), KEY_PRIORITY) else None;
    if best.Some? then best else BestId(r, item)
  }

  function TwoDigits(r: Reading, n: int): string {
    if |r.decimal(n)| < 2 then "0" + r.decimal(n) else r.decimal(n)
  }

  /** Season and episode of an item as the end of a key; a value that is no number leaves none. */
  function Fragment(r: Reading, item: Item): Option<string> {
    var s := if Field(item, "season") != Null then Field(item, "season") else Field(item, "season_number");
    var e := if Field(item, "episode") != Null then Field(item, "episode") else Field(item, "episode_number");
    if (s != Null && r.number(s).None?) || (e != Null && r.number(e).None?) || s == Null then None
    else if TypeOf(r, item) == "season" then Some("#season:" + r.decimal(r.number(s).value))
    else if e == Null then None
    else Some("#s" + TwoDigits(r, r.number(s).value) + "e" + TwoDigits(r, r.number(e).value))
  }

  /** The key from title and year; anime counts as a show. */
  function TitleKey(r: Reading, item: Item): Option<string> {
    var title, year := r.str(Field(item, "title")), r.str(Field(item, "year"));
    var kind := if TypeOf(r, item) == "anime" then "show" else TypeOf(r, item);
    if title.None? then None
    else Some(kind + "|title:" + r.lower(title.value) + "|year:" + if year.Some? then year.value else "")
  }

  function CanonicalKey(r: Reading, item: Item): string {
    var inShow := TypeOf(r, item) in {"season", "episode"};
    if inShow && ShowId(r, item).Some? && Fragment(r, item).Some? then
      r.lower(ShowId(r, item).value + Fragment(r, item).value)
    else if BestId(r, item).Some? then BestId(r, item).value
    else if TitleKey(r, item).Some? then TitleKey(r, item).value
    else "unknown:"
  }

  predicate Truthy(v: Json) {
    !IsEmptyValue(v) && v != Bool(false) && v != Num(0)
  }

  /** An item of a history list that stands for one viewing. */
  predicate IsEvent(r: Reading, key: string, item: Item) {
    r.isEventKey(key) || Field(item, "_cw_rewatch_sync") == Bool(true) || Truthy(Field(item, "_cw_event_key"))
  }

  /** The key an item of one kind of list is filed under. */
  function EditorKey(r: Reading, kind: Kind, key: string, item: Item): string {
    if kind == History && IsEvent(r, key, item) then r.eventKey(key, item)
    else r.clean(if CanonicalKey(r, item) != "" then CanonicalKey(r, item) else key)
  }

  function EditorEnv(r: Reading, kind: Kind): Env {
    Env(r.lower, r.blank, (key, item) => EditorKey(r, kind, key, item), (x, y) => MergeIds(r, x, y))
  }

  // ------------------------------------------------------------ movies and shows with ids

  /** A movie or show whose ids are in normal form and sit under "ids" only. */
  predicate IdShaped(r: Reading, item: Item) {
    && NormalIds(r, IdsOf(item)) && "guid" !in IdsOf(item)
    && (forall k :: k in ID_KEYS ==> k !in item)
    && TypeOf(r, item) != "season" && TypeOf(r, item) != "episode"
  }

  /** And that has an id to be keyed by. */
  predicate IdKeyed(r: Reading, item: Item) {
    IdShaped(r, item) && BestId(r, item).Some? && BestId(r, item).value != ""
  }

  lemma {:induction false} FirstIdSame(
    r: Reading, f: string -> Option<string>, g: string -> Option<string>, keys: seq<string>)
    requires forall k :: f(k) == g(k)
    ensures FirstId(r, f, keys) == FirstId(r, g, keys)
  {
    if keys != [] {
      FirstIdSame(r, f, g, keys[1..]);
    }
  }

  /** The best id of two sets put together is the best of one of them. */
  lemma {:induction false} FirstIdOfTwo(
    r: Reading, f: string -> Option<string>, g: string -> Option<string>,
    h: string -> Option<string>, keys: seq<string>)
    requires forall k :: h(k) == if f(k).Some? then f(k) else g(k)
    ensures var a, b, c := FirstId(r, f, keys), FirstId(r, g, keys), FirstId(r, h, keys);
            (c == a || c == b) && (c.None? <==> a.None? && b.None?)
  {
    if keys != [] {
      FirstIdOfTwo(r, f, g, h, keys[1..]);
    }
  }

  /** Without fields of its own and a guid, the ids alone give the best id. */
  lemma BestIdIn(r: Reading, item: Item)
    requires "guid" !in IdsOf(item) && forall k :: k in ID_KEYS ==> k !in item
    ensures BestId(r, item) == FirstId(r, IdIn(r, IdsOf(item)), KEY_PRIORITY)
  {
    assert "guid" in ID_KEYS;
    assert GuidOf(item) == Null;
    FirstIdSame(r, k => IdFrom(r, item, k), IdIn(r, IdsOf(item)), KEY_PRIORITY);
  }

  lemma {:induction false} NoIds(r: Reading, keys: seq<string>)
    ensures FirstId(r, IdIn(r, map[]), keys).None?
  {
    if keys != [] {
      NoIds(r, keys[1..]);
    }
  }

  /** The parts of a merged item its key depends on. */
  lemma MergedParts(r: Reading, kind: Kind, x: Item, y: Item)
    requires NormalIds(r, IdsOf(x)) && NormalIds(r, IdsOf(y)) && IdsOf(y) != map[]
    ensures var m := MergeItem(EditorEnv(r, kind), x, y);
            && IdsOf(m) == IdsOf(y) + IdsOf(x) == MergeIds(r, IdsOf(x), IdsOf(y)) && NormalIds(r, IdsOf(m))
            && (forall f :: f in m ==> f in x || f in y)
            && (Field(m, "type") == Field(x, "type") || Field(m, "type") == Field(y, "type"))
  {
    hide MergeIds, NormalIds;
    MergeOfNormal(r, IdsOf(x), IdsOf(y));
  }

  lemma IdKeyedHasIds(r: Reading, item: Item)
    requires IdKeyed(r, item)
    ensures IdsOf(item) != map[]
  {
    if IdsOf(item) == map[] {
      BestIdIn(r, item);
      NoIds(r, KEY_PRIORITY);
    }
  }

  /** Being such an item depends on its ids, its type and the names of its fields. */
  lemma ShapedLike(r: Reading, x: Item, y: Item, m: Item)
    requires IdShaped(r, y) && NormalIds(r, IdsOf(m)) && "guid" !in IdsOf(m)
    requires forall f :: f in m ==> f in x || f in y
    requires (IdShaped(r, x) && Field(m, "type") == Field(x, "type")) || Field(m, "type") == Field(y, "type")
    requires IdShaped(r, x) || x == map[]
    ensures IdShaped(r, m)
  {
    hide NormalIds, IdsOf, ID_KEYS, Field;
  }

  lemma MergedIsShaped(r: Reading, kind: Kind, x: Item, y: Item)
    requires (IdShaped(r, x) || x == map[]) && IdShaped(r, y) && IdsOf(y) != map[]
    ensures var m := MergeItem(EditorEnv(r, kind), x, y);
            IdShaped(r, m) && IdsOf(m) == IdsOf(y) + IdsOf(x)
  {
    hide MergeItem, MergeIds, NormalIds, ID_KEYS, TypeOf, EditorEnv, Field;
    assert x == map[] ==> NormalIds(r, IdsOf(x)) by { EmptyIds(r); }
    MergedParts(r, kind, x, y);
    if x == map[] { MergedType(r, kind, y); }
    ShapedLike(r, x, y, MergeItem(EditorEnv(r, kind), x, y));
  }

  lemma EmptyIds(r: Reading)
    ensures NormalIds(r, IdsOf(map[]))
  {
  }

  /** The merge of two such items is one, keyed like one of them. */
  lemma MergedIsIdKeyed(r: Reading, kind: Kind, x: Item, y: Item)
    requires IdKeyed(r, x) && IdKeyed(r, y)
    ensures var m := MergeItem(EditorEnv(r, kind), x, y);
            IdKeyed(r, m) && (BestId(r, m) == BestId(r, x) || BestId(r, m) == BestId(r, y))
  {
    hide MergeItem, MergeIds, BestId, NormalIds, KEY_PRIORITY, ID_KEYS, TypeOf, EditorEnv;
    var m := MergeItem(EditorEnv(r, kind), x, y);
    IdKeyedHasIds(r, y);
    MergedIsShaped(r, kind, x, y);
    BestIdIn(r, x);
    BestIdIn(r, y);
    BestIdIn(r, m);
    IdInMerged(r, IdsOf(x), IdsOf(y));
    hide IdsOf, IdIn, IdShaped;
    FirstIdOfTwo(r, IdIn(r, IdsOf(x)), IdIn(r, IdsOf(y)), IdIn(r, IdsOf(m)), KEY_PRIORITY);
  }

  lemma IdInMerged(r: Reading, x: Item, y: Item)
    requires NormalIds(r, x) && NormalIds(r, y)
    ensures forall k :: IdIn(r, y + x)(k) == if IdIn(r, x)(k).Some? then IdIn(r, x)(k) else IdIn(r, y)(k)
  {
  }

  lemma MergedIntoNone(r: Reading, kind: Kind, y: Item)
    requires IdKeyed(r, y)
    ensures var m := MergeItem(EditorEnv(r, kind), map[], y);
            IdKeyed(r, m) && BestId(r, m) == BestId(r, y)
  {
    hide MergeItem, MergeIds, BestId, NormalIds, KEY_PRIORITY, ID_KEYS, TypeOf, EditorEnv;
    var m := MergeItem(EditorEnv(r, kind), map[], y);
    IdKeyedHasIds(r, y);
    MergedIsShaped(r, kind, map[], y);
    assert IdsOf(m) == IdsOf(y);
    BestIdIn(r, y);
    BestIdIn(r, m);
  }

  lemma MergedType(r: Reading, kind: Kind, y: Item)
    ensures Field(MergeItem(EditorEnv(r, kind), map[], y), "type") == Field(y, "type")
  {
  }

  lemma IdKeyedKey(r: Reading, item: Item)
    requires IdKeyed(r, item)
    ensures CanonicalKey(r, item) == BestId(r, item).value
  {
    hide BestId;
  }

  // ------------------------------------------------------------ seasons and episodes in their show

  predicate NumberOrNone(r: Reading, item: Item, f: string) {
    Field(item, f) == Null || r.number(Field(item, f)).Some?
  }

  /** A season or episode that names its show by its ids, its season and, an episode, its number. */
  predicate Placed(r: Reading, item: Item) {
    && NormalIds(r, IdsOf(item)) && TypeOf(r, item) in {"season", "episode"} && Filled(item, "type")
    && Filled(item, "show_ids") && item["show_ids"].Dict?
    && FirstId(r, IdIn(r, item["show_ids"].fields), KEY_PRIORITY).Some?
    && Filled(item, "season") && r.number(item["season"]).Some?
    && NumberOrNone(r, item, "episode") && NumberOrNone(r, item, "episode_number")
    && (TypeOf(r, item) == "episode" ==> Filled(item, "episode"))
  }

  /** Such an item keeps its key when only other fields change. */
  lemma PlacedLike(r: Reading, x: Item, m: Item)
    requires Placed(r, x) && NormalIds(r, IdsOf(m))
    requires forall f :: f in {"type", "show_ids", "season"} ==> f in m && m[f] == x[f]
    requires TypeOf(r, x) == "episode" ==> "episode" in m && m["episode"] == x["episode"]
    requires NumberOrNone(r, m, "episode") && NumberOrNone(r, m, "episode_number")
    ensures Placed(r, m) && CanonicalKey(r, m) == CanonicalKey(r, x)
  {
    hide NormalIds, BestId, KEY_PRIORITY, ID_KEYS, IdIn, FirstId;
    assert TypeOf(r, m) == TypeOf(r, x) && ShowId(r, m) == ShowId(r, x);
    assert Fragment(r, m) == Fragment(r, x) && Fragment(r, x).Some?;
  }

  /** A field of a merged item is that of one of the two, or is there in neither. */
  lemma MergedFrom(env: Env, x: Item, y: Item, f: string)
    requires f != "ids"
    ensures var m := MergeItem(env, x, y);
            Field(m, f) == Field(x, f) || Field(m, f) == Field(y, f)
  {
  }

  lemma MergedNormal(r: Reading, kind: Kind, x: Item, y: Item)
    requires NormalIds(r, IdsOf(x)) && NormalIds(r, IdsOf(y))
    ensures NormalIds(r, IdsOf(MergeItem(EditorEnv(r, kind), x, y)))
  {
    MergeOfNormal(r, IdsOf(x), IdsOf(y));
    var ids, m := MergeIds(r, IdsOf(x), IdsOf(y)), MergeItem(EditorEnv(r, kind), x, y);
    hide MergeIds, NormalIds;
    assert IdsOf(m) == if ids == map[] then IdsOf(x) else ids;
  }

  lemma MergedIsPlaced(r: Reading, kind: Kind, x: Item, y: Item)
    requires Placed(r, x) && Placed(r, y)
    ensures var m := MergeItem(EditorEnv(r, kind), x, y);
            Placed(r, m) && CanonicalKey(r, m) == CanonicalKey(r, x)
  {
    var env := EditorEnv(r, kind);
    MergedNormal(r, kind, x, y);
    hide MergeItem, NormalIds, EditorEnv, CanonicalKey, KEY_PRIORITY, ID_KEYS, FirstId, IdIn;
    MergedField(env, x, y, "type");
    MergedField(env, x, y, "show_ids");
    MergedField(env, x, y, "season");
    MergedField(env, x, y, "episode");
    MergedFrom(env, x, y, "episode");
    MergedFrom(env, x, y, "episode_number");
    PlacedLike(r, x, MergeItem(env, x, y));
  }

  lemma PlacedIntoNone(r: Reading, kind: Kind, y: Item)
    requires Placed(r, y)
    ensures var m := MergeItem(EditorEnv(r, kind), map[], y);
            Placed(r, m) && CanonicalKey(r, m) == CanonicalKey(r, y)
  {
    var env := EditorEnv(r, kind);
    EmptyIds(r);
    MergedNormal(r, kind, map[], y);
    hide MergeItem, NormalIds, EditorEnv, CanonicalKey, KEY_PRIORITY, ID_KEYS, FirstId, IdIn, IsEmptyValue;
    MergedField(env, map[], y, "type");
    MergedField(env, map[], y, "show_ids");
    MergedField(env, map[], y, "season");
    MergedField(env, map[], y, "episode");
    MergedFrom(env, map[], y, "episode");
    MergedFrom(env, map[], y, "episode_number");
    PlacedLike(r, y, MergeItem(env, map[], y));
  }

  // ------------------------------------------------------------ items whose keys are stable

  function KeyOf(r: Reading, item: Item): string {
    r.clean(CanonicalKey(r, item))
  }

  /** Only the keys of seasons and episodes hold a number sign. */
  predicate Keyed(r: Reading, item: Item) {
    CanonicalKey(r, item) != ""
    && if '#' in KeyOf(r, item) then Placed(r, item) else IdKeyed(r, item)
  }

  predicate NoEvent(r: Reading, kind: Kind, key: string, item: Item) {
    kind == History ==> !IsEvent(r, Text.Strip(r.blank, key), item)
  }

  /** An entry keyed like that, in a history list no single viewing. */
  predicate Steady(r: Reading, kind: Kind, key: string, item: Item) {
    Keyed(r, item) && NoEvent(r, kind, key, item) && NoEvent(r, kind, KeyOf(r, item), item)
  }

  lemma SteadyKey(r: Reading, kind: Kind, key: string, item: Item)
    requires Steady(r, kind, key, item)
    ensures FinalKey(EditorEnv(r, kind), (key, item)) == KeyOf(r, item)
  {
    hide CanonicalKey, Placed, IdKeyed;
  }

  lemma MergedKeyed(r: Reading, kind: Kind, x: Item, y: Item)
    requires Keyed(r, x) && Keyed(r, y) && KeyOf(r, x) == KeyOf(r, y)
    ensures var m := MergeItem(EditorEnv(r, kind), x, y);
            Keyed(r, m) && KeyOf(r, m) == KeyOf(r, x)
  {
    var m := MergeItem(EditorEnv(r, kind), x, y);
    hide MergeItem, Placed, IdKeyed, CanonicalKey, EditorEnv, BestId;
    if '#' in KeyOf(r, x) {
      MergedIsPlaced(r, kind, x, y);
    } else {
      MergedIsIdKeyed(r, kind, x, y);
      IdKeyedKey(r, x);
      IdKeyedKey(r, y);
      IdKeyedKey(r, m);
    }
  }

  lemma KeyedIntoNone(r: Reading, kind: Kind, y: Item)
    requires Keyed(r, y)
    ensures var m := MergeItem(EditorEnv(r, kind), map[], y);
            Keyed(r, m) && KeyOf(r, m) == KeyOf(r, y)
  {
    var m := MergeItem(EditorEnv(r, kind), map[], y);
    hide MergeItem, Placed, IdKeyed, CanonicalKey, EditorEnv, BestId;
    if '#' in KeyOf(r, y) {
      PlacedIntoNone(r, kind, y);
    } else {
      MergedIntoNone(r, kind, y);
      IdKeyedKey(r, y);
      IdKeyedKey(r, m);
    }
  }

  /** The merge of two items that are no event by their fields is none. */
  lemma MergedNoEvent(r: Reading, kind: Kind, key: string, x: Item, y: Item)
    requires (NoEvent(r, kind, key, x) || x == map[]) && NoEvent(r, kind, key, y)
    ensures NoEvent(r, kind, key, MergeItem(EditorEnv(r, kind), x, y))
  {
    var env := EditorEnv(r, kind);
    hide MergeItem, EditorEnv;
    MergedFrom(env, x, y, "_cw_rewatch_sync");
    MergedFrom(env, x, y, "_cw_event_key");
  }

  lemma KeyedNormal(r: Reading, item: Item)
    requires Keyed(r, item)
    ensures NormalIds(r, IdsOf(item))
  {
    hide CanonicalKey, NormalIds, BestId, ID_KEYS, KEY_PRIORITY;
  }

  lemma NormalSettle(r: Reading, kind: Kind, x: Item, y: Item)
    requires NormalIds(r, IdsOf(x)) && NormalIds(r, IdsOf(y))
    ensures IdsSettle(EditorEnv(r, kind), x, y)
  {
    hide MergeIds, NormalIds;
    MergeOfNormal(r, IdsOf(x), IdsOf(y));
    MergeOfNormal(r, IdsOf(y) + IdsOf(x), IdsOf(y));
    assert IdsOf(y) + (IdsOf(y) + IdsOf(x)) == IdsOf(y) + IdsOf(x);
  }

  lemma SteadyAgain(r: Reading, kind: Kind, k: string, x: Item)
    requires Steady(r, kind, k, x) && FinalKey(EditorEnv(r, kind), (k, x)) != ""
    ensures var c := FinalKey(EditorEnv(r, kind), (k, x));
            Filed(EditorEnv(r, kind), c, x) && Steady(r, kind, c, x)
  {
    hide EditorEnv, Keyed, NoEvent, KeyOf, FinalKey;
    SteadyKey(r, kind, k, x);
    SteadyKey(r, kind, KeyOf(r, x), x);
  }

  lemma SteadyMerge(r: Reading, kind: Kind, k: string, x: Item, y: Item)
    requires Steady(r, kind, k, x) && Steady(r, kind, k, y)
    requires Filed(EditorEnv(r, kind), k, x) && Filed(EditorEnv(r, kind), k, y)
    ensures var env, m := EditorEnv(r, kind), MergeItem(EditorEnv(r, kind), x, y);
            Filed(env, k, m) && Steady(r, kind, k, m) && IdsSettle(env, x, y)
  {
    hide EditorEnv, Keyed, NoEvent, KeyOf, FinalKey, MergeItem, IdsSettle;
    SteadyKey(r, kind, k, x);
    SteadyKey(r, kind, k, y);
    MergedKeyed(r, kind, x, y);
    MergedNoEvent(r, kind, k, x, y);
    SteadyKey(r, kind, k, MergeItem(EditorEnv(r, kind), x, y));
    KeyedNormal(r, x);
    KeyedNormal(r, y);
    NormalSettle(r, kind, x, y);
  }

  lemma SteadyIntoNone(r: Reading, kind: Kind, k: string, y: Item)
    requires Steady(r, kind, k, y) && Filed(EditorEnv(r, kind), k, y)
    ensures var env, m := EditorEnv(r, kind), MergeItem(EditorEnv(r, kind), map[], y);
            Filed(env, k, m) && Steady(r, kind, k, m) && IdsSettle(env, map[], y)
  {
    hide EditorEnv, Keyed, NoEvent, KeyOf, FinalKey, MergeItem, IdsSettle;
    SteadyKey(r, kind, k, y);
    KeyedIntoNone(r, kind, y);
    MergedNoEvent(r, kind, k, map[], y);
    SteadyKey(r, kind, k, MergeItem(EditorEnv(r, kind), map[], y));
    KeyedNormal(r, y);
    EmptyIds(r);
    NormalSettle(r, kind, map[], y);
  }

  /** For movies and shows keyed by ids and seasons and episodes placed in their show, keys are stable
      under the merge of items, in every kind of list. */
  lemma SteadyIsStable(r: Reading, kind: Kind)
    ensures StableUnderMerge(EditorEnv(r, kind), (key, item) => Steady(r, kind, key, item))
  {
    var env := EditorEnv(r, kind);
    hide Steady, EditorEnv, FinalKey, Filed, MergeItem, IdsSettle;
    forall k, x | Steady(r, kind, k, x) && FinalKey(env, (k, x)) != ""
      ensures Filed(env, FinalKey(env, (k, x)), x) && Steady(r, kind, FinalKey(env, (k, x)), x)
    {
      SteadyAgain(r, kind, k, x);
    }
    forall k, x, y | Steady(r, kind, k, x) && Steady(r, kind, k, y) && Filed(env, k, x) && Filed(env, k, y)
      ensures Filed(env, k, MergeItem(env, x, y)) && Steady(r, kind, k, MergeItem(env, x, y)) && IdsSettle(env, x, y)
    {
      SteadyMerge(r, kind, k, x, y);
    }
    forall k, y | Steady(r, kind, k, y) && Filed(env, k, y)
      ensures Filed(env, k, MergeItem(env, map[], y)) && Steady(r, kind, k, MergeItem(env, map[], y))
      ensures IdsSettle(env, map[], y)
    {
      SteadyIntoNone(r, kind, k, y);
    }
  }

  /** So an import of such items can be merged twice without effect. */
  lemma SteadyTwice(r: Reading, kind: Kind, stored: Table, imported: Table)
    requires forall i :: 0 <= i < |stored| ==> Steady(r, kind, stored[i].0, stored[i].1)
    requires forall i :: 0 <= i < |imported| ==> Steady(r, kind, imported[i].0, imported[i].1)
    ensures var env := EditorEnv(r, kind);
            MergeItems(env, MergeItems(env, stored, imported), imported) == MergeItems(env, stored, imported)
  {
    hide Steady;
    SteadyIsStable(r, kind);
    ImportTwice(EditorEnv(r, kind), stored, imported, (key, item) => Steady(r, kind, key, item));
  }

  // ------------------------------------------------------------ items whose keys are not

  /** What the readings of the values in the next lemmas are in the code. */
  ghost predicate Usual(r: Reading) {
    && r.norm("tmdb", Str("1")) == Some("1") && r.norm("tmdb", Str("5")) == Some("5")
    && r.norm("tmdb", Str("a0")) == Some("0") && r.norm("tmdb", Str("0")) == None
    && r.text(Str("episode")) == "episode" && r.text(Null) == ""
    && (forall n :: r.number(Num(n)) == Some(n)) && r.decimal(1) == "1" && r.decimal(2) == "2"
    && r.str(Null) == None
    && (forall s :: s in {"tmdb:1", "tmdb:1#s01e02", "unknown:"} ==> r.lower(s) == r.clean(s) == s)
    && (forall s :: s in {"x", "y", "tmdb:1"} ==> Text.Strip(r.blank, s) == s)
  }

  const EPISODE_ID: Item := map["tmdb" := Str("1")]

  function Half(f: string, n: int): Item {
    map["type" := Str("episode"), "ids" := Dict(EPISODE_ID), f := Num(n)]
  }

  lemma EpisodeParts(r: Reading, item: Item)
    requires Usual(r) && Field(item, "type") == Str("episode") && IdsOf(item) == EPISODE_ID
    requires forall k :: k in ID_KEYS ==> k !in item
    requires "show_ids" !in item
    ensures TypeOf(r, item) == "episode" && ShowId(r, item) == BestId(r, item) == Some("tmdb:1")
  {
    assert "tmdb" in ID_KEYS && "guid" in ID_KEYS;
    assert GuidOf(item) == Null;
    assert KEY_PRIORITY[0] == "tmdb" && "tmdb" + ":" + "1" == "tmdb:1";
    assert IdFrom(r, item, "tmdb") == Some("1");
  }

  lemma EpisodeKey(r: Reading, item: Item)
    requires Usual(r) && Field(item, "type") == Str("episode") && IdsOf(item) == EPISODE_ID
    requires forall k :: k in ID_KEYS ==> k !in item
    requires "show_ids" !in item && "season_number" !in item && "episode_number" !in item
    requires Field(item, "season") in {Null, Num(1)} && Field(item, "episode") in {Null, Num(2)}
    ensures EditorKey(r, Ratings, "tmdb:1", item)
         == if Field(item, "season") == Null || Field(item, "episode") == Null then "tmdb:1" else "tmdb:1#s01e02"
  {
    EpisodeParts(r, item);
    hide TypeOf, ShowId, BestId, EPISODE_ID;
    assert TwoDigits(r, 1) == "01" && TwoDigits(r, 2) == "02";
    assert "tmdb:1" + ("#s" + "01" + "e" + "02") == "tmdb:1#s01e02";
  }

  lemma NoIdFields(item: Item)
    requires item.Keys <= {"type", "ids", "season", "episode"}
    ensures forall k :: k in ID_KEYS ==> k !in item
  {
  }

  lemma HalfKey(r: Reading, item: Item)
    requires Usual(r) && item.Keys <= {"type", "ids", "season", "episode"}
    requires Field(item, "type") == Str("episode") && IdsOf(item) == EPISODE_ID
    requires Field(item, "season") in {Null, Num(1)} && Field(item, "episode") in {Null, Num(2)}
    requires Text.Strip(r.blank, "tmdb:1") == "tmdb:1"
    ensures FinalKey(EditorEnv(r, Ratings), ("tmdb:1", item))
         == if Field(item, "season") == Null || Field(item, "episode") == Null then "tmdb:1" else "tmdb:1#s01e02"
  {
    NoIdFields(item);
    hide EditorKey, ID_KEYS, IdsOf, EPISODE_ID;
    EpisodeKey(r, item);
  }

  lemma OneEntry(env: Env, t: Table, k: string, item: Item)
    requires |t| == 1 && t[0].1 == item && FinalKey(env, t[0]) == k != ""
    ensures Lookup(Canonical(env, t), k) == Some(item)
  {
    CanonicalLast(env, t, k);
    assert t[..0] == [];
    CanonicalEmpty(env, k);
  }

  lemma HalfIds(r: Reading, f: string, n: int)
    requires Usual(r) && f != "ids" && f != "type"
    ensures IdsOf(Half(f, n)) == EPISODE_ID != map[] && NormalIds(r, EPISODE_ID)
  {
    assert "tmdb" in EPISODE_ID;
  }

  lemma HalvesMergedIds(r: Reading)
    requires Usual(r)
    ensures var m := MergeItem(EditorEnv(r, Ratings), Half("season", 1), Half("episode", 2));
            IdsOf(m) == EPISODE_ID != map[] && forall f :: f in m ==> f in {"type", "ids", "season", "episode"}
  {
    HalfIds(r, "season", 1);
    HalfIds(r, "episode", 2);
    var p, q := Half("season", 1), Half("episode", 2);
    assert p.Keys == {"type", "ids", "season"} && q.Keys == {"type", "ids", "episode"};
    hide Usual, MergeItem, MergeIds, NormalIds, EPISODE_ID, EditorEnv, Half;
    MergedParts(r, Ratings, p, q);
    assert EPISODE_ID + EPISODE_ID == EPISODE_ID;
  }

  lemma HalvesMerged(r: Reading)
    requires Usual(r)
    ensures var m := MergeItem(EditorEnv(r, Ratings), Half("season", 1), Half("episode", 2));
            && Field(m, "type") == Str("episode") && IdsOf(m) == EPISODE_ID
            && Field(m, "season") == Num(1) && Field(m, "episode") == Num(2)
            && m.Keys <= {"type", "ids", "season", "episode"}
  {
    var env, p, q := EditorEnv(r, Ratings), Half("season", 1), Half("episode", 2);
    HalvesMergedIds(r);
    hide Usual, MergeItem, EPISODE_ID, EditorEnv;
    MergedPlainField(env, p, q, "type");
    MergedPlainField(env, p, q, "season");
    MergedPlainField(env, p, q, "episode");
  }

  lemma MergedPlainField(env: Env, x: Item, y: Item, f: string)
    requires f != "ids" && (f in x || f in y)
    ensures f in MergeItem(env, x, y) && MergeItem(env, x, y)[f] == Chosen(x, y, f)
  {
  }

  lemma HalvesKeys(r: Reading)
    requires Usual(r)
    ensures var env, p, q := EditorEnv(r, Ratings), Half("season", 1), Half("episode", 2);
            && FinalKey(env, ("tmdb:1", p)) == FinalKey(env, ("tmdb:1", q)) == "tmdb:1"
            && FinalKey(env, ("tmdb:1", MergeItem(env, p, q))) == "tmdb:1#s01e02"
  {
    var env, p, q := EditorEnv(r, Ratings), Half("season", 1), Half("episode", 2);
    HalvesMerged(r);
    hide MergeItem, FinalKey, EPISODE_ID, EditorEnv;
    HalfKey(r, p);
    HalfKey(r, q);
    HalfKey(r, MergeItem(env, p, q));
  }

  /** Season and number of an episode from two halves: merged, it belongs under another key, and a second
      import files its half anew. */
  lemma EpisodeHalvesSplit(r: Reading)
    requires Usual(r)
    ensures var env := EditorEnv(r, Ratings);
            var stored, imported: Table := [("tmdb:1", Half("season", 1))], [("tmdb:1", Half("episode", 2))];
            MergeItems(env, MergeItems(env, stored, imported), imported) != MergeItems(env, stored, imported)
  {
    HalvesKeys(r);
    hide Usual, Half, MergeItem, MergeItems, Canonical, FinalKey, Lookup, EditorEnv;
    var env, p, q := EditorEnv(r, Ratings), Half("season", 1), Half("episode", 2);
    var stored, imported: Table := [("tmdb:1", p)], [("tmdb:1", q)];
    OneEntry(env, stored, "tmdb:1", p);
    OneEntry(env, imported, "tmdb:1", q);
    MovedKeySplits(env, stored, imported, "tmdb:1");
  }

  /** Items without ids and title all belong under one key: of two stored ones the second loses its rating,
      even to an import that brings nothing. */
  lemma NamelessItemsCollapse(r: Reading)
    requires Usual(r)
    ensures var env := EditorEnv(r, Ratings);
            var stored: Table := [("x", map["rating" := Num(1)]), ("y", map["rating" := Num(2)])];
            var now := Lookup(MergeItems(env, stored, []), FinalKey(env, stored[1]));
            FinalKey(env, stored[1]) != "" && now.Some? && "rating" in now.value && now.value["rating"] == Num(1)
  {
    var env := EditorEnv(r, Ratings);
    var stored: Table := [("x", map["rating" := Num(1)]), ("y", map["rating" := Num(2)])];
    NamelessKey(r, "x", 1);
    NamelessKey(r, "y", 2);
    hide MergeItems, Canonical, FinalKey, EditorEnv;
    StoredItemsWin(env, stored, [], 0, "rating");
  }

  lemma NamelessBestId(r: Reading, item: Item)
    requires item.Keys == {"rating"}
    ensures BestId(r, item).None?
  {
    assert "rating" !in ID_KEYS;
    hide KEY_PRIORITY, BestId, ID_KEYS;
    BestIdIn(r, item);
    NoIds(r, KEY_PRIORITY);
  }

  lemma NamelessType(r: Reading, item: Item)
    requires Usual(r) && item.Keys == {"rating"}
    ensures TypeOf(r, item) == "movie" && TitleKey(r, item) == None && r.clean("unknown:") == "unknown:"
  {
  }

  lemma NamelessKey(r: Reading, key: string, n: int)
    requires Usual(r)
    ensures FinalKey(EditorEnv(r, Ratings), (key, map["rating" := Num(n)])) == "unknown:"
  {
    var item: Item := map["rating" := Num(n)];
    hide BestId, Usual, TypeOf, ShowId, Fragment;
    assert item.Keys == {"rating"};
    NamelessBestId(r, item);
    NamelessType(r, item);
  }

  /** An id whose digits are a zero is kept once and dropped the next time. */
  lemma ZeroIdDoesNotSettle(r: Reading)
    requires Usual(r)
    ensures var x, y: Item := map["tmdb" := Str("a0")], map["tmdb" := Str("5")];
            MergeIds(r, MergeIds(r, x, y), y) != MergeIds(r, x, y)
  {
    var x, y: Item := map["tmdb" := Str("a0")], map["tmdb" := Str("5")];
    assert MergeIds(r, x, y)["tmdb"] == Str("0");
    assert MergeIds(r, MergeIds(r, x, y), y)["tmdb"] == Str("5");
  }
}
