/**
 * The shadow-state cache under concurrent calls. A call stats the file, looks
 * the signature up under the lock, on a miss reads the file, and stores the
 * result under the lock; anything may happen between these steps.
 */
module ShadowCache {
  import opened Sequences

  const SHADOW_CACHE_MAX: nat := 64

  /** Modification time in nanoseconds, and size. */
  type Signature = (int, int)

  /** A parsed document; None stands for a missing file or content that is no dictionary. */
  type Doc = Option<string>

  datatype Entry = Entry(sig: Signature, doc: Doc)

  type Cache = map<string, Entry>

  function Hit(c: Cache, key: string, sig: Signature): Option<Doc> {
    if key in c && c[key].sig == sig then Some(c[key].doc) else None
  }

  function Stored(c: Cache, key: string, sig: Signature, doc: Doc): Cache {
    if |c| >= SHADOW_CACHE_MAX then map[key := Entry(sig, doc)] else c[key := Entry(sig, doc)]
  }

  /** The dictionary and the two sections that run under its lock. */
  class Shadow {
    var entries: Cache

    constructor ()
      ensures entries == map[]
    {
      entries := map[];
    }

    method Lookup(key: string, sig: Signature) returns (r: Option<Doc>)
      ensures r == Hit(entries, key, sig)
    {
      r := None;
      if key in entries {
        var cached := entries[key];
        if cached.sig == sig {
          r := Some(cached.doc);
        }
      }
    }

    method Store(key: string, sig: Signature, doc: Doc)
      modifies this
      ensures entries == Stored(old(entries), key, sig, doc)
    {
      if |entries| >= SHADOW_CACHE_MAX {
        entries := map[];
      }
      entries := entries[key := Entry(sig, doc)];
    }
  }

  // ------------------------------------------------------------ files and calls

  datatype Version = Missing | File(sig: Signature, content: string)

  /** Everything each path has held, oldest first; the last version is the present one. */
  type Disk = map<string, seq<Version>>

  function Held(d: Disk, path: string): (r: seq<Version>)
    ensures r != []
  {
    if path in d && d[path] != [] then d[path] else [Missing]
  }

  function Present(d: Disk, path: string): nat {
    |Held(d, path)| - 1
  }

  /** How far a call has come: it saw signature sig when version from was present. */
  datatype Phase =
    | Statted(path: string, sig: Signature, from: nat)
    | Missed(path: string, sig: Signature, from: nat)
    | HasRead(path: string, sig: Signature, from: nat, doc: Doc)

  /** A finished call: the versions present when it looked first and when it returned, the signature
      it saw, None when it saw no file, and its answer. */
  datatype Answer = Answer(path: string, from: nat, upto: nat, sig: Option<Signature>, doc: Doc)

  /** failed is history, which no step reads: the paths whose stat failed, with None, or whose reading
      failed, with the signature seen before. */
  datatype State = State(
    disk: Disk, cache: Cache, calls: map<nat, Phase>, answers: seq<Answer>,
    failed: set<(string, Option<Signature>)>)

  datatype Step =
    | Write(path: string, version: Version)
    | Stat(call: nat, path: string)
    | StatFails(call: nat, path: string)
    | LookUp(call: nat)
    | ReadFile(call: nat)
    | ReadFails(call: nat)
    | Save(call: nat)

  function DocOf(parse: string -> Doc, v: Version): Doc {
    match v
    case Missing => None
    case File(_, content) => parse(content)
  }

  function Finish(s: State, call: nat, path: string, from: nat, sig: Option<Signature>, doc: Doc): State {
    s.(calls := s.calls - {call}, answers := s.answers + [Answer(path, from, Present(s.disk, path), sig, doc)])
  }

  function Next(s: State, parse: string -> Doc, step: Step): State {
    match step
    case Write(path, version) => s.(disk := s.disk[path := Held(s.disk, path) + [version]])
    case Stat(call, path) =>
      var now := Present(s.disk, path);
      (match Held(s.disk, path)[now]
       case Missing => Finish(s, call, path, now, None, None)
       case File(sig, _) => s.(calls := s.calls[call := Statted(path, sig, now)]))
    case StatFails(call, path) =>
      Finish(s.(failed := s.failed + {(path, None)}), call, path, Present(s.disk, path), None, None)
    case LookUp(call) =>
      if call in s.calls && s.calls[call].Statted? then
        var Statted(path, sig, from) := s.calls[call];
        match Hit(s.cache, path, sig)
        case Some(doc) => Finish(s, call, path, from, Some(sig), doc)
        case None => s.(calls := s.calls[call := Missed(path, sig, from)])
      else s
    case ReadFile(call) =>
      if call in s.calls && s.calls[call].Missed? then
        var Missed(path, sig, from) := s.calls[call];
        var doc := DocOf(parse, Held(s.disk, path)[Present(s.disk, path)]);
        s.(calls := s.calls[call := HasRead(path, sig, from, doc)])
      else s
    case ReadFails(call) =>
      if call in s.calls && s.calls[call].Missed? then
        var Missed(path, sig, from) := s.calls[call];
        s.(calls := s.calls[call := HasRead(path, sig, from, None)], failed := s.failed + {(path, Some(sig))})
      else s
    case Save(call) =>
      if call in s.calls && s.calls[call].HasRead? then
        var HasRead(path, sig, from, doc) := s.calls[call];
        Finish(s.(cache := Stored(s.cache, path, sig, doc)), call, path, from, Some(sig), doc)
      else s
  }

  /** Writes never bring a signature of that path back, and calls start under their own numbers. */
  predicate Allowed(s: State, step: Step) {
    match step
    case Write(path, version) =>
      version.Missing? || forall i :: 0 <= i < |Held(s.disk, path)| ==>
        Held(s.disk, path)[i].Missing? || Held(s.disk, path)[i].sig != version.sig
    case Stat(call, _) => call !in s.calls
    case StatFails(call, _) => call !in s.calls
    case _ => true
  }

  ghost predicate DistinctSignatures(d: Disk) {
    forall path, i, j :: 0 <= i < j < |Held(d, path)| ==>
      Held(d, path)[i].Missing? || Held(d, path)[j].Missing? || Held(d, path)[i].sig != Held(d, path)[j].sig
  }

  /** doc is the reading of some version between from and upto. */
  predicate HeldBetween(d: Disk, parse: string -> Doc, path: string, from: nat, upto: nat, doc: Doc) {
    exists j :: from <= j <= upto < |Held(d, path)| && doc == DocOf(parse, Held(d, path)[j])
  }

  predicate HasSignature(d: Disk, path: string, i: nat, sig: Signature) {
    i < |Held(d, path)| && Held(d, path)[i].File? && Held(d, path)[i].sig == sig
  }

  type Failures = set<(string, Option<Signature>)>

  /** Such a reading, or None after a failure to stat or to read that path under that signature. */
  predicate Fair(
    d: Disk, failed: Failures, parse: string -> Doc, path: string, sig: Option<Signature>,
    from: nat, upto: nat, doc: Doc)
  {
    HeldBetween(d, parse, path, from, upto, doc) || (doc == None && (path, sig) in failed)
  }

  /** An entry reads a version no older than the one its signature was seen on. */
  predicate EntryOk(d: Disk, failed: Failures, parse: string -> Doc, path: string, e: Entry) {
    exists i :: 0 <= i < |Held(d, path)| && HasSignature(d, path, i, e.sig)
                && Fair(d, failed, parse, path, Some(e.sig), i, Present(d, path), e.doc)
  }

  predicate PhaseOk(d: Disk, failed: Failures, parse: string -> Doc, p: Phase) {
    HasSignature(d, p.path, p.from, p.sig)
    && (p.HasRead? ==> Fair(d, failed, parse, p.path, Some(p.sig), p.from, Present(d, p.path), p.doc))
  }

  predicate AnswerOk(d: Disk, failed: Failures, parse: string -> Doc, a: Answer) {
    Fair(d, failed, parse, a.path, a.sig, a.from, a.upto, a.doc)
  }

  ghost predicate EntriesOk(s: State, parse: string -> Doc) {
    forall k :: k in s.cache ==> EntryOk(s.disk, s.failed, parse, k, s.cache[k])
  }

  ghost predicate CallsOk(s: State, parse: string -> Doc) {
    forall c :: c in s.calls ==> PhaseOk(s.disk, s.failed, parse, s.calls[c])
  }

  ghost predicate AnswersOk(s: State, parse: string -> Doc) {
    forall a :: a in s.answers ==> AnswerOk(s.disk, s.failed, parse, a)
  }

  ghost predicate Inv(s: State, parse: string -> Doc) {
    DistinctSignatures(s.disk) && EntriesOk(s, parse) && CallsOk(s, parse) && AnswersOk(s, parse)
    && |s.cache| <= SHADOW_CACHE_MAX
  }

  // ------------------------------------------------------------ what later writes and failures leave

  /** The disk only grows. */
  ghost predicate Extends(d: Disk, e: Disk) {
    forall path :: Held(d, path) <= Held(e, path)
  }

  lemma HeldLater(d: Disk, e: Disk, parse: string -> Doc, path: string, from: nat, upto: nat, later: nat, doc: Doc)
    requires Extends(d, e) && HeldBetween(d, parse, path, from, upto, doc) && upto <= later < |Held(e, path)|
    ensures HeldBetween(e, parse, path, from, later, doc)
  {
    var j :| from <= j <= upto < |Held(d, path)| && doc == DocOf(parse, Held(d, path)[j]);
    assert Held(d, path) <= Held(e, path);
    assert Held(e, path)[j] == Held(d, path)[j];
  }

  lemma FairLater(s: State, t: State, parse: string -> Doc, path: string, sig: Option<Signature>,
                  from: nat, upto: nat, later: nat, doc: Doc)
    requires Extends(s.disk, t.disk) && s.failed <= t.failed && upto <= later < |Held(t.disk, path)|
    requires Fair(s.disk, s.failed, parse, path, sig, from, upto, doc)
    ensures Fair(t.disk, t.failed, parse, path, sig, from, later, doc)
  {
    if HeldBetween(s.disk, parse, path, from, upto, doc) {
      HeldLater(s.disk, t.disk, parse, path, from, upto, later, doc);
    }
  }

  lemma EntryLater(s: State, t: State, parse: string -> Doc, path: string, x: Entry)
    requires Extends(s.disk, t.disk) && s.failed <= t.failed && EntryOk(s.disk, s.failed, parse, path, x)
    ensures EntryOk(t.disk, t.failed, parse, path, x)
  {
    hide Fair;
    var d, e := s.disk, t.disk;
    var i :| 0 <= i < |Held(d, path)| && HasSignature(d, path, i, x.sig)
             && Fair(d, s.failed, parse, path, Some(x.sig), i, Present(d, path), x.doc);
    assert Held(d, path) <= Held(e, path);
    FairLater(s, t, parse, path, Some(x.sig), i, Present(d, path), Present(e, path), x.doc);
    assert HasSignature(e, path, i, x.sig);
  }

  lemma PhaseLater(s: State, t: State, parse: string -> Doc, p: Phase)
    requires Extends(s.disk, t.disk) && s.failed <= t.failed && PhaseOk(s.disk, s.failed, parse, p)
    ensures PhaseOk(t.disk, t.failed, parse, p)
  {
    hide Fair;
    assert Held(s.disk, p.path) <= Held(t.disk, p.path);
    if p.HasRead? {
      var upto, later := Present(s.disk, p.path), Present(t.disk, p.path);
      FairLater(s, t, parse, p.path, Some(p.sig), p.from, upto, later, p.doc);
    }
  }

  lemma AnswerLater(s: State, t: State, parse: string -> Doc, a: Answer)
    requires Extends(s.disk, t.disk) && s.failed <= t.failed && AnswerOk(s.disk, s.failed, parse, a)
    ensures AnswerOk(t.disk, t.failed, parse, a)
  {
    if HeldBetween(s.disk, parse, a.path, a.from, a.upto, a.doc) {
      assert Held(s.disk, a.path) <= Held(t.disk, a.path);
      HeldLater(s.disk, t.disk, parse, a.path, a.from, a.upto, a.upto, a.doc);
    }
  }

  /** Whatever is written and whatever fails, what was right stays so. */
  lemma Later(s: State, t: State, parse: string -> Doc)
    requires Inv(s, parse) && Extends(s.disk, t.disk) && DistinctSignatures(t.disk) && s.failed <= t.failed
    requires t.cache == s.cache && t.calls == s.calls && t.answers == s.answers
    ensures Inv(t, parse)
  {
    hide Extends, DistinctSignatures, EntryOk, PhaseOk, AnswerOk, Held;
    forall k | k in t.cache
      ensures EntryOk(t.disk, t.failed, parse, k, t.cache[k])
    {
      EntryLater(s, t, parse, k, s.cache[k]);
    }
    forall c | c in t.calls
      ensures PhaseOk(t.disk, t.failed, parse, t.calls[c])
    {
      PhaseLater(s, t, parse, s.calls[c]);
    }
    forall a | a in t.answers
      ensures AnswerOk(t.disk, t.failed, parse, a)
    {
      AnswerLater(s, t, parse, a);
    }
  }

  lemma FailedLater(s: State, parse: string -> Doc, f: (string, Option<Signature>))
    requires Inv(s, parse)
    ensures Inv(s.(failed := s.failed + {f}), parse)
  {
    hide Inv, DistinctSignatures, Held;
    assert Extends(s.disk, s.disk);
    assert DistinctSignatures(s.disk) by { InvDistinct(s, parse); }
    Later(s, s.(failed := s.failed + {f}), parse);
  }

  lemma InvDistinct(s: State, parse: string -> Doc)
    requires Inv(s, parse)
    ensures DistinctSignatures(s.disk)
  {
  }

  function Written(d: Disk, path: string, version: Version): Disk {
    d[path := Held(d, path) + [version]]
  }

  lemma WriteExtends(d: Disk, path: string, version: Version)
    ensures Extends(d, Written(d, path, version))
  {
  }

  lemma WriteDistinct(s: State, path: string, version: Version)
    requires DistinctSignatures(s.disk) && Allowed(s, Write(path, version))
    ensures DistinctSignatures(Written(s.disk, path, version))
  {
    var d, e := s.disk, Written(s.disk, path, version);
    forall p, i, j | 0 <= i < j < |Held(e, p)|
      ensures Held(e, p)[i].Missing? || Held(e, p)[j].Missing? || Held(e, p)[i].sig != Held(e, p)[j].sig
    {
      assert Held(e, p) == if p == path then Held(d, p) + [version] else Held(d, p);
    }
  }

  lemma WriteKeeps(s: State, parse: string -> Doc, path: string, version: Version)
    requires Inv(s, parse) && Allowed(s, Write(path, version))
    ensures Inv(Next(s, parse, Write(path, version)), parse)
  {
    InvDistinct(s, parse);
    WriteExtends(s.disk, path, version);
    WriteDistinct(s, path, version);
    hide Inv, Extends, DistinctSignatures, Held;
    Later(s, s.(disk := Written(s.disk, path, version)), parse);
  }

  lemma SameVersion(d: Disk, path: string, sig: Signature, i: nat, j: nat)
    requires DistinctSignatures(d) && HasSignature(d, path, i, sig) && HasSignature(d, path, j, sig)
    ensures i == j
  {
  }

  /** The heart of it: an entry found under the signature a call saw is no older than that call. */
  lemma HitIsRecent(d: Disk, failed: Failures, parse: string -> Doc, path: string, e: Entry, from: nat)
    requires DistinctSignatures(d) && EntryOk(d, failed, parse, path, e) && HasSignature(d, path, from, e.sig)
    ensures HeldBetween(d, parse, path, from, Present(d, path), e.doc)
         || (e.doc == None && (path, Some(e.sig)) in failed)
  {
    hide HeldBetween;
    var i :| 0 <= i < |Held(d, path)| && HasSignature(d, path, i, e.sig)
             && Fair(d, failed, parse, path, Some(e.sig), i, Present(d, path), e.doc);
    SameVersion(d, path, e.sig, i, from);
  }

  // ------------------------------------------------------------ what a step keeps

  lemma FinishKeeps(
    s: State, parse: string -> Doc, call: nat, path: string, from: nat, sig: Option<Signature>, doc: Doc)
    requires Inv(s, parse) && Fair(s.disk, s.failed, parse, path, sig, from, Present(s.disk, path), doc)
    ensures Inv(Finish(s, call, path, from, sig, doc), parse)
  {
    hide DistinctSignatures, EntryOk, PhaseOk, Held, Fair;
  }

  lemma StatKeeps(s: State, parse: string -> Doc, call: nat, path: string)
    requires Inv(s, parse)
    ensures Inv(Next(s, parse, Stat(call, path)), parse)
  {
    var now := Present(s.disk, path);
    if Held(s.disk, path)[now].Missing? {
      assert DocOf(parse, Held(s.disk, path)[now]) == None;
      FinishKeeps(s, parse, call, path, now, None, None);
    } else {
      hide EntriesOk, AnswersOk, DistinctSignatures;
    }
  }

  lemma StatFailsKeeps(s: State, parse: string -> Doc, call: nat, path: string)
    requires Inv(s, parse)
    ensures Inv(Next(s, parse, StatFails(call, path)), parse)
  {
    hide Inv, Finish, Held;
    FailedLater(s, parse, (path, None));
    FinishKeeps(s.(failed := s.failed + {(path, None)}), parse, call, path, Present(s.disk, path), None, None);
  }

  /** A call goes on to what it has read, rightly. */
  lemma ReadGoesOn(s: State, parse: string -> Doc, call: nat, doc: Doc)
    requires Inv(s, parse) && call in s.calls && s.calls[call].Missed?
    requires var p := s.calls[call];
             Fair(s.disk, s.failed, parse, p.path, Some(p.sig), p.from, Present(s.disk, p.path), doc)
    ensures var p := s.calls[call];
            Inv(s.(calls := s.calls[call := HasRead(p.path, p.sig, p.from, doc)]), parse)
  {
    var p := s.calls[call];
    assert PhaseOk(s.disk, s.failed, parse, p);
    assert PhaseOk(s.disk, s.failed, parse, HasRead(p.path, p.sig, p.from, doc));
    hide DistinctSignatures, EntriesOk, AnswersOk, PhaseOk, Fair;
  }

  /** Reading now is fair to a call that saw an older version. */
  lemma ReadIsFair(s: State, parse: string -> Doc, call: nat)
    requires Inv(s, parse) && call in s.calls && s.calls[call].Missed?
    ensures var p := s.calls[call];
            var now := Present(s.disk, p.path);
            Fair(s.disk, s.failed, parse, p.path, Some(p.sig), p.from, now, DocOf(parse, Held(s.disk, p.path)[now]))
  {
    var p := s.calls[call];
    assert PhaseOk(s.disk, s.failed, parse, p);
    var now := Present(s.disk, p.path);
    hide EntryOk, AnswerOk, DistinctSignatures, Inv;
    assert HeldBetween(s.disk, parse, p.path, p.from, now, DocOf(parse, Held(s.disk, p.path)[now]));
  }

  lemma ReadKeeps(s: State, parse: string -> Doc, call: nat)
    requires Inv(s, parse) && call in s.calls && s.calls[call].Missed?
    ensures Inv(Next(s, parse, ReadFile(call)), parse)
  {
    var p := s.calls[call];
    ReadIsFair(s, parse, call);
    hide Inv, Fair, DocOf, Held, Finish, Stored, Hit;
    ReadGoesOn(s, parse, call, DocOf(parse, Held(s.disk, p.path)[Present(s.disk, p.path)]));
  }

  lemma ReadFailsKeeps(s: State, parse: string -> Doc, call: nat)
    requires Inv(s, parse) && call in s.calls && s.calls[call].Missed?
    ensures Inv(Next(s, parse, ReadFails(call)), parse)
  {
    hide Inv, HeldBetween, Held;
    var Missed(path, sig, from) := s.calls[call];
    FailedLater(s, parse, (path, Some(sig)));
    ReadGoesOn(s.(failed := s.failed + {(path, Some(sig))}), parse, call, None);
  }

  lemma StoredSize(c: Cache, key: string, sig: Signature, doc: Doc)
    requires |c| <= SHADOW_CACHE_MAX
    ensures |Stored(c, key, sig, doc)| <= SHADOW_CACHE_MAX
  {
    var e := Entry(sig, doc);
    assert c[key := e].Keys == c.Keys + {key};
    assert |c[key := e].Keys| <= |c.Keys| + 1;
    assert map[key := e].Keys == {key};
  }

  lemma ReadMakesEntry(d: Disk, failed: Failures, parse: string -> Doc, p: Phase)
    requires PhaseOk(d, failed, parse, p) && p.HasRead?
    ensures EntryOk(d, failed, parse, p.path, Entry(p.sig, p.doc))
    ensures Fair(d, failed, parse, p.path, Some(p.sig), p.from, Present(d, p.path), p.doc)
  {
    hide Fair;
  }

  lemma CallOk(s: State, parse: string -> Doc, call: nat)
    requires Inv(s, parse) && call in s.calls
    ensures PhaseOk(s.disk, s.failed, parse, s.calls[call])
  {
  }

  lemma StoredKeeps(s: State, parse: string -> Doc, path: string, sig: Signature, doc: Doc)
    requires Inv(s, parse) && EntryOk(s.disk, s.failed, parse, path, Entry(sig, doc))
    ensures Inv(s.(cache := Stored(s.cache, path, sig, doc)), parse)
  {
    StoredSize(s.cache, path, sig, doc);
    hide DistinctSignatures, EntryOk, CallsOk, AnswersOk;
  }

  lemma SaveKeeps(s: State, parse: string -> Doc, call: nat)
    requires Inv(s, parse) && call in s.calls && s.calls[call].HasRead?
    ensures Inv(Next(s, parse, Save(call)), parse)
  {
    hide Inv, Finish, Fair, PhaseOk, EntryOk, Stored, Hit, DocOf, Held;
    var HasRead(path, sig, from, doc) := s.calls[call];
    CallOk(s, parse, call);
    ReadMakesEntry(s.disk, s.failed, parse, s.calls[call]);
    StoredKeeps(s, parse, path, sig, doc);
    FinishKeeps(s.(cache := Stored(s.cache, path, sig, doc)), parse, call, path, from, Some(sig), doc);
  }

  lemma LookUpKeeps(s: State, parse: string -> Doc, call: nat)
    requires Inv(s, parse) && call in s.calls && s.calls[call].Statted?
    ensures Inv(Next(s, parse, LookUp(call)), parse)
  {
    var Statted(path, sig, from) := s.calls[call];
    CallOk(s, parse, call);
    if Hit(s.cache, path, sig).Some? {
      HitIsRecent(s.disk, s.failed, parse, path, s.cache[path], from);
      hide Inv, HeldBetween, Finish, Held;
      FinishKeeps(s, parse, call, path, from, Some(sig), Hit(s.cache, path, sig).value);
    } else {
      assert PhaseOk(s.disk, s.failed, parse, Missed(path, sig, from));
      hide DistinctSignatures, EntriesOk, AnswersOk, PhaseOk;
    }
  }

  lemma StepKeeps(s: State, parse: string -> Doc, step: Step)
    requires Inv(s, parse) && Allowed(s, step)
    ensures Inv(Next(s, parse, step), parse)
  {
    hide Inv, Held, Finish, Stored, Hit, DocOf;
    match step {
      case Write(path, version) => WriteKeeps(s, parse, path, version);
      case Stat(call, path) => StatKeeps(s, parse, call, path);
      case StatFails(call, path) => StatFailsKeeps(s, parse, call, path);
      case LookUp(call) =>
        if call in s.calls && s.calls[call].Statted? {
          LookUpKeeps(s, parse, call);
        }
      case ReadFile(call) =>
        if call in s.calls && s.calls[call].Missed? {
          ReadKeeps(s, parse, call);
        }
      case ReadFails(call) =>
        if call in s.calls && s.calls[call].Missed? {
          ReadFailsKeeps(s, parse, call);
        }
      case Save(call) =>
        if call in s.calls && s.calls[call].HasRead? {
          SaveKeeps(s, parse, call);
        }
    }
  }

  // ------------------------------------------------------------ runs

  predicate IsRun(states: seq<State>, parse: string -> Doc, steps: seq<Step>) {
    |states| == |steps| + 1
    && forall i :: 0 <= i < |steps| ==>
         Allowed(states[i], steps[i]) && states[i + 1] == Next(states[i], parse, steps[i])
  }

  /** Nothing cached, no call under way; the disk may hold any history without recurring signatures. */
  ghost predicate Initial(s: State) {
    DistinctSignatures(s.disk) && s.cache == map[] && s.calls == map[] && s.answers == [] && s.failed == {}
  }

  lemma {:induction false} RunKeeps(states: seq<State>, parse: string -> Doc, steps: seq<Step>, n: nat)
    requires IsRun(states, parse, steps) && Initial(states[0]) && n <= |steps|
    ensures Inv(states[n], parse)
  {
    if n > 0 {
      RunKeeps(states, parse, steps, n - 1);
      StepKeeps(states[n - 1], parse, steps[n - 1]);
    }
  }

  /** The step fails to stat path, or to read it for a call that saw signature sig. */
  predicate FailsOn(s: State, step: Step, path: string, sig: Option<Signature>) {
    match step
    case StatFails(_, p) => p == path && sig == None
    case ReadFails(call) =>
      call in s.calls && s.calls[call].Missed? && s.calls[call].path == path && sig == Some(s.calls[call].sig)
    case _ => false
  }

  ghost predicate FailedBefore(states: seq<State>, steps: seq<Step>, n: nat, path: string, sig: Option<Signature>)
    requires n <= |steps| && |states| == |steps| + 1
  {
    exists i :: 0 <= i < n && FailsOn(states[i], steps[i], path, sig)
  }

  lemma {:induction false} FailuresHappened(
    states: seq<State>, parse: string -> Doc, steps: seq<Step>, n: nat, path: string, sig: Option<Signature>)
    requires IsRun(states, parse, steps) && Initial(states[0]) && n <= |steps| && (path, sig) in states[n].failed
    ensures FailedBefore(states, steps, n, path, sig)
  {
    hide Initial, FailsOn;
    if n == 0 {
      NoneYet(states[0]);
    } else {
      FailureIsNew(states[n - 1], parse, steps[n - 1], path, sig);
      if !FailsOn(states[n - 1], steps[n - 1], path, sig) {
        FailuresHappened(states, parse, steps, n - 1, path, sig);
      }
    }
  }

  lemma NoneYet(s: State)
    requires Initial(s)
    ensures s.failed == {}
  {
  }

  lemma FailureIsNew(s: State, parse: string -> Doc, step: Step, path: string, sig: Option<Signature>)
    requires (path, sig) in Next(s, parse, step).failed
    ensures (path, sig) in s.failed || FailsOn(s, step, path, sig)
  {
    hide Held, Stored, Hit, DocOf;
  }

  /**
   * Under every interleaving each call answers with the reading of a version
   * the file held between the call's first look and its return, or with None
   * because a stat of the file failed, or a reading of it under the very
   * signature the call saw. The cache never holds more than 64 entries.
   */
  lemma AnswersAreFair(states: seq<State>, parse: string -> Doc, steps: seq<Step>, n: nat, a: Answer)
    requires IsRun(states, parse, steps) && Initial(states[0]) && n <= |steps| && a in states[n].answers
    ensures (exists j :: a.from <= j <= a.upto < |Held(states[n].disk, a.path)|
                         && a.doc == DocOf(parse, Held(states[n].disk, a.path)[j]))
         || (a.doc == None && FailedBefore(states, steps, n, a.path, a.sig))
    ensures |states[n].cache| <= SHADOW_CACHE_MAX
  {
    RunKeeps(states, parse, steps, n);
    hide DistinctSignatures, EntriesOk, CallsOk, IsRun, Held, Initial, FailedBefore;
    assert AnswerOk(states[n].disk, states[n].failed, parse, a);
    if (a.path, a.sig) in states[n].failed {
      FailuresHappened(states, parse, steps, n, a.path, a.sig);
    }
  }

  predicate NothingFails(steps: seq<Step>) {
    forall i :: 0 <= i < |steps| ==> !steps[i].StatFails? && !steps[i].ReadFails?
  }

  /** So when every file that exists can be read, the cache is linearizable. */
  lemma CacheIsLinearizable(states: seq<State>, parse: string -> Doc, steps: seq<Step>, n: nat, a: Answer)
    requires IsRun(states, parse, steps) && Initial(states[0]) && n <= |steps| && a in states[n].answers
    requires NothingFails(steps)
    ensures exists j :: a.from <= j <= a.upto < |Held(states[n].disk, a.path)|
                        && a.doc == DocOf(parse, Held(states[n].disk, a.path)[j])
  {
    AnswersAreFair(states, parse, steps, n, a);
    hide IsRun, Initial, Held;
  }

  /** A call during which its file is not written answers as a plain read would. */
  lemma QuietCallsReadPlainly(states: seq<State>, parse: string -> Doc, steps: seq<Step>, n: nat, a: Answer)
    requires IsRun(states, parse, steps) && Initial(states[0]) && n <= |steps| && a in states[n].answers
    requires NothingFails(steps) && a.from == a.upto
    ensures a.from < |Held(states[n].disk, a.path)| && a.doc == DocOf(parse, Held(states[n].disk, a.path)[a.from])
  {
    CacheIsLinearizable(states, parse, steps, n, a);
  }

  // ------------------------------------------------------------ what the cache spares

  /** Calls that store something among the steps from i to k. */
  function Saves(steps: seq<Step>, i: nat, k: nat): nat
    requires i <= k <= |steps|
  {
    if i == k then 0 else Saves(steps, i, k - 1) + if steps[k - 1].Save? then 1 else 0
  }

  /** The step stores an entry for path. */
  predicate SavesAt(s: State, step: Step, path: string) {
    step.Save? && step.call in s.calls && s.calls[step.call].HasRead? && s.calls[step.call].path == path
  }

  lemma StepKeepsEntry(s: State, parse: string -> Doc, step: Step, path: string)
    requires path in s.cache && (step.Save? ==> |s.cache| < SHADOW_CACHE_MAX) && !SavesAt(s, step, path)
    ensures var t := Next(s, parse, step);
            && path in t.cache && t.cache[path] == s.cache[path]
            && |t.cache| <= |s.cache| + if step.Save? then 1 else 0
  {
    hide Held, Hit, DocOf;
    if step.Save? && step.call in s.calls && s.calls[step.call].HasRead? {
      var p := s.calls[step.call];
      var grown := s.cache[p.path := Entry(p.sig, p.doc)];
      assert grown.Keys == s.cache.Keys + {p.path};
      assert |grown.Keys| <= |s.cache.Keys| + 1;
    }
  }

  /** An entry stays while the cache has room for what is stored after it. */
  lemma {:induction false} EntryStays(
    states: seq<State>, parse: string -> Doc, steps: seq<Step>, i: nat, k: nat, path: string)
    requires IsRun(states, parse, steps) && i <= k <= |steps| && path in states[i].cache
    requires |states[i].cache| + Saves(steps, i, k) <= SHADOW_CACHE_MAX
    requires forall j :: i <= j < k ==> !SavesAt(states[j], steps[j], path)
    ensures path in states[k].cache && states[k].cache[path] == states[i].cache[path]
    ensures |states[k].cache| <= |states[i].cache| + Saves(steps, i, k)
  {
    hide Next, SavesAt;
    if i < k {
      EntryStays(states, parse, steps, i, k - 1, path);
      StepKeepsEntry(states[k - 1], parse, steps[k - 1], path);
    }
  }

  /** A call that saves leaves its answer, and a later call that sees the same signature answers with it at its
      look-up, without reading, while the cache has room and nobody stores for that file. */
  lemma SecondCallIsSpared(
    states: seq<State>, parse: string -> Doc, steps: seq<Step>, i: nat, k: nat)
    requires IsRun(states, parse, steps) && i < k < |steps| && steps[i].Save? && steps[k].LookUp?
    requires steps[i].call in states[i].calls && states[i].calls[steps[i].call].HasRead?
    requires steps[k].call in states[k].calls && states[k].calls[steps[k].call].Statted?
    requires var p, q := states[i].calls[steps[i].call], states[k].calls[steps[k].call];
             && p.path == q.path && p.sig == q.sig
             && forall j :: i < j < k ==> !SavesAt(states[j], steps[j], p.path)
    requires |states[i + 1].cache| + Saves(steps, i + 1, k) <= SHADOW_CACHE_MAX
    ensures var p := states[i].calls[steps[i].call];
            && |states[k + 1].answers| == |states[k].answers| + 1
            && states[k + 1].answers[|states[k].answers|].path == p.path
            && states[k + 1].answers[|states[k].answers|].doc == p.doc
            && steps[k].call !in states[k + 1].calls
  {
    var p := states[i].calls[steps[i].call];
    hide Held, DocOf, SavesAt;
    assert states[i + 1] == Next(states[i], parse, steps[i]);
    assert p.path in states[i + 1].cache && states[i + 1].cache[p.path] == Entry(p.sig, p.doc);
    EntryStays(states, parse, steps, i + 1, k, p.path);
    assert states[k + 1] == Next(states[k], parse, steps[k]);
  }

  // ------------------------------------------------------------ one failed reading is answered again

  /** A file that never changes; one call fails to read it, and then another call asks. */
  function StuckSteps(path: string): seq<Step> {
    [Stat(0, path), LookUp(0), ReadFails(0), Save(0), Stat(1, path), LookUp(1)]
  }

  function StuckStates(path: string, sig: Signature, content: string): seq<State> {
    var d := map[path := [File(sig, content)]];
    var c := map[path := Entry(sig, None)];
    var f := {(path, Some(sig))};
    var a := Answer(path, 0, 0, Some(sig), None);
    [State(d, map[], map[], [], {}), State(d, map[], map[0 := Statted(path, sig, 0)], [], {}),
     State(d, map[], map[0 := Missed(path, sig, 0)], [], {}),
     State(d, map[], map[0 := HasRead(path, sig, 0, None)], [], f),
     State(d, c, map[], [a], f), State(d, c, map[1 := Statted(path, sig, 0)], [a], f), State(d, c, map[], [a, a], f)]
  }

  /** It happens: the second call reads nothing itself and answers None, whatever the file holds. */
  lemma FailureIsAnsweredAgain(parse: string -> Doc, path: string, sig: Signature, content: string)
    ensures var states, steps := StuckStates(path, sig, content), StuckSteps(path);
            && IsRun(states, parse, steps) && Initial(states[0])
            && |states[6].answers| == 2 && states[6].answers[1].doc == None
            && Held(states[6].disk, path) == [File(sig, content)]
  {
    var states, steps := StuckStates(path, sig, content), StuckSteps(path);
    forall i | 0 <= i < |steps|
      ensures Allowed(states[i], steps[i]) && states[i + 1] == Next(states[i], parse, steps[i])
    {
      StuckStep(parse, path, sig, content, i);
    }
  }

  lemma StuckStep(parse: string -> Doc, path: string, sig: Signature, content: string, i: nat)
    requires i < 6
    ensures var states, steps := StuckStates(path, sig, content), StuckSteps(path);
            Allowed(states[i], steps[i]) && states[i + 1] == Next(states[i], parse, steps[i])
  {
    var states, steps := StuckStates(path, sig, content), StuckSteps(path);
    if i == 3 {
      assert Stored(map[], path, sig, None) == map[path := Entry(sig, None)];
      assert states[3].calls - {0} == map[];
    } else if i == 5 {
      assert states[5].calls - {1} == map[];
    }
  }
}
