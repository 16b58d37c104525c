/**
 * What the configuration page is shown, and what saving that back does: the
 * secrets redact_config masks against the keys the save holds sensitive.
 */
module Redaction {
  import opened JsonTree
  import opened Numbers
  import opened SecretMerge
  import opened Sequences

  const MASK_TEXT := "\U{2022}\U{2022}\U{2022}\U{2022}\U{2022}\U{2022}\U{2022}\U{2022}"
  const MASK := Str(MASK_TEXT)

  /** Stripped and lowered text, and the texts that strip to nothing or to the mask: left open but for
      what Sane says. */
  datatype Texts = Texts(clean: string -> string, blank: string -> bool)

  const PROVIDERS: set<string> :=
    {"plex", "simkl", "anilist", "mdblist", "publicmetadb", "punchplay", "nuvio", "stremio", "floppy", "scrob",
     "tautulli", "trakt", "jellyfin", "emby", "kodi", "tmdb", "tmdb_sync"}

  const SECRET_KEYS: set<string> :=
    {"account_token", "pms_token", "home_pin", "webhook_secret", "access_token", "client_secret", "api_key",
     "refresh_token", "auth_key", "api_token", "password", "session_id", "_pending_request_token",
     "secret", "pending_secret", "hash", "salt", "token_hash"}

  const PENDING_KEYS: set<string> := {"_pending_pin", "_pending_device", "_pending_tv_login", "_pending_tv_caller"}

  const SECTIONS: set<string> := {"app_auth", "security", "scheduling", "webhooks"}

  /** The names the code uses are stripped and in lower case, but for one. */
  ghost predicate Sane(t: Texts) {
    && (forall k :: k in PROVIDERS || k in SECRET_KEYS || k in PENDING_KEYS || k in SECTIONS || k in URL_KEYS
          ==> t.clean(k) == k)
    && t.clean("authKey") == "authkey"
    && t.blank(MASK_TEXT)
  }

  // ------------------------------------------------------------ what the save holds sensitive

  const EXACT_KEYS: set<string> :=
    {"api_key", "apikey", "access_token", "refresh_token", "client_secret", "account_token", "pms_token", "home_pin",
     "session_id", "auth_key", "authkey", "token_hash", "salt", "hash", "device_code", "_pending_request_token",
     "request_token", "token", "webhook_ids", "webhook_id", "plextrakt", "jellyfintrakt", "embytrakt", "plexwatcher"}

  const KEY_PARTS: set<string> :=
    {"access_token", "refresh_token", "client_secret", "api_key", "apikey", "token_hash", "session_id", "auth_key",
     "authkey", "account_token", "pms_token", "home_pin", "device_code", "request_token", "password", "secret"}

  predicate PartAt(s: string, part: string, i: nat) {
    i + |part| <= |s| && s[i..i + |part|] == part
  }

  predicate Contains(s: string, part: string) {
    exists i: nat :: i <= |s| && PartAt(s, part, i)
  }

  predicate EndsWith(s: string, part: string) {
    |part| <= |s| && s[|s| - |part|..] == part
  }

  /** The test on a cleaned key. */
  predicate SensitiveKey(k: string) {
    "profile:" <= k || k in EXACT_KEYS
    || (EndsWith(k, "_token") && k != "token_endpoint" && k != "token_url")
    || exists part :: part in KEY_PARTS && Contains(k, part)
  }

  predicate IsBlank(t: Texts, v: Json) {
    v.Null? || (v.Str? && t.blank(v.s))
  }

  function SaveRules(t: Texts): Rules {
    Rules(v => IsBlank(t, v), k => SensitiveKey(t.clean(k)), t.clean)
  }

  function Save(t: Texts, stored: Json, posted: Json): Json
    requires stored.Dict? && posted.Dict?
  {
    Preserve(SaveRules(t), stored, posted, DeepMerge(stored, posted), [])
  }

  // ------------------------------------------------------------ what the page is shown

  function ProviderSecrets(provider: string): set<string> {
    if provider == "plex" then {"account_token", "pms_token", "home_pin", "webhook_secret"}
    else if provider == "simkl" then {"access_token", "client_secret", "_pending_pin"}
    else if provider == "anilist" then {"access_token", "client_secret"}
    else if provider == "mdblist" then {"api_key", "access_token", "refresh_token", "_pending_device"}
    else if provider == "publicmetadb" then {"api_key"}
    else if provider == "punchplay" then {"access_token", "refresh_token", "_pending_device"}
    else if provider == "nuvio" then {"access_token", "refresh_token", "_pending_tv_login", "_pending_tv_caller"}
    else if provider == "stremio" then {"auth_key", "authKey"}
    else if provider == "floppy" then {"api_token"}
    else if provider == "scrob" then {"api_key", "password", "access_token"}
    else if provider == "tautulli" then {"api_key"}
    else if provider == "trakt" then {"access_token", "refresh_token", "client_secret"}
    else if provider in {"jellyfin", "emby"} then {"access_token", "api_key", "password"}
    else if provider == "kodi" then {"password"}
    else if provider == "tmdb" then {"api_key"}
    else if provider == "tmdb_sync" then {"api_key", "session_id", "_pending_request_token"}
    else {}
  }

  predicate IsKey(w: seq<Step>, i: nat, k: string)
    requires i < |w|
  {
    w[i] == Key(k)
  }

  /** A field of a provider's block, or of one of its instances. */
  predicate ProviderField(w: seq<Step>) {
    && (|w| == 2 || (|w| == 4 && IsKey(w, 1, "instances") && w[2].Key?))
    && w[0].Key? && w[|w| - 1].Key?
  }

  predicate WebhookAt(w: seq<Step>) {
    |w| == 3 && IsKey(w, 0, "security") && IsKey(w, 1, "webhook_ids") && w[2].Key?
  }

  predicate HookAt(w: seq<Step>) {
    |w| == 3 && IsKey(w, 0, "scheduling") && IsKey(w, 1, "webhooks") && w[2].Key? && w[2].k in URL_KEYS
  }

  predicate TotpAt(w: seq<Step>) {
    && (|w| == 3 || (|w| == 5 && IsKey(w, 1, "users") && w[2].Key?))
    && IsKey(w, 0, "app_auth") && IsKey(w, |w| - 2, "totp")
    && w[|w| - 1].Key? && w[|w| - 1].k in {"secret", "pending_secret"}
  }

  predicate ProviderSecret(w: seq<Step>) {
    ProviderField(w) && w[|w| - 1].k in ProviderSecrets(w[0].k)
  }

  /** Places masked unless blank. */
  predicate LeafSecret(w: seq<Step>) {
    ProviderSecret(w) || WebhookAt(w) || TotpAt(w) || HookAt(w)
  }

  /** Places masked unless false, empty or zero. */
  predicate HashSecret(w: seq<Step>) {
    || (|w| == 3 && IsKey(w, 0, "app_auth") && IsKey(w, 1, "password") && w[2].Key? && w[2].k in {"hash", "salt"})
    || (|w| == 3 && IsKey(w, 0, "app_auth") && IsKey(w, 1, "session") && IsKey(w, 2, "token_hash"))
    || (|w| == 4 && IsKey(w, 0, "app_auth") && IsKey(w, 1, "sessions") && w[2].Idx? && IsKey(w, 3, "token_hash"))
  }

  predicate Truthy(v: Json) {
    match v
    case Null => false
    case Bool(b) => b
    case Num(n) => n != 0
    case Str(s) => s != ""
    case List(l) => l != []
    case Dict(f) => f != map[]
  }

  predicate Hides(t: Texts, w: seq<Step>, v: Json) {
    (LeafSecret(w) && !IsBlank(t, v)) || (HashSecret(w) && Truthy(v))
  }

  /** The tree with every such value, containers included, replaced by the mask. */
  function Redact(t: Texts, v: Json, at: seq<Step>): Json
    decreases v
  {
    match v
    case Dict(f) =>
      Dict(map k | k in f :: if Hides(t, at + [Key(k)], f[k]) then MASK else Redact(t, f[k], at + [Key(k)]))
    case List(l) =>
      List(seq(|l|, i requires 0 <= i < |l| => Redact(t, l[i], at + [Idx(i)])))
    case _ => v
  }

  // ------------------------------------------------------------ the round trip, for any rules

  function StepText(s: Step): string {
    match s
    case Key(k) => k
    case Idx(i) => Digits(i)
  }

  function PathText(w: seq<Step>): seq<string> {
    seq(|w|, i requires 0 <= i < |w| => StepText(w[i]))
  }

  lemma PathTextSnoc(w: seq<Step>, s: Step)
    ensures PathText(w + [s]) == PathText(w) + [StepText(s)]
  {
  }

  predicate SensitiveAt(r: Rules, w: seq<Step>)
    requires w != []
  {
    w[|w| - 1].Key? && Sensitive(r, w[|w| - 1].k, PathText(w[..|w| - 1]))
  }

  /** Every value the page hides under v is at a place the save restores. */
  predicate HiddenOk(t: Texts, r: Rules, v: Json, at: seq<Step>)
    decreases v
  {
    match v
    case Dict(f) =>
      forall k :: k in f ==>
        if Hides(t, at + [Key(k)], f[k]) then f[k] == MASK || SensitiveAt(r, at + [Key(k)])
        else HiddenOk(t, r, f[k], at + [Key(k)])
    case List(l) => forall i :: 0 <= i < |l| ==> HiddenOk(t, r, l[i], at + [Idx(i)])
    case _ => true
  }

  lemma RedactKind(t: Texts, v: Json, at: seq<Step>)
    ensures var r := Redact(t, v, at);
            match v
            case Dict(f) => r.Dict? && r.fields.Keys == f.Keys
            case List(l) => r.List? && |r.items| == |l|
            case _ => r == v
  {
  }

  /** The part of one child in HiddenOk. */
  predicate StepOk(t: Texts, r: Rules, child: Json, w: seq<Step>)
    requires w != []
  {
    if Hides(t, w, child) then child == MASK || SensitiveAt(r, w) else HiddenOk(t, r, child, w)
  }

  /** What the page is shown of one child. */
  function Shown(t: Texts, child: Json, w: seq<Step>): Json {
    if Hides(t, w, child) then MASK else Redact(t, child, w)
  }

  lemma {:induction false} KeyShows(t: Texts, r: Rules, child: Json, at: seq<Step>, k: string, whole: bool)
    requires r.blank(MASK)
    ensures var w := at + [Key(k)];
            var now := Shown(t, child, w);
            ((if Walks(now, child) then Shows(r, child, now, PathText(at) + [k], whole)
             else now == child || IsBlanked(r, now, k, PathText(at)))
             <==> StepOk(t, r, child, w))
    decreases child, 2
  {
    hide Hides, Sensitive, HiddenOk, Redact, Shows;
    var w := at + [Key(k)];
    assert w[..|at|] == at;
    PathTextSnoc(at, Key(k));
    RedactKind(t, child, w);
    if !Hides(t, w, child) {
      RedactShows(t, r, child, w, whole);
      LeafOk(t, r, child, w);
    }
  }

  lemma LeafOk(t: Texts, r: Rules, v: Json, w: seq<Step>)
    ensures !v.Dict? && !v.List? ==> HiddenOk(t, r, v, w)
  {
  }

  lemma {:induction false} RedactShows(t: Texts, r: Rules, v: Json, at: seq<Step>, whole: bool)
    requires r.blank(MASK)
    ensures Shows(r, v, Redact(t, v, at), PathText(at), whole) <==> HiddenOk(t, r, v, at)
    decreases v, 1
  {
    hide Hides, Shows, HiddenOk, Redact;
    RedactKind(t, v, at);
    match v {
      case Dict(f) => RedactShowsDict(t, r, v, at, whole);
      case List(l) => RedactShowsList(t, r, v, at, whole);
      case _ =>
        LeafOk(t, r, v, at);
        LeafShown(r, v, PathText(at), whole);
    }
  }

  lemma LeafShown(r: Rules, v: Json, path: seq<string>, whole: bool)
    ensures !v.Dict? && !v.List? ==> Shows(r, v, v, path, whole)
  {
  }

  lemma {:induction false} RedactShowsDict(t: Texts, r: Rules, v: Json, at: seq<Step>, whole: bool)
    requires r.blank(MASK) && v.Dict?
    ensures Shows(r, v, Redact(t, v, at), PathText(at), whole) <==> HiddenOk(t, r, v, at)
    decreases v, 0
  {
    hide Hides, Walks, IsBlanked, SensitiveAt;
    var f := v.fields;
    assert Redact(t, v, at) == Dict(map k | k in f :: Shown(t, f[k], at + [Key(k)]));
    assert HiddenOk(t, r, v, at) <==> forall k :: k in f ==> StepOk(t, r, f[k], at + [Key(k)]);
    hide Redact, HiddenOk, Shown, StepOk;
    forall k | k in f
      ensures var now := Shown(t, f[k], at + [Key(k)]);
              ((if Walks(now, f[k]) then Shows(r, f[k], now, PathText(at) + [k], whole)
               else now == f[k] || IsBlanked(r, now, k, PathText(at)))
               <==> StepOk(t, r, f[k], at + [Key(k)]))
    {
      KeyShows(t, r, f[k], at, k, whole);
    }
  }

  lemma {:induction false} RedactShowsList(t: Texts, r: Rules, v: Json, at: seq<Step>, whole: bool)
    requires r.blank(MASK) && v.List?
    ensures Shows(r, v, Redact(t, v, at), PathText(at), whole) <==> HiddenOk(t, r, v, at)
    decreases v, 0
  {
    hide Hides, Digits;
    var l := v.items;
    forall i | 0 <= i < |l|
      ensures var w := at + [Idx(i)];
              Shows(r, l[i], Redact(t, l[i], w), PathText(at) + [Digits(i)], true) <==> HiddenOk(t, r, l[i], w)
    {
      PathTextSnoc(at, Idx(i));
      RedactShows(t, r, l[i], at + [Idx(i)], true);
    }
  }

  /** A stored value that the page hides. */
  predicate Exposed(t: Texts, v: Json, at: seq<Step>, p: seq<Step>) {
    p != [] && Get(v, p).Some? && Hides(t, at + p, Get(v, p).value) && Get(v, p).value != MASK
  }

  /** No secret lies inside another. */
  lemma SecretsApart(w: seq<Step>, q: seq<Step>)
    requires LeafSecret(w) || HashSecret(w)
    requires q != []
    ensures !LeafSecret(w + q) && !HashSecret(w + q)
  {
    var u := w + q;
    assert |u| > |w| && forall i :: 0 <= i < |w| ==> u[i] == w[i];
  }

  /** Going one step down. */
  lemma ExposedBelow(t: Texts, v: Json, at: seq<Step>, s: Step, child: Json, p: seq<Step>)
    requires Get(v, [s]) == Some(child) && p != []
    ensures Exposed(t, v, at, [s] + p) <==> Exposed(t, child, at + [s], p)
    ensures at + ([s] + p) == (at + [s]) + p
  {
    hide Hides;
    assert ([s] + p)[1..] == p;
    assert at + ([s] + p) == (at + [s]) + p;
  }

  ghost predicate AllSensitive(t: Texts, r: Rules, v: Json, at: seq<Step>) {
    forall p :: Exposed(t, v, at, p) ==> SensitiveAt(r, at + p)
  }

  lemma {:induction false} NothingExposedInside(t: Texts, v: Json, at: seq<Step>, p: seq<Step>)
    requires LeafSecret(at) || HashSecret(at)
    ensures !Exposed(t, v, at, p)
  {
    if p != [] {
      SecretsApart(at, p);
    }
  }

  lemma {:induction false} StepOkAll(t: Texts, r: Rules, v: Json, at: seq<Step>, s: Step, child: Json)
    requires Get(v, [s]) == Some(child) && child < v
    ensures StepOk(t, r, child, at + [s])
       <==> forall p :: p != [] && p[0] == s && Exposed(t, v, at, p) ==> SensitiveAt(r, at + p)
    decreases v, 0
  {
    hide SensitiveAt, LeafSecret, HashSecret;
    var w := at + [s];
    forall p | p != [] && p[0] == s
      ensures if p == [s] then Exposed(t, v, at, p) <==> Hides(t, w, child) && child != MASK
              else (Exposed(t, v, at, p) <==> Exposed(t, child, w, p[1..])) && at + p == w + p[1..]
    {
      if p != [s] {
        assert p == [s] + p[1..];
        ExposedBelow(t, v, at, s, child, p[1..]);
      }
    }
    if Hides(t, w, child) {
      forall p | p != [] && p[0] == s && p != [s] ensures !Exposed(t, v, at, p) {
        NothingExposedInside(t, child, w, p[1..]);
      }
    } else {
      HiddenOkAll(t, r, child, w);
      if AllSensitive(t, r, child, w) {
        forall p | p != [] && p[0] == s && Exposed(t, v, at, p) ensures SensitiveAt(r, at + p) {
          assert Exposed(t, child, w, p[1..]);
        }
      } else {
        var q :| Exposed(t, child, w, q) && !SensitiveAt(r, w + q);
        ExposedBelow(t, v, at, s, child, q);
        assert ([s] + q)[0] == s;
      }
    }
  }

  /** What the recursion checks child by child holds at every place. */
  lemma {:induction false} HiddenOkAll(t: Texts, r: Rules, v: Json, at: seq<Step>)
    ensures HiddenOk(t, r, v, at) <==> AllSensitive(t, r, v, at)
    decreases v, 1
  {
    hide Hides, SensitiveAt;
    match v {
      case Dict(f) =>
        forall k | k in f
          ensures StepOk(t, r, f[k], at + [Key(k)])
             <==> forall p :: p != [] && p[0] == Key(k) && Exposed(t, v, at, p) ==> SensitiveAt(r, at + p)
        {
          StepOkAll(t, r, v, at, Key(k), f[k]);
        }
        assert HiddenOk(t, r, v, at) <==> forall k :: k in f ==> StepOk(t, r, f[k], at + [Key(k)]);
        forall p: seq<Step> | Exposed(t, v, at, p) ensures p[0].Key? && p[0].k in f {}
      case List(l) =>
        forall i | 0 <= i < |l|
          ensures StepOk(t, r, l[i], at + [Idx(i)])
             <==> forall p :: p != [] && p[0] == Idx(i) && Exposed(t, v, at, p) ==> SensitiveAt(r, at + p)
        {
          StepOkAll(t, r, v, at, Idx(i), l[i]);
        }
        forall i | 0 <= i < |l| ensures !Hides(t, at + [Idx(i)], l[i]) { NoSecretAtIndex(t, at, i, l[i]); }
        assert HiddenOk(t, r, v, at) <==> forall i :: 0 <= i < |l| ==> StepOk(t, r, l[i], at + [Idx(i)]);
        forall p: seq<Step> | Exposed(t, v, at, p) ensures p[0].Idx? && p[0].i < |l| {}
      case _ =>
    }
  }

  lemma NoSecretAtIndex(t: Texts, at: seq<Step>, i: nat, v: Json)
    ensures !Hides(t, at + [Idx(i)], v)
  {
  }

  // ------------------------------------------------------------ the round trip, for the rules in use

  function PendingKeys(provider: string): set<string> {
    if provider == "simkl" then {"_pending_pin"}
    else if provider in {"mdblist", "punchplay"} then {"_pending_device"}
    else if provider == "nuvio" then {"_pending_tv_login", "_pending_tv_caller"}
    else {}
  }

  /** The state of a device sign-in under way: masked on the page, not sensitive to the save. */
  predicate PendingAt(w: seq<Step>) {
    ProviderField(w) && w[|w| - 1].k in PendingKeys(w[0].k)
  }

  /** The letters of a part are letters of the text. */
  lemma PartLetters(s: string, part: string, i: nat)
    requires i < |part|
    ensures Contains(s, part) ==> part[i] in s
  {
    if Contains(s, part) {
      var j: nat :| j <= |s| && PartAt(s, part, j);
      assert s[j + i] == s[j..j + |part|][i];
    }
  }

  /** A letter of the part that none of the keys of a sign-in under way has. */
  function Odd(part: string): nat {
    if part in {"session_id", "secret", "home_pin"} then 0
    else if part in {"auth_key", "authkey", "pms_token"} then 1
    else if part in {"refresh_token", "request_token", "token_hash", "password"} then 2
    else if part == "apikey" then 3
    else if part == "client_secret" then 7
    else 4
  }

  const ODD_LETTERS: set<char> := {'s', 'h', 'u', 'm', 'f', 'q', 'k'}

  lemma OddIsOdd(part: string)
    requires part in KEY_PARTS && part != "device_code"
    ensures Odd(part) < |part| && part[Odd(part)] in ODD_LETTERS
  {
  }

  lemma PendingLetters(k: string)
    requires k in PENDING_KEYS
    ensures forall c :: c in ODD_LETTERS ==> c !in k
  {
  }

  lemma PendingDeviceCode(k: string)
    requires k in PENDING_KEYS
    ensures !Contains(k, "device_code")
  {
    var part := "device_code";
    assert part[3] == 'i' && part[2] == 'v' && part[4] == 'c' && part[8] == 'o';
    PartLetters(k, part, 2);
    PartLetters(k, part, 4);
    PartLetters(k, part, 8);
  }

  /** No part that makes a key sensitive is in the keys of a sign-in under way. */
  lemma PendingParts(k: string, part: string)
    requires k in PENDING_KEYS && part in KEY_PARTS
    ensures !Contains(k, part)
  {
    hide *;
    if part == "device_code" {
      PendingDeviceCode(k);
    } else {
      OddIsOdd(part);
      PendingLetters(k);
      PartLetters(k, part, Odd(part));
    }
  }

  /** Keys known by name start otherwise or are longer. */
  lemma ExactKeyShape(k: string)
    requires k in EXACT_KEYS
    ensures k != "" && (k[0] == '_' ==> |k| == 22)
  {
  }

  lemma PendingShape(k: string)
    requires k in PENDING_KEYS
    ensures 2 < |k| < 22 && k[0] == '_' && (k[|k| - 1] != 'n' || k[|k| - 2] != 'e')
  {
  }

  lemma TokenEnd(k: string)
    requires EndsWith(k, "_token")
    ensures k[|k| - 1] == 'n' && k[|k| - 2] == 'e'
  {
    var e := k[|k| - 6..];
    assert e[5] == 'n' && e[4] == 'e';
  }

  lemma PendingNotSensitive(k: string)
    requires k in PENDING_KEYS
    ensures !SensitiveKey(k)
  {
    hide Contains, EndsWith;
    PendingShape(k);
    if k in EXACT_KEYS { ExactKeyShape(k); }
    if EndsWith(k, "_token") { TokenEnd(k); }
    forall part | part in KEY_PARTS ensures !Contains(k, part) {
      PendingParts(k, part);
    }
    assert "profile:"[0] == 'p';
  }

  lemma PartMakesSensitive(k: string, part: string, i: nat)
    requires part in KEY_PARTS && PartAt(k, part, i)
    ensures SensitiveKey(k)
  {
  }

  lemma SecretSensitive(k: string)
    requires k in SECRET_KEYS || k == "authkey"
    ensures SensitiveKey(k)
  {
    hide Contains;
    if k == "webhook_secret" {
      PartMakesSensitive(k, "secret", 8);
    } else if k == "pending_secret" {
      PartMakesSensitive(k, "secret", 8);
    } else if k == "secret" {
      PartMakesSensitive(k, "secret", 0);
    } else if k == "password" {
      PartMakesSensitive(k, "password", 0);
    } else if k == "api_token" {
      assert EndsWith(k, "_token");
    }
  }

  lemma ProviderNames(provider: string, k: string)
    requires k in ProviderSecrets(provider)
    ensures provider in PROVIDERS
    ensures k in PendingKeys(provider) <==> k in PENDING_KEYS
    ensures k in SECRET_KEYS || k in PENDING_KEYS || k == "authKey"
  {
  }

  lemma {:induction false} CleanHead(r: Rules, path: seq<string>)
    requires path != [] && r.clean(path[0]) != ""
    ensures CleanPath(r, path) != [] && CleanPath(r, path)[0] == r.clean(path[0])
  {
    if |path| > 1 {
      CleanHead(r, path[..|path| - 1]);
    }
  }

  lemma CleanThree(r: Rules, path: seq<string>)
    requires |path| == 3 && r.clean(path[0]) != "" && r.clean(path[1]) != "" && r.clean(path[2]) != ""
    ensures CleanPath(r, path) == [r.clean(path[0]), r.clean(path[1]), r.clean(path[2])]
  {
    var a, b := path[..1], path[..2];
    assert path[..2][..1] == a && a[..0] == [];
    assert CleanPath(r, a) == [r.clean(path[0])];
    assert CleanPath(r, b) == [r.clean(path[0]), r.clean(path[1])];
  }

  lemma PathTextLast(w: seq<Step>)
    requires w != [] && w[|w| - 1].Key?
    ensures PathText(w[..|w| - 1]) + [w[|w| - 1].k] == PathText(w)
  {
    assert w == w[..|w| - 1] + [w[|w| - 1]];
    PathTextSnoc(w[..|w| - 1], w[|w| - 1]);
  }

  /** Outside the scheduling section only the key decides. */
  lemma OnlyKeyCounts(t: Texts, w: seq<Step>)
    requires w != [] && w[|w| - 1].Key? && w[0].Key? && t.clean(w[0].k) != "" && t.clean(w[0].k) != "scheduling"
    ensures SensitiveAt(SaveRules(t), w) <==> SensitiveKey(t.clean(w[|w| - 1].k))
  {
    hide SensitiveKey;
    PathTextLast(w);
    CleanHead(SaveRules(t), PathText(w));
  }

  lemma HookSensitive(t: Texts, w: seq<Step>)
    requires |w| == 3 && w[0].Key? && w[1].Key? && w[2].Key? && w[2].k in URL_KEYS
    requires t.clean(w[0].k) == "scheduling" && t.clean(w[1].k) == "webhooks"
    requires t.clean(w[2].k) == w[2].k && w[2].k != ""
    ensures SensitiveAt(SaveRules(t), w)
  {
    hide SensitiveKey;
    PathTextLast(w);
    CleanThree(SaveRules(t), PathText(w));
  }

  lemma ProvidersAreClean(t: Texts)
    requires Sane(t)
    ensures forall p :: p in PROVIDERS ==> t.clean(p) == p && p != "" && p != "scheduling"
  {
    ProvidersNamed();
    hide PROVIDERS, URL_KEYS, SECRET_KEYS, PENDING_KEYS;
  }

  lemma ProvidersNamed()
    ensures "" !in PROVIDERS && "scheduling" !in PROVIDERS
  {
  }

  lemma UrlKeysAreClean(t: Texts)
    requires Sane(t)
    ensures forall k :: k in URL_KEYS ==> t.clean(k) == k && k != ""
  {
    hide PROVIDERS, SECRET_KEYS, PENDING_KEYS;
  }

  lemma SecretKeysAreClean(t: Texts)
    requires Sane(t)
    ensures forall k :: k in SECRET_KEYS || k in PENDING_KEYS ==> t.clean(k) == k
  {
    hide PROVIDERS, URL_KEYS;
  }

  lemma SectionsAreClean(t: Texts)
    requires Sane(t)
    ensures t.clean("app_auth") == "app_auth" && t.clean("security") == "security"
    ensures t.clean("scheduling") == "scheduling" && t.clean("webhooks") == "webhooks"
  {
    hide PROVIDERS, URL_KEYS, SECRET_KEYS, PENDING_KEYS;
  }

  lemma ProviderSecretRisk(t: Texts, w: seq<Step>)
    requires Sane(t) && ProviderSecret(w)
    ensures SensitiveAt(SaveRules(t), w) <==> !PendingAt(w)
  {
    var p, k := w[0].k, w[|w| - 1].k;
    ProvidersAreClean(t);
    SecretKeysAreClean(t);
    SectionsAreClean(t);
    ProviderNames(p, k);
    OnlyKeyCounts(t, w);
    assert PendingAt(w) <==> k in PENDING_KEYS;
    var known := k == "authKey" ==> t.clean(k) == "authkey";
    assert known;
    hide *;
    if k in PENDING_KEYS {
      PendingNotSensitive(k);
    } else if k == "authKey" {
      SecretSensitive("authkey");
    } else {
      SecretSensitive(k);
    }
  }

  /** A webhook id under a key the save does not know as sensitive. */
  predicate LooseHookId(t: Texts, w: seq<Step>) {
    WebhookAt(w) && !SensitiveKey(t.clean(w[2].k))
  }

  /** Secrets of the accounts sit under sensitive keys. */
  lemma AccountSecret(w: seq<Step>)
    requires TotpAt(w) || HashSecret(w)
    ensures w != [] && w[0] == Key("app_auth") && w[|w| - 1].Key? && w[|w| - 1].k in SECRET_KEYS
    ensures !PendingAt(w) && !WebhookAt(w)
  {
  }

  lemma HookPlaces(w: seq<Step>)
    ensures WebhookAt(w) ==> w[0].k == "security" && w[2].Key? && !PendingAt(w)
    ensures HookAt(w) ==> w[0].k == "scheduling" && w[1] == Key("webhooks") && !PendingAt(w) && !WebhookAt(w)
  {
  }

  lemma ProviderPlaces(w: seq<Step>)
    requires ProviderSecret(w)
    ensures !WebhookAt(w)
  {
    ProviderNames(w[0].k, w[|w| - 1].k);
  }

  lemma AccountRisk(t: Texts, w: seq<Step>)
    requires w != [] && Sane(t) && (TotpAt(w) || HashSecret(w))
    ensures SensitiveAt(SaveRules(t), w) && !PendingAt(w) && !WebhookAt(w)
  {
    AccountSecret(w);
    SecretKeysAreClean(t);
    SectionsAreClean(t);
    hide *;
    OnlyKeyCounts(t, w);
    SecretSensitive(w[|w| - 1].k);
  }

  lemma HookRisk(t: Texts, w: seq<Step>)
    requires Sane(t) && HookAt(w)
    ensures SensitiveAt(SaveRules(t), w) && !PendingAt(w) && !WebhookAt(w)
  {
    UrlKeysAreClean(t);
    SectionsAreClean(t);
    HookPlaces(w);
    assert |w| == 3 && w[2].Key? && w[2].k in URL_KEYS;
    hide *;
    HookSensitive(t, w);
  }

  lemma WebhookRisk(t: Texts, w: seq<Step>)
    requires Sane(t) && WebhookAt(w)
    ensures SensitiveAt(SaveRules(t), w) <==> !LooseHookId(t, w)
    ensures !PendingAt(w)
  {
    SectionsAreClean(t);
    HookPlaces(w);
    assert |w| == 3 && w[0].Key?;
    hide SensitiveKey, SensitiveAt;
    OnlyKeyCounts(t, w);
  }

  /** Of the places the page hides, the save restores all but two sorts. */
  lemma SecretRisk(t: Texts, w: seq<Step>)
    requires Sane(t) && w != [] && (LeafSecret(w) || HashSecret(w))
    ensures SensitiveAt(SaveRules(t), w) <==> !PendingAt(w) && !LooseHookId(t, w)
  {
    hide ProviderSecret, TotpAt, HookAt, HashSecret, PendingAt, SensitiveAt, SaveRules, WebhookAt, Sane;
    if ProviderSecret(w) {
      ProviderSecretRisk(t, w);
      ProviderPlaces(w);
    } else if WebhookAt(w) {
      WebhookRisk(t, w);
    } else if HookAt(w) {
      HookRisk(t, w);
    } else {
      AccountRisk(t, w);
    }
  }

  // ------------------------------------------------------------ the two sorts that are lost

  /** A stored value that the page masks and the save does not hold sensitive. */
  predicate AtRisk(t: Texts, stored: Json, w: seq<Step>) {
    Exposed(t, stored, [], w) && (PendingAt(w) || LooseHookId(t, w))
  }

  lemma ExposedRisk(t: Texts, stored: Json, w: seq<Step>)
    requires Sane(t) && Exposed(t, stored, [], w)
    ensures [] + w == w != [] && (SensitiveAt(SaveRules(t), [] + w) <==> !AtRisk(t, stored, w))
  {
    hide LeafSecret, HashSecret, SensitiveAt, PendingAt, LooseHookId, Sane, SaveRules, IsBlank, Truthy;
    assert [] + w == w;
    SecretRisk(t, w);
  }

  lemma AllSensitiveRisk(t: Texts, stored: Json)
    requires Sane(t)
    ensures AllSensitive(t, SaveRules(t), stored, []) <==> forall w :: !AtRisk(t, stored, w)
  {
    hide Exposed, SensitiveAt, PendingAt, LooseHookId, Sane, SaveRules;
    forall w | Exposed(t, stored, [], w)
      ensures w != [] && (SensitiveAt(SaveRules(t), [] + w) <==> !AtRisk(t, stored, w))
    {
      ExposedRisk(t, stored, w);
    }
  }

  lemma MaskIsBlank(t: Texts)
    requires Sane(t)
    ensures SaveRules(t).blank(MASK)
  {
  }

  /**
   * Posting the configuration page back saves what was stored if and only if no
   * device sign-in is pending and every webhook id is under a key known as
   * sensitive.
   */
  lemma ConfigRoundTrip(t: Texts, stored: Json)
    requires Sane(t) && stored.Dict?
    ensures Redact(t, stored, []).Dict?
    ensures Save(t, stored, Redact(t, stored, [])) == stored <==> forall w :: !AtRisk(t, stored, w)
  {
    MaskIsBlank(t);
    RedactKind(t, stored, []);
    hide Redact, Shows, HiddenOk, AllSensitive, AtRisk, Preserve, DeepMerge, SaveRules, Sane;
    var r, shown := SaveRules(t), Redact(t, stored, []);
    SaveRoundTrip(r, stored, shown, []);
    assert PathText([]) == [];
    RedactShows(t, r, stored, [], false);
    HiddenOkAll(t, r, stored, []);
    AllSensitiveRisk(t, stored);
  }

  lemma GetTwo(a: string, b: string, v: Json)
    ensures Get(Dict(map[a := Dict(map[b := v])]), [Key(a), Key(b)]) == Some(v)
  {
    var w := [Key(a), Key(b)];
    assert w[1..] == [Key(b)] && w[1..][1..] == [];
    assert Get(Dict(map[b := v]), w[1..]) == Some(v);
  }

  lemma PinIsPending(w: seq<Step>)
    requires w == [Key("simkl"), Key("_pending_pin")]
    ensures ProviderSecret(w) && PendingAt(w)
  {
  }

  /** A device sign-in under way is lost: its record is stored, and the page masks it. */
  lemma PendingSignInLost(t: Texts, pin: Json)
    requires Sane(t) && pin.Dict?
    ensures var stored := Dict(map["simkl" := Dict(map["_pending_pin" := pin])]);
            && AtRisk(t, stored, [Key("simkl"), Key("_pending_pin")])
            && Redact(t, stored, []).Dict? && Save(t, stored, Redact(t, stored, [])) != stored
  {
    hide PendingAt, Redact, Save, Sane, ProviderSecret, LooseHookId;
    var stored := Dict(map["simkl" := Dict(map["_pending_pin" := pin])]);
    var w := [Key("simkl"), Key("_pending_pin")];
    GetTwo("simkl", "_pending_pin", pin);
    hide Get;
    PinIsPending(w);
    assert [] + w == w;
    ConfigRoundTrip(t, stored);
  }
}
