/**
 * Where the configuration page masks: the places one by one, what happens to
 * the values at them, and which keys the save holds sensitive, all without
 * the tables that the masking and the save work with.
 */
module MaskedPlaces {
  import opened JsonTree
  import opened Redaction
  import opened SecretMerge
  import opened Sequences

  // ------------------------------------------------------------ places

  predicate IsAddress(u: string) {
    u in {"url", "default_url", "base_url", "healthchecks_base_url", "start_url", "success_url", "failure_url"}
  }

  /** The secrets of the providers, key by key. */
  lemma SecretHolders(p: string)
    ensures "access_token" in ProviderSecrets(p) <==>
              p in {"simkl", "anilist", "mdblist", "punchplay", "nuvio", "scrob", "trakt", "jellyfin", "emby"}
    ensures "refresh_token" in ProviderSecrets(p) <==> p in {"mdblist", "punchplay", "nuvio", "trakt"}
    ensures "client_secret" in ProviderSecrets(p) <==> p in {"simkl", "anilist", "trakt"}
    ensures "api_key" in ProviderSecrets(p) <==>
              p in {"mdblist", "publicmetadb", "scrob", "tautulli", "jellyfin", "emby", "tmdb", "tmdb_sync"}
    ensures "password" in ProviderSecrets(p) <==> p in {"scrob", "jellyfin", "emby", "kodi"}
    ensures "_pending_device" in ProviderSecrets(p) <==> p in {"mdblist", "punchplay"}
  {
  }

  /** The rest each belong to one provider. */
  lemma SecretOwners(p: string)
    ensures "account_token" in ProviderSecrets(p) <==> p == "plex"
    ensures "pms_token" in ProviderSecrets(p) <==> p == "plex"
    ensures "home_pin" in ProviderSecrets(p) <==> p == "plex"
    ensures "webhook_secret" in ProviderSecrets(p) <==> p == "plex"
    ensures "_pending_pin" in ProviderSecrets(p) <==> p == "simkl"
    ensures "_pending_tv_login" in ProviderSecrets(p) <==> p == "nuvio"
    ensures "_pending_tv_caller" in ProviderSecrets(p) <==> p == "nuvio"
  {
  }

  lemma OtherOwners(p: string)
    ensures "auth_key" in ProviderSecrets(p) <==> p == "stremio"
    ensures "authKey" in ProviderSecrets(p) <==> p == "stremio"
    ensures "api_token" in ProviderSecrets(p) <==> p == "floppy"
    ensures "session_id" in ProviderSecrets(p) <==> p == "tmdb_sync"
    ensures "_pending_request_token" in ProviderSecrets(p) <==> p == "tmdb_sync"
  {
  }

  lemma SecretNames(p: string)
    ensures ProviderSecrets(p) <=
              {"access_token", "refresh_token", "client_secret", "api_key", "password", "_pending_device",
               "account_token", "pms_token", "home_pin", "webhook_secret", "_pending_pin", "_pending_tv_login",
               "_pending_tv_caller", "auth_key", "authKey", "api_token", "session_id", "_pending_request_token"}
  {
  }

  /** A provider's secrets are masked in its block and in each of its instances, webhook ids under any key, webhook
      addresses under seven, and the two-factor secrets of the administrator and of each managed account. */
  lemma MaskedLeaves(a: Step, b: Step, c: Step, d: Step, e: Step)
    ensures LeafSecret([a, b]) <==> a.Key? && b.Key? && b.k in ProviderSecrets(a.k)
    ensures LeafSecret([a, b, c]) <==>
              || (a == Key("security") && b == Key("webhook_ids") && c.Key?)
              || (a == Key("scheduling") && b == Key("webhooks") && c.Key? && IsAddress(c.k))
              || (a == Key("app_auth") && b == Key("totp") && (c == Key("secret") || c == Key("pending_secret")))
    ensures LeafSecret([a, b, c, d]) <==>
              a.Key? && b == Key("instances") && c.Key? && d.Key? && d.k in ProviderSecrets(a.k)
    ensures LeafSecret([a, b, c, d, e]) <==>
              && a == Key("app_auth") && b == Key("users") && c.Key? && d == Key("totp")
              && (e == Key("secret") || e == Key("pending_secret"))
  {
    hide ProviderSecrets;
  }

  /** Password hash and salt, and the token hash of the mirrored session and of every session in the list. */
  lemma MaskedHashes(a: Step, b: Step, c: Step, d: Step)
    ensures HashSecret([a, b, c]) <==>
              a == Key("app_auth")
              && ((b == Key("password") && (c == Key("hash") || c == Key("salt")))
                  || (b == Key("session") && c == Key("token_hash")))
    ensures HashSecret([a, b, c, d]) <==>
              a == Key("app_auth") && b == Key("sessions") && c.Idx? && d == Key("token_hash")
  {
  }

  /** There are no others: a secret lies two to five steps down. */
  lemma MaskedDepth(w: seq<Step>)
    requires LeafSecret(w) || HashSecret(w)
    ensures 2 <= |w| <= 5 && (HashSecret(w) ==> |w| == 3 || |w| == 4)
  {
    hide ProviderSecrets;
  }

  // ------------------------------------------------------------ values

  /** At a place of the first sort everything but null and blank text is masked, at one of the second everything
      that Python holds true. */
  lemma MaskedValues(t: Texts, w: seq<Step>, v: Json)
    ensures Hides(t, w, v) <==>
              || (LeafSecret(w) && v != Null && !(v.Str? && t.blank(v.s)))
              || (HashSecret(w) && v !in {Null, Bool(false), Num(0), Str(""), List([]), Dict(map[])})
  {
    hide LeafSecret, HashSecret;
  }

  lemma GetStep(v: Json, s: Step)
    ensures Get(v, [s]) == match s
                           case Key(k) => if v.Dict? && k in v.fields then Some(v.fields[k]) else None
                           case Idx(i) => if v.List? && i < |v.items| then Some(v.items[i]) else None
  {
    assert [s][1..] == [];
    assert forall x: Json :: Get(x, [s][1..]) == Some(x);
  }

  predicate Secret(w: seq<Step>) {
    LeafSecret(w) || HashSecret(w)
  }

  /** The masked tree, walked down past places that are not masked. */
  lemma {:induction false} ShownAt(t: Texts, v: Json, at: seq<Step>, p: seq<Step>)
    requires p != []
    requires forall n :: 0 < n < |p| ==>
               Get(v, p[..n]).None? || !Hides(t, at + p[..n], Get(v, p[..n]).value)
    ensures Get(Redact(t, v, at), p).Some? <==> Get(v, p).Some?
    ensures Get(v, p).Some? ==> Get(Redact(t, v, at), p) == Some(Shown(t, Get(v, p).value, at + p))
  {
    hide Hides;
    var s := p[0];
    var w := at + [s];
    RedactKind(t, v, at);
    GetStep(v, s);
    GetStep(Redact(t, v, at), s);
    if Get(v, [s]).Some? {
      var child := Get(v, [s]).value;
      assert s.Key? ==> child == v.fields[s.k];
      assert s.Idx? ==> child == v.items[s.i];
      if s.Idx? { NoSecretAtIndex(t, at, s.i, child); }
      assert Get(Redact(t, v, at), [s]) == Some(Shown(t, child, w));
      if |p| == 1 {
        assert p == [s];
      } else {
        assert p[..1] == [s];
        var q := p[1..];
        forall n | 0 < n < |q|
          ensures Get(child, q[..n]).None? || !Hides(t, w + q[..n], Get(child, q[..n]).value)
        {
          assert p[..n + 1] == [s] + q[..n] && ([s] + q[..n])[1..] == q[..n];
          assert at + p[..n + 1] == w + q[..n];
        }
        ShownAt(t, child, w, q);
        assert at + p == w + q;
      }
    }
  }

  /**
   * Every masked place shows the mask, and every value that is neither masked
   * nor within a masked one shows as it is stored; nothing is added or left
   * out beside it.
   */
  lemma MaskedExactly(t: Texts, v: Json, p: seq<Step>)
    requires Get(v, p).Some? && p != []
    ensures Hides(t, p, Get(v, p).value) ==> Get(Redact(t, v, []), p) == Some(MASK)
    ensures (forall n :: 0 < n <= |p| ==> !Secret(p[..n])) ==>
              match Get(v, p).value
              case Dict(f) => Get(Redact(t, v, []), p).Some? && Get(Redact(t, v, []), p).value.Dict?
                              && Get(Redact(t, v, []), p).value.fields.Keys == f.Keys
              case List(l) => Get(Redact(t, v, []), p).Some? && Get(Redact(t, v, []), p).value.List?
                              && |Get(Redact(t, v, []), p).value.items| == |l|
              case x => Get(Redact(t, v, []), p) == Some(x)
  {
    hide LeafSecret, HashSecret;
    var x := Get(v, p).value;
    assert p[..|p|] == p && [] + p == p;
    if Hides(t, p, x) {
      forall n | 0 < n < |p| ensures !Secret(p[..n]) {
        assert p[..n] + p[n..] == p;
        if Secret(p[..n]) {
          SecretsApart(p[..n], p[n..]);
        }
      }
    }
    if (Hides(t, p, x) || !Secret(p)) && forall n :: 0 < n < |p| ==> !Secret(p[..n]) {
      forall n | 0 < n < |p|
        ensures Get(v, p[..n]).None? || !Hides(t, [] + p[..n], Get(v, p[..n]).value)
      {
        assert [] + p[..n] == p[..n];
      }
      ShownAt(t, v, [], p);
      RedactKind(t, x, p);
    }
  }

  // ------------------------------------------------------------ keys

  lemma ContainsIs(s: string, part: string)
    ensures Contains(s, part) <==> exists a: string, b: string :: s == a + part + b
  {
    if Contains(s, part) {
      var i: nat :| i <= |s| && PartAt(s, part, i);
      assert s == s[..i] + part + s[i + |part|..];
    }
    if a: string, b: string :| s == a + part + b {
      assert PartAt(s, part, |a|);
    }
  }

  lemma EndsWithIs(s: string, part: string)
    ensures EndsWith(s, part) <==> exists a: string :: s == a + part
  {
    if EndsWith(s, part) {
      assert s == s[..|s| - |part|] + part;
    }
  }

  const WORDS: set<string> :=
    {"token", "salt", "hash", "webhook_ids", "webhook_id", "plextrakt", "jellyfintrakt", "embytrakt", "plexwatcher"}

  const PARTS: set<string> :=
    {"access_token", "refresh_token", "api_key", "apikey", "token_hash", "session_id", "auth_key", "authkey",
     "account_token", "pms_token", "home_pin", "device_code", "request_token", "password", "secret"}

  predicate HasPart(k: string) {
    exists part :: part in PARTS && Contains(k, part)
  }

  lemma Has(k: string, part: string, i: nat)
    requires part in PARTS && PartAt(k, part, i)
    ensures HasPart(k)
  {
  }

  /** Every key known by name is one of nine words, has a part or ends in a token. */
  lemma KnownKeys(k: string)
    requires k in EXACT_KEYS && k !in WORDS
    ensures EndsWith(k, "_token") || HasPart(k)
  {
    hide HasPart;
    if k in PARTS {
      Has(k, k, 0);
    } else if k == "client_secret" {
      Has(k, "secret", 7);
    } else {
      assert k == "_pending_request_token";
    }
  }

  /** A client secret is a secret. */
  lemma KnownParts(k: string)
    requires exists part :: part in KEY_PARTS && Contains(k, part)
    ensures HasPart(k)
  {
    var part :| part in KEY_PARTS && Contains(k, part);
    if part !in PARTS {
      assert part == "client_secret";
      var i: nat :| i <= |k| && PartAt(k, part, i);
      assert k[i + 7..i + 13] == k[i..i + 13][7..];
      Has(k, "secret", i + 7);
    }
  }

  lemma NoTokenEnd(k: string)
    requires k == "token_endpoint" || k == "token_url"
    ensures !EndsWith(k, "_token")
  {
    if EndsWith(k, "_token") { TokenEnd(k); }
  }

  /**
   * A key is sensitive if and only if it starts a profile, ends in _token, is
   * one of nine words or has one of fifteen parts in it: the exception for
   * token_url and token_endpoint excepts nothing.
   */
  lemma SensitiveKeys(k: string)
    ensures SensitiveKey(k) <==>
              || (exists x: string :: k == "profile:" + x)
              || (exists x: string :: k == x + "_token")
              || k in WORDS
              || (exists part: string, a: string, b: string :: part in PARTS && k == a + part + b)
  {
    assert WORDS <= EXACT_KEYS && PARTS <= KEY_PARTS;
    hide EXACT_KEYS, KEY_PARTS, WORDS, PARTS, Contains, EndsWith;
    assert "profile:" <= k <==> exists x: string :: k == "profile:" + x by {
      if "profile:" <= k { assert k == "profile:" + k[8..]; }
    }
    EndsWithIs(k, "_token");
    if k == "token_endpoint" || k == "token_url" { NoTokenEnd(k); }
    if k in EXACT_KEYS && k !in WORDS { KnownKeys(k); }
    if exists part :: part in KEY_PARTS && Contains(k, part) { KnownParts(k); }
    assert HasPart(k) <==> exists part: string, a: string, b: string :: part in PARTS && k == a + part + b by {
      forall part | part in PARTS
        ensures Contains(k, part) <==> exists a: string, b: string :: k == a + part + b
      {
        ContainsIs(k, part);
      }
    }
  }

  /** By its place a value is sensitive if and only if the path, blank parts left out, leads from the webhooks of the
      scheduling section to one of seven addresses. */
  lemma SensitivePaths(r: Rules, path: seq<string>)
    ensures SensitivePath(r, path) <==>
              exists mid: seq<string>, u: string :: IsAddress(u)
                && Filter(NotBlank(), Cleaned(r, path)) == ["scheduling", "webhooks"] + mid + [u]
  {
    CleanPathIs(r, path);
    hide CleanPath, Filter;
    var c := CleanPath(r, path);
    if SensitivePath(r, path) {
      var mid, u := c[2..|c| - 1], c[|c| - 1];
      assert IsAddress(u) && c == ["scheduling", "webhooks"] + mid + [u];
    }
    if mid: seq<string>, u: string :| IsAddress(u) && c == ["scheduling", "webhooks"] + mid + [u] {
      assert c[0] == "scheduling" && c[1] == "webhooks" && c[|c| - 1] == u;
    }
  }
}
