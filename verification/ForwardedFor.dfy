/**
 * The client address the login limiter keys on: behind a trusted peer the
 * X-Forwarded-For list is read from the right up to the first hop that decides.
 */
module ForwardedFor {
  import opened Numbers
  import opened Text

  /** Which characters are blank, which texts are addresses and which of those lie in a trusted
      network. The comma is not blank. */
  datatype Net = Net(blank: char -> bool, parses: string -> bool, trusted: string -> bool)

  predicate Trusted(net: Net, s: string) {
    net.parses(s) && net.trusted(s)
  }

  /** A hop that ends the search: not blank, and either no address or an untrusted one. */
  predicate Decides(net: Net, hop: string) {
    Strip(net.blank, hop) != "" && !Trusted(net, Strip(net.blank, hop))
  }

  function Verdict(net: Net, hop: string, peer: string): string {
    if net.parses(Strip(net.blank, hop)) then Strip(net.blank, hop) else peer
  }

  /** What the rightmost deciding hop says; the peer when none decides. */
  function Walk(net: Net, hops: seq<string>, peer: string): string {
    if hops == [] then peer
    else if Decides(net, hops[|hops| - 1]) then Verdict(net, hops[|hops| - 1], peer)
    else Walk(net, hops[..|hops| - 1], peer)
  }

  function Effective(net: Net, peer: string, header: string): string {
    if !Trusted(net, peer) then peer else Walk(net, Split(header, ','), peer)
  }

  /** The lookup as coded: the header is stripped as a whole first, then read hop by hop from the right. */
  method EffectiveClientIp(net: Net, peer: string, header: string) returns (ip: string)
    requires !net.blank(',')
    ensures ip == Effective(net, peer, header)
  {
    if !Trusted(net, peer) {
      return peer;
    }
    var xff := Strip(net.blank, header);
    StripKeepsWalk(net, header, peer);
    if xff == "" {
      return peer;
    }
    var hops := Split(xff, ',');
    var i := |hops|;
    assert hops[..|hops|] == hops;
    while i > 0
      invariant 0 <= i <= |hops|
      invariant Walk(net, hops, peer) == Walk(net, hops[..i], peer)
    {
      i := i - 1;
      assert hops[..i + 1][..i] == hops[..i];
      var cand := Strip(net.blank, hops[i]);
      if cand != "" {
        if !net.parses(cand) {
          return peer;
        }
        if !net.trusted(cand) {
          return cand;
        }
      }
    }
    ip := peer;
  }

  // ------------------------------------------------------------ splitting and stripping

  lemma {:induction false} WalkStripped(net: Net, h: seq<string>, k: seq<string>, peer: string)
    requires |h| == |k| && forall i :: 0 <= i < |h| ==> Strip(net.blank, h[i]) == Strip(net.blank, k[i])
    ensures Walk(net, h, peer) == Walk(net, k, peer)
  {
    if h != [] {
      WalkStripped(net, h[..|h| - 1], k[..|k| - 1], peer);
    }
  }

  lemma {:induction false} StripLeftWalk(net: Net, s: string, peer: string)
    requires !net.blank(',')
    ensures Walk(net, Split(StripLeft(net.blank, s), ','), peer) == Walk(net, Split(s, ','), peer)
  {
    if s != "" && net.blank(s[0]) {
      StripLeftWalk(net, s[1..], peer);
      var r := Split(s[1..], ',');
      StripFirst(net.blank, s[0], r[0]);
      WalkStripped(net, Split(s, ','), r, peer);
    }
  }

  lemma {:induction false} StripRightWalk(net: Net, s: string, peer: string)
    requires !net.blank(',')
    ensures Walk(net, Split(StripRight(net.blank, s), ','), peer) == Walk(net, Split(s, ','), peer)
  {
    if s != "" && net.blank(s[|s| - 1]) {
      var t, c := s[..|s| - 1], s[|s| - 1];
      StripRightWalk(net, t, peer);
      assert s == t + [c];
      SplitConcat(t, [c], ',');
      SplitOne(c, ',');
      hide Split;
      var h := Split(t, ',');
      StripLast(net.blank, h[|h| - 1], c);
      WalkStripped(net, Melt(h, [[c]]), h, peer);
    }
  }

  lemma StripKeepsWalk(net: Net, s: string, peer: string)
    requires !net.blank(',')
    ensures Walk(net, Split(Strip(net.blank, s), ','), peer) == Walk(net, Split(s, ','), peer)
    ensures Strip(net.blank, s) == "" ==> Walk(net, Split(s, ','), peer) == peer
  {
    StripLeftWalk(net, s, peer);
    StripRightWalk(net, StripLeft(net.blank, s), peer);
    assert Walk(net, [""], peer) == peer;
  }

  // ------------------------------------------------------------ what a client can influence

  predicate SomeDecides(net: Net, hops: seq<string>) {
    exists i :: 0 <= i < |hops| && Decides(net, hops[i])
  }

  lemma {:induction false} WalkConcat(net: Net, a: seq<string>, b: seq<string>, peer: string)
    ensures Walk(net, a + b, peer) == if SomeDecides(net, b) then Walk(net, b, peer) else Walk(net, a, peer)
  {
    if b == [] {
      assert a + b == a;
    } else {
      var front := b[..|b| - 1];
      assert (a + b)[..|a + b| - 1] == a + front;
      WalkConcat(net, a, front, peer);
      if Decides(net, b[|b| - 1]) {
      } else {
        assert SomeDecides(net, front) <==> SomeDecides(net, b);
      }
    }
  }

  lemma EntriesWalk(net: Net, peer: string, text: string, rest: string)
    requires Trusted(net, peer)
    ensures Effective(net, peer, text + "," + rest)
         == Effective(net, peer, if SomeDecides(net, Split(rest, ',')) then rest else text)
  {
    hide Split, Walk, Decides;
    SplitSep(text, rest, ',');
    WalkConcat(net, Split(text, ','), Split(rest, ','), peer);
  }

  lemma NoneDecides(net: Net, hops: seq<string>, peer: string)
    requires !SomeDecides(net, hops)
    ensures Walk(net, hops, peer) == peer
  {
    WalkConcat(net, [], hops, peer);
    assert [] + hops == hops;
  }

  /**
   * List entries a client puts in front of the part written by the proxies
   * never matter exactly when that part has a hop that decides. (The stranger
   * is any untrusted address other than the peer.)
   */
  lemma PrependedEntries(net: Net, peer: string, rest: string, stranger: string)
    requires Trusted(net, peer) && stranger != peer
    requires net.parses(stranger) && !net.trusted(stranger) && Strip(net.blank, stranger) == stranger
    requires stranger != "" && Split(stranger, ',') == [stranger]
    ensures (forall text :: Effective(net, peer, text + "," + rest) == Effective(net, peer, rest))
       <==> SomeDecides(net, Split(rest, ','))
  {
    hide Effective, SomeDecides, Split, Walk;
    if SomeDecides(net, Split(rest, ',')) {
      forall text: string ensures Effective(net, peer, text + "," + rest) == Effective(net, peer, rest) {
        EntriesWalk(net, peer, text, rest);
      }
    } else {
      EntriesWalk(net, peer, stranger, rest);
      assert Effective(net, peer, rest) == peer by { EffectiveNone(net, peer, rest); }
      assert Effective(net, peer, stranger) == stranger by { EffectiveOne(net, peer, stranger); }
    }
  }

  lemma EffectiveNone(net: Net, peer: string, rest: string)
    requires !SomeDecides(net, Split(rest, ','))
    ensures Effective(net, peer, rest) == peer
  {
    NoneDecides(net, Split(rest, ','), peer);
  }

  lemma EffectiveOne(net: Net, peer: string, hop: string)
    requires Trusted(net, peer) && Split(hop, ',') == [hop] && Decides(net, hop)
    ensures Effective(net, peer, hop) == Verdict(net, hop, peer)
  {
  }

  lemma TextWalk(net: Net, text: string, rest: string, peer: string)
    ensures var h, tail := Split(text, ','), Split(rest, ',')[1..];
            Walk(net, Split(text + rest, ','), peer) ==
            if SomeDecides(net, tail) then Walk(net, tail, peer)
            else Walk(net, h[..|h| - 1] + [h[|h| - 1] + Split(rest, ',')[0]], peer)
  {
    var h, r := Split(text, ','), Split(rest, ',');
    SplitConcat(text, rest, ',');
    WalkConcat(net, h[..|h| - 1] + [h[|h| - 1] + r[0]], r[1..], peer);
  }

  lemma RestWalk(net: Net, rest: string, peer: string)
    requires SomeDecides(net, Split(rest, ',')[1..])
    ensures Walk(net, Split(rest, ','), peer) == Walk(net, Split(rest, ',')[1..], peer)
  {
    var r := Split(rest, ',');
    WalkConcat(net, [r[0]], r[1..], peer);
    assert [r[0]] + r[1..] == r;
  }

  /**
   * Text put in front without a comma melts into the leftmost hop, so arbitrary
   * text never matters exactly when a later hop decides, provided the leftmost
   * one can be lengthened to some other untrusted address.
   */
  lemma PrependedText(net: Net, peer: string, rest: string, longer: string)
    requires Trusted(net, peer) && Split(longer, ',') == [longer]
    requires var other := longer + Split(rest, ',')[0];
             Decides(net, other) && Verdict(net, other, peer) != Effective(net, peer, rest)
    ensures (forall text :: Effective(net, peer, text + rest) == Effective(net, peer, rest))
       <==> SomeDecides(net, Split(rest, ',')[1..])
  {
    if SomeDecides(net, Split(rest, ',')[1..]) {
      RestWalk(net, rest, peer);
      forall text: string ensures Effective(net, peer, text + rest) == Effective(net, peer, rest) {
        TextWalk(net, text, rest, peer);
      }
    } else {
      TextWalk(net, longer, rest, peer);
      var other := longer + Split(rest, ',')[0];
      assert [longer][..0] + [other] == [other];
      assert Effective(net, peer, longer + rest) == Verdict(net, other, peer);
    }
  }

  // ------------------------------------------------------------ which address it is

  /** Hop i is not blank, and every hop to the right of it is blank or trusted. */
  predicate IsRightmost(net: Net, hops: seq<string>, i: nat)
    requires i < |hops|
  {
    Strip(net.blank, hops[i]) != ""
    && !(net.parses(Strip(net.blank, hops[i])) && net.trusted(Strip(net.blank, hops[i])))
    && forall k :: i < k < |hops| ==>
         Strip(net.blank, hops[k]) == ""
         || (net.parses(Strip(net.blank, hops[k])) && net.trusted(Strip(net.blank, hops[k])))
  }

  /** Behind a trusted peer the rightmost hop that is neither blank nor trusted decides: an address is the answer,
      anything else leaves the peer; without such a hop it is the peer. */
  lemma {:induction false} WalkAnswers(net: Net, hops: seq<string>, peer: string)
    ensures forall i: nat :: i < |hops| && IsRightmost(net, hops, i) ==>
              Walk(net, hops, peer)
              == if net.parses(Strip(net.blank, hops[i])) then Strip(net.blank, hops[i]) else peer
    ensures (forall i: nat :: i < |hops| ==> !IsRightmost(net, hops, i)) ==> Walk(net, hops, peer) == peer
  {
    if hops != [] {
      var n := |hops| - 1;
      var front := hops[..n];
      WalkAnswers(net, front, peer);
      hide Strip;
      if Decides(net, hops[n]) {
        assert IsRightmost(net, hops, n);
      } else {
        forall i: nat | i < n ensures IsRightmost(net, hops, i) <==> IsRightmost(net, front, i) {
          assert forall k :: 0 <= k < n ==> front[k] == hops[k];
        }
        assert !IsRightmost(net, hops, n);
      }
    }
  }

  /** An address other than the peer's is always that of an untrusted hop with only blank and trusted hops to its
      right, and every such hop of a trusted peer's header is the answer. */
  lemma AnswerIsHop(net: Net, peer: string, header: string, ip: string)
    requires ip != peer
    ensures Effective(net, peer, header) == ip <==>
              net.parses(peer) && net.trusted(peer)
              && exists i: nat | i < |Split(header, ',')| ::
                   IsRightmost(net, Split(header, ','), i) && Strip(net.blank, Split(header, ',')[i]) == ip
                   && net.parses(ip)
  {
    var hops := Split(header, ',');
    WalkAnswers(net, hops, peer);
    hide Split, Walk, IsRightmost, Strip;
    if net.parses(peer) && net.trusted(peer) && Walk(net, hops, peer) == ip {
      assert !(forall i: nat :: i < |hops| ==> !IsRightmost(net, hops, i));
      var i: nat :| i < |hops| && IsRightmost(net, hops, i);
    }
  }

  /**
   * The header matters exactly behind a trusted peer; an untrusted one is always
   * keyed by its own address. (The stranger is any untrusted address other than
   * the peer.)
   */
  lemma HeaderIgnored(net: Net, peer: string, stranger: string)
    requires stranger != peer && stranger != "" && Split(stranger, ',') == [stranger]
    requires net.parses(stranger) && !net.trusted(stranger) && Strip(net.blank, stranger) == stranger
    ensures (forall h, g :: Effective(net, peer, h) == Effective(net, peer, g))
       <==> !(net.parses(peer) && net.trusted(peer))
    ensures !(net.parses(peer) && net.trusted(peer)) ==> forall h :: Effective(net, peer, h) == peer
  {
    if Trusted(net, peer) {
      EffectiveOne(net, peer, stranger);
      assert Effective(net, peer, "") == peer by {
        assert !SomeDecides(net, Split("", ','));
        EffectiveNone(net, peer, "");
      }
    }
  }

  // ------------------------------------------------------------ an address that changes

  /** A number up to 255 without leading zeros. */
  predicate IsOctet(s: string) {
    IsDigits(s) && |s| <= 3 && Worth(s) <= 255 && (|s| > 1 ==> s[0] != '0')
  }

  /** That is, one of 0 to 255 as it is written. */
  lemma OctetIs(s: string)
    ensures IsOctet(s) <==> exists n: nat :: n <= 255 && s == Digits(n)
  {
    if IsOctet(s) {
      DigitsWritten(s);
    }
    if n: nat :| n <= 255 && s == Digits(n) {
      DigitsRead(n);
      assert |Digits(n / 10 / 10)| == 1 && |Digits(n / 10)| <= 2;
    }
  }

  /** Dotted decimal. */
  predicate IsIPv4(s: string) {
    var parts := Split(s, '.');
    |parts| == 4 && forall i :: 0 <= i < 4 ==> IsOctet(parts[i])
  }

  /** Addresses of version 4 behind one trusted proxy. */
  function ProxyNet(): Net {
    Net(c => c == ' ', s => IsIPv4(s), s => s == "10.0.0.1")
  }

  lemma DottedIsIPv4(a: string, b: string, c: string, d: string)
    requires IsOctet(a) && IsOctet(b) && IsOctet(c) && IsOctet(d)
    ensures IsIPv4(a + "." + b + "." + c + "." + d)
  {
    hide Worth;
    var parts := [a, b, c, d];
    assert Join([d], '.') == d;
    assert Join([c, d], '.') == c + "." + d;
    assert Join([b, c, d], '.') == b + "." + (c + "." + d);
    assert Join(parts, '.') == a + "." + (b + "." + (c + "." + d)) == a + "." + b + "." + c + "." + d;
    SplitJoin(parts, '.');
  }

  lemma SmallOctets()
    ensures IsOctet("0") && IsOctet("1") && IsOctet("2") && IsOctet("3") && IsOctet("4")
    ensures IsOctet("10") && IsOctet("11")
  {
    assert "10"[..1] == "1" && "11"[..1] == "1";
  }

  lemma SampleAddresses()
    ensures IsIPv4("1.2.3.4") && IsIPv4("11.2.3.4") && IsIPv4("10.0.0.1")
  {
    hide IsIPv4, IsOctet;
    SmallOctets();
    DottedIsIPv4("1", "2", "3", "4");
    DottedIsIPv4("11", "2", "3", "4");
    DottedIsIPv4("10", "0", "0", "1");
    assert "1" + "." + "2" + "." + "3" + "." + "4" == "1.2.3.4";
    assert "11" + "." + "2" + "." + "3" + "." + "4" == "11.2.3.4";
    assert "10" + "." + "0" + "." + "0" + "." + "1" == "10.0.0.1";
  }

  lemma OneHop(hop: string)
    requires ',' !in hop && hop != "" && hop[0] != ' ' && hop[|hop| - 1] != ' '
    requires IsIPv4(hop) && hop != "10.0.0.1" && IsIPv4("10.0.0.1")
    ensures Decides(ProxyNet(), hop) && Effective(ProxyNet(), "10.0.0.1", hop) == hop
  {
    hide IsIPv4;
    SplitPlain(hop, ',');
    assert Strip(ProxyNet().blank, hop) == hop;
    EffectiveOne(ProxyNet(), "10.0.0.1", hop);
  }

  /** With only a leftmost deciding hop, such text does change the chosen address. */
  lemma LeftmostHopCanChange()
    ensures Decides(ProxyNet(), "1.2.3.4")
    ensures Effective(ProxyNet(), "10.0.0.1", "1.2.3.4") == "1.2.3.4"
    ensures Effective(ProxyNet(), "10.0.0.1", "1" + "1.2.3.4") == "11.2.3.4"
  {
    SampleAddresses();
    hide IsIPv4, Effective, Decides;
    OneHop("1.2.3.4");
    OneHop("11.2.3.4");
    assert "1" + "1.2.3.4" == "11.2.3.4";
  }
}
