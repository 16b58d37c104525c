/** Splitting text at a separator, and joining it again. */
module Text {

  /** The pieces between separators; never empty. */
  function Split(s: string, sep: char): (r: seq<string>)
    ensures r != []
  {
    if s == "" then [""] else ConsPiece(s[0], Split(s[1..], sep), sep)
  }

  function ConsPiece(c: char, r: seq<string>, sep: char): seq<string>
    requires r != []
  {
    if c == sep then [""] + r else [[c] + r[0]] + r[1..]
  }

  /** Two lists of pieces put next to each other without a separator: the pieces that meet melt into one. */
  function Melt(h: seq<string>, r: seq<string>): seq<string>
    requires h != [] && r != []
  {
    h[..|h| - 1] + [h[|h| - 1] + r[0]] + r[1..]
  }

  function Join(pieces: seq<string>, sep: char): string {
    if pieces == [] then ""
    else if |pieces| == 1 then pieces[0]
    else pieces[0] + [sep] + Join(pieces[1..], sep)
  }

  lemma SplitCons(c: char, s: string, sep: char)
    ensures Split([c] + s, sep) == ConsPiece(c, Split(s, sep), sep)
  {
    assert ([c] + s)[1..] == s;
  }

  lemma SplitOne(c: char, sep: char)
    requires c != sep
    ensures Split([c], sep) == [[c]]
  {
    SplitCons(c, "", sep);
    assert [c] + "" == [c];
  }

  lemma {:induction false} SplitPlain(s: string, sep: char)
    requires sep !in s
    ensures Split(s, sep) == [s]
  {
    if s != "" {
      SplitPlain(s[1..], sep);
      assert s == [s[0]] + s[1..];
    }
  }

  lemma MeltCons(c: char, h: seq<string>, r: seq<string>, sep: char)
    requires h != [] && r != []
    ensures Melt(ConsPiece(c, h, sep), r) == ConsPiece(c, Melt(h, r), sep)
  {
    var glued := Melt(h, r);
    if c == sep {
      assert Melt([""] + h, r) == [""] + glued;
    } else if |h| == 1 {
      assert ([c] + h[0]) + r[0] == [c] + (h[0] + r[0]);
      assert glued[1..] == r[1..];
    } else {
      assert Melt([[c] + h[0]] + h[1..], r) == [[c] + glued[0]] + glued[1..];
    }
  }

  lemma {:induction false} SplitConcat(a: string, b: string, sep: char)
    ensures Split(a + b, sep) == Melt(Split(a, sep), Split(b, sep))
  {
    if a == "" {
      assert a + b == b;
      var r := Split(b, sep);
      assert "" + r[0] == r[0];
    } else {
      var c, t := a[0], a[1..];
      assert a == [c] + t && a + b == [c] + (t + b);
      SplitConcat(t, b, sep);
      SplitCons(c, t, sep);
      SplitCons(c, t + b, sep);
      MeltCons(c, Split(t, sep), Split(b, sep), sep);
    }
  }

  lemma MeltBlank(h: seq<string>, r: seq<string>)
    requires h != []
    ensures Melt(h, [""] + r) == h + r
  {
    assert h[|h| - 1] + "" == h[|h| - 1];
    assert ([""] + r)[1..] == r;
  }

  lemma SplitSep(a: string, b: string, sep: char)
    ensures Split(a + [sep] + b, sep) == Split(a, sep) + Split(b, sep)
  {
    assert a + [sep] + b == a + ([sep] + b);
    SplitConcat(a, [sep] + b, sep);
    SplitCons(sep, b, sep);
    hide Split, Melt;
    MeltBlank(Split(a, sep), Split(b, sep));
  }

  /** All pieces are empty exactly when the text is separators only. */
  lemma {:induction false} SplitBlank(s: string, sep: char)
    ensures (forall p :: p in Split(s, sep) ==> p == "") <==> (forall c :: c in s ==> c == sep)
  {
    if s != "" {
      SplitBlank(s[1..], sep);
      var r := Split(s[1..], sep);
      assert forall c :: c in s <==> c == s[0] || c in s[1..];
      if s[0] == sep {
        assert forall p :: p in [""] + r <==> p == "" || p in r;
      } else {
        assert Split(s, sep)[0] in Split(s, sep) && s[0] in s;
      }
    }
  }

  /** Splitting undoes joining when no piece holds the separator. */
  lemma {:induction false} SplitJoin(pieces: seq<string>, sep: char)
    requires pieces != [] && forall p :: p in pieces ==> sep !in p
    ensures Split(Join(pieces, sep), sep) == pieces
  {
    SplitPlain(pieces[0], sep);
    if |pieces| > 1 {
      SplitJoin(pieces[1..], sep);
      SplitSep(pieces[0], Join(pieces[1..], sep), sep);
    }
  }

  // ------------------------------------------------------------ stripping

  function StripLeft(blank: char -> bool, s: string): string {
    if s != "" && blank(s[0]) then StripLeft(blank, s[1..]) else s
  }

  function StripRight(blank: char -> bool, s: string): string {
    if s != "" && blank(s[|s| - 1]) then StripRight(blank, s[..|s| - 1]) else s
  }

  function Strip(blank: char -> bool, s: string): string {
    StripRight(blank, StripLeft(blank, s))
  }

  lemma StripFirst(blank: char -> bool, c: char, s: string)
    requires blank(c)
    ensures Strip(blank, [c] + s) == Strip(blank, s)
  {
    assert ([c] + s)[1..] == s;
  }

  lemma {:induction false} StripLast(blank: char -> bool, s: string, c: char)
    requires blank(c)
    ensures Strip(blank, s + [c]) == Strip(blank, s)
  {
    if s == "" {
      assert s + [c] == [c];
      assert [c][1..] == "";
    } else if blank(s[0]) {
      assert (s + [c])[1..] == s[1..] + [c];
      StripLast(blank, s[1..], c);
    } else {
      assert (s + [c])[..|s|] == s;
    }
  }

  lemma {:induction false} StripLeftEnd(blank: char -> bool, s: string)
    ensures var r := StripLeft(blank, s); r != "" ==> !blank(r[0])
  {
    if s != "" && blank(s[0]) {
      StripLeftEnd(blank, s[1..]);
    }
  }

  lemma {:induction false} StripRightEnds(blank: char -> bool, s: string)
    ensures var r := StripRight(blank, s);
            r != "" ==> !blank(r[|r| - 1]) && r[0] == s[0]
  {
    if s != "" && blank(s[|s| - 1]) {
      StripRightEnds(blank, s[..|s| - 1]);
    }
  }

  lemma StripTwice(blank: char -> bool, s: string)
    ensures Strip(blank, Strip(blank, s)) == Strip(blank, s)
  {
    StripLeftEnd(blank, s);
    StripRightEnds(blank, StripLeft(blank, s));
  }

  predicate AllBlank(blank: char -> bool, s: string) {
    forall i :: 0 <= i < |s| ==> blank(s[i])
  }

  lemma {:induction false} StripLeftCuts(blank: char -> bool, s: string) returns (n: nat)
    ensures n <= |s| && s[n..] == StripLeft(blank, s) && AllBlank(blank, s[..n])
  {
    n := 0;
    if s != "" && blank(s[0]) {
      n := StripLeftCuts(blank, s[1..]);
      assert s[n + 1..] == s[1..][n..] && s[..n + 1] == [s[0]] + s[1..][..n];
      n := n + 1;
    }
  }

  lemma {:induction false} StripRightCuts(blank: char -> bool, s: string) returns (n: nat)
    ensures n <= |s| && s[..n] == StripRight(blank, s) && AllBlank(blank, s[n..])
  {
    n := |s|;
    if s != "" && blank(s[|s| - 1]) {
      var t := s[..|s| - 1];
      n := StripRightCuts(blank, t);
      assert s[..n] == t[..n] && s[n..] == t[n..] + [s[|s| - 1]];
    }
  }

  /** Stripping takes blanks off both ends, and all of them. */
  lemma StripIs(blank: char -> bool, s: string) returns (m: nat, n: nat)
    ensures m <= n <= |s| && s[m..n] == Strip(blank, s) && AllBlank(blank, s[..m]) && AllBlank(blank, s[n..])
    ensures var r := Strip(blank, s); r != "" ==> !blank(r[0]) && !blank(r[|r| - 1])
  {
    m := StripLeftCuts(blank, s);
    var left := StripLeft(blank, s);
    n := StripRightCuts(blank, left);
    StripLeftEnd(blank, s);
    StripRightEnds(blank, left);
    hide StripLeft, StripRight, AllBlank;
    assert s[m..m + n] == left[..n] && s[m + n..] == left[n..];
    n := m + n;
  }
}
