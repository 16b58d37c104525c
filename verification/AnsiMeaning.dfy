/**
 * What an escape sequence means, without the compiler's table: each attribute of
 * a character is set by the last code before it that concerns that attribute.
 */
module AnsiMeaning {
  import opened AnsiHtml
  import opened Sequences
  import opened Text

  // ------------------------------------------------------------ codes

  /** 30 to 37 and 90 to 97. */
  predicate IsForeground(c: string) {
    |c| == 2 && c[0] in {'3', '9'} && '0' <= c[1] <= '7'
  }

  /** 40 to 47 and 100 to 107. */
  predicate IsBackground(c: string) {
    (|c| == 2 && c[0] == '4' && '0' <= c[1] <= '7') || (|c| == 3 && c[0] == '1' && c[1] == '0' && '0' <= c[2] <= '7')
  }

  lemma Foregrounds(c: string)
    ensures c in FG_CODES <==> IsForeground(c)
  {
    if IsForeground(c) {
      assert c == "30" || c == "31" || c == "32" || c == "33" || c == "34" || c == "35" || c == "36"
           || c == "37" || c == "90" || c == "91" || c == "92" || c == "93" || c == "94"
           || c == "95" || c == "96" || c == "97";
    }
  }

  lemma Backgrounds(c: string)
    ensures c in BG_CODES <==> IsBackground(c)
  {
    if IsBackground(c) {
      assert c == "40" || c == "41" || c == "42" || c == "43" || c == "44" || c == "45" || c == "46"
           || c == "47" || c == "100" || c == "101" || c == "102" || c == "103" || c == "104"
           || c == "105" || c == "106" || c == "107";
    }
  }

  predicate ForBold(c: string) {
    c in {"0", "1", "22"}
  }

  predicate ForUnderline(c: string) {
    c in {"0", "4", "24"}
  }

  predicate ForForeground(c: string) {
    c in {"0", "39"} || IsForeground(c)
  }

  predicate ForBackground(c: string) {
    c in {"0", "49"} || IsBackground(c)
  }

  /** The last code of the list of that sort. */
  function Last(cs: seq<string>, sort: string -> bool): Option<string> {
    if cs == [] then None
    else if sort(cs[|cs| - 1]) then Some(cs[|cs| - 1])
    else Last(cs[..|cs| - 1], sort)
  }

  /** The style after the codes, on top of was: for each attribute the last code that concerns it decides. */
  function After(was: Style, cs: seq<string>): Style {
    Style(
      match Last(cs, ForBold) case None => was.b case Some(c) => c == "1",
      match Last(cs, ForUnderline) case None => was.u case Some(c) => c == "4",
      match Last(cs, ForForeground) case None => was.fg case Some(c) => if IsForeground(c) then Some(c) else None,
      match Last(cs, ForBackground) case None => was.bg case Some(c) => if IsBackground(c) then Some(c) else None)
  }

  lemma {:induction false} ApplySnoc(st: Style, cs: seq<string>, c: string)
    ensures ApplyCodes(st, cs + [c]) == ApplyCode(ApplyCodes(st, cs), c)
    decreases |cs|
  {
    if cs == [] {
      assert cs + [c] == [c];
    } else {
      assert (cs + [c])[1..] == cs[1..] + [c];
      ApplySnoc(ApplyCode(st, cs[0]), cs[1..], c);
    }
  }

  /** One more code. */
  lemma OneCode(st: Style, was: Style, cs: seq<string>, c: string)
    requires cs != [] && cs[|cs| - 1] == c && st == After(was, cs[..|cs| - 1])
    ensures ApplyCode(st, c) == After(was, cs)
  {
    Foregrounds(c);
    Backgrounds(c);
    hide FG_CODES, BG_CODES;
  }

  /** The fold over the codes of an escape is that last-writer style. */
  lemma {:induction false} LastWriterWins(was: Style, cs: seq<string>)
    ensures ApplyCodes(was, cs) == After(was, cs)
  {
    if cs != [] {
      var front, c := cs[..|cs| - 1], cs[|cs| - 1];
      LastWriterWins(was, front);
      ApplySnoc(was, front, c);
      assert front + [c] == cs;
      hide After, ApplyCode, ApplyCodes;
      OneCode(ApplyCodes(was, front), was, cs, c);
    }
  }

  lemma {:induction false} ApplyConcat(st: Style, a: seq<string>, b: seq<string>)
    ensures ApplyCodes(st, a + b) == ApplyCodes(ApplyCodes(st, a), b)
    decreases |a|
  {
    if a == [] {
      assert a + b == b;
    } else {
      assert (a + b)[1..] == a[1..] + b;
      ApplyConcat(ApplyCode(st, a[0]), a[1..], b);
    }
  }

  // ------------------------------------------------------------ escapes

  predicate IsParamText(p: string) {
    forall i :: 0 <= i < |p| ==> '0' <= p[i] <= '9' || p[i] == ';'
  }

  lemma {:induction false} ParamLenIs(p: string, r: string)
    requires IsParamText(p) && (r != "" ==> !IsParam(r[0]))
    ensures ParamLen(p + r) == |p|
  {
    if p == "" {
      assert p + r == r;
    } else {
      assert (p + r)[1..] == p[1..] + r;
      ParamLenIs(p[1..], r);
    }
  }

  lemma {:induction false} ParamLenPlain(s: string)
    ensures IsParamText(s[..ParamLen(s)])
  {
    if s != "" && IsParam(s[0]) {
      ParamLenPlain(s[1..]);
      assert s[..ParamLen(s)] == [s[0]] + s[1..][..ParamLen(s[1..])];
    }
  }

  /** A text starts with an escape of parameters p exactly when it starts with ESC [ p m, and the rest follows. */
  lemma EscapeShape(s: string, p: string)
    ensures Escape(s) == Some(p) <==> IsParamText(p) && StartsWith(s, [ESC] + "[" + p + "m")
    ensures Escape(s) == Some(p) ==> s == [ESC] + "[" + p + "m" + Rest(s)
  {
    var head := [ESC] + "[" + p + "m";
    if Escape(s) == Some(p) {
      ParamLenPlain(s[2..]);
      assert s[2..][..ParamLen(s[2..])] == p;
      assert s[..|head|] == head;
      assert s == s[..|head|] + s[|head|..];
    }
    if IsParamText(p) && StartsWith(s, head) {
      assert s[..|head|] == head;
      var r := s[2 + |p|..];
      assert head[0] == ESC && head[1] == '[' && head[|p| + 2] == 'm' && head[2..|p| + 2] == p;
      assert s[0] == head[0] && s[1] == head[1] && s[|p| + 2] == head[|p| + 2];
      assert s[2..|p| + 2] == s[..|head|][2..|p| + 2];
      assert s[2..] == p + r && r[0] == 'm';
      ParamLenIs(p, r);
    }
  }

  /** The codes are the pieces between semicolons that are not empty. */
  lemma CodesOf(a: string, b: string)
    ensures ';' !in a ==> Codes(a) == if a == "" then [] else [a]
    ensures Codes(a + ";" + b) == Codes(a) + Codes(b)
  {
    SplitSep(a, b, ';');
    FilterConcat(NonEmpty(), Split(a, ';'), Split(b, ';'));
    if ';' !in a {
      SplitPlain(a, ';');
      FilterCons(NonEmpty(), a, []);
      assert [a] + [] == [a];
    }
  }

  // ------------------------------------------------------------ lines

  /** The characters of a line, each in the style that all codes before it leave. */
  function Meaning(s: string, codes: seq<string>): seq<(char, Style)>
    decreases |s|
  {
    if s == "" then []
    else if Escape(s).Some? then Meaning(Rest(s), codes + Codes(Escape(s).value))
    else [(s[0], After(PLAIN, codes))] + Meaning(s[1..], codes)
  }

  lemma {:induction false} StyledIsMeaning(s: string, codes: seq<string>)
    ensures Styled(s, ApplyCodes(PLAIN, codes)) == Meaning(s, codes)
    decreases |s|
  {
    if s == "" {
    } else if Escape(s).Some? {
      ApplyConcat(PLAIN, codes, Codes(Escape(s).value));
      StyledIsMeaning(Rest(s), codes + Codes(Escape(s).value));
    } else {
      LastWriterWins(PLAIN, codes);
      StyledIsMeaning(s[1..], codes);
    }
  }

  /**
   * The HTML of a line reads back as its characters without the escapes, each
   * in the style of the last codes before it.
   */
  lemma HtmlMeansLine(line: string)
    ensures Parse(Html(line, PLAIN), None) == Some(Meaning(line, []))
  {
    AnsiToHtmlMeans(line);
    StyledIsMeaning(line, []);
  }

  /** The class names of a style are those the style sheet has. */
  lemma ClassNames(st: Style, c: string)
    ensures c in Classes(st) <==>
              (c == "b" && st.b) || (c == "u" && st.u) || (st.fg.Some? && c == "c" + st.fg.value)
              || (st.bg.Some? && c == "bg" + st.bg.value)
  {
  }
}
