/**
 * The compiler from SGR escapes (section 8.3.117 of ECMA-48) to spans, an
 * independent reading of the lines it takes and of the HTML it writes, and the
 * proof that both readings agree character by character.
 */
module AnsiHtml {
  import opened Sequences
  import opened Text

  const ESC := '\U{1B}'

  const FG_CODES: set<string> :=
    {"30", "31", "32", "33", "34", "35", "36", "37", "90", "91", "92", "93", "94", "95", "96", "97"}

  const BG_CODES: set<string> :=
    {"40", "41", "42", "43", "44", "45", "46", "47", "100", "101", "102", "103", "104", "105", "106", "107"}

  /** The text attributes in force. */
  datatype Style = Style(b: bool, u: bool, fg: Option<string>, bg: Option<string>)

  const PLAIN := Style(false, false, None, None)

  predicate StyleOk(st: Style) {
    (st.fg.Some? ==> st.fg.value in FG_CODES) && (st.bg.Some? ==> st.bg.value in BG_CODES)
  }

  // ------------------------------------------------------------ reading a line

  predicate IsParam(c: char) {
    '0' <= c <= '9' || c == ';'
  }

  function ParamLen(s: string): (n: nat)
    ensures n <= |s|
  {
    if s != "" && IsParam(s[0]) then 1 + ParamLen(s[1..]) else 0
  }

  /** The parameter text of an escape at the start of s, if there is one. */
  function Escape(s: string): (r: Option<string>)
    ensures r.Some? ==> |r.value| + 3 <= |s|
  {
    if |s| < 2 || s[0] != ESC || s[1] != '[' then None
    else
      var n := ParamLen(s[2..]);
      if 2 + n < |s| && s[2 + n] == 'm' then Some(s[2..2 + n]) else None
  }

  function Rest(s: string): string
    requires Escape(s).Some?
  {
    s[|Escape(s).value| + 3..]
  }

  function NonEmpty(): string -> bool {
    (c: string) => c != ""
  }

  function Codes(params: string): seq<string> {
    Filter(NonEmpty(), Split(params, ';'))
  }

  function ApplyCode(st: Style, c: string): Style {
    if c == "0" then PLAIN
    else if c == "1" then st.(b := true)
    else if c == "22" then st.(b := false)
    else if c == "4" then st.(u := true)
    else if c == "24" then st.(u := false)
    else if c in FG_CODES then st.(fg := Some(c))
    else if c == "39" then st.(fg := None)
    else if c in BG_CODES then st.(bg := Some(c))
    else if c == "49" then st.(bg := None)
    else st
  }

  function ApplyCodes(st: Style, codes: seq<string>): Style
    decreases |codes|
  {
    if codes == [] then st else ApplyCodes(ApplyCode(st, codes[0]), codes[1..])
  }

  /** The line without its escapes. */
  function StripAnsi(s: string): string
    decreases |s|
  {
    if s == "" then ""
    else if Escape(s).Some? then StripAnsi(Rest(s))
    else [s[0]] + StripAnsi(s[1..])
  }

  /** What the line means: its characters, each with the style that the escapes before it add up to. */
  function Styled(s: string, st: Style): seq<(char, Style)>
    decreases |s|
  {
    if s == "" then []
    else if Escape(s).Some? then Styled(Rest(s), ApplyCodes(st, Codes(Escape(s).value)))
    else [(s[0], st)] + Styled(s[1..], st)
  }

  function Chars(l: seq<(char, Style)>): string {
    seq(|l|, i requires 0 <= i < |l| => l[i].0)
  }

  lemma {:induction false} StyledChars(s: string, st: Style)
    ensures Chars(Styled(s, st)) == StripAnsi(s)
    decreases |s|
  {
    if s == "" {
    } else if Escape(s).Some? {
      StyledChars(Rest(s), ApplyCodes(st, Codes(Escape(s).value)));
    } else {
      StyledChars(s[1..], st);
      assert Chars(Styled(s, st)) == [s[0]] + Chars(Styled(s[1..], st));
    }
  }

  // ------------------------------------------------------------ writing HTML

  const CLOSE := "</span>"
  const OPEN := "<span class="

  function EscapeChar(c: char): string {
    if c == '&' then "&amp;" else if c == '<' then "&lt;" else if c == '>' then "&gt;" else [c]
  }

  function EscapeAll(s: string): string {
    if s == "" then "" else EscapeChar(s[0]) + EscapeAll(s[1..])
  }

  /** str.replace for a one-character pattern. */
  function Replace(s: string, c: char, repl: string): string {
    if s == "" then "" else (if s[0] == c then repl else [s[0]]) + Replace(s[1..], c, repl)
  }

  function EscapeHtml(s: string): string {
    Replace(Replace(Replace(s, '&', "&amp;"), '<', "&lt;"), '>', "&gt;")
  }

  function Classes(st: Style): seq<string> {
    (if st.b then ["b"] else []) + (if st.u then ["u"] else [])
    + (if st.fg.Some? then ["c" + st.fg.value] else []) + (if st.bg.Some? then ["bg" + st.bg.value] else [])
  }

  function OpenTag(st: Style): string {
    OPEN + "\"" + Join(Classes(st), ' ') + "\">"
  }

  function Closing(st: Style): string {
    if st == PLAIN then "" else CLOSE
  }

  function Opening(st: Style): string {
    if st == PLAIN then "" else OpenTag(st)
  }

  /** What an escape with these codes writes. */
  function Switch(st: Style, codes: seq<string>): string {
    if codes == [] then "" else Closing(st) + Opening(ApplyCodes(st, codes))
  }

  /** The HTML for the rest of a line, in style st; a span is open exactly when st is not plain. */
  function Html(s: string, st: Style): string
    decreases |s|
  {
    if s == "" then Closing(st)
    else if Escape(s).Some? then
      var codes := Codes(Escape(s).value);
      Switch(st, codes) + Html(Rest(s), ApplyCodes(st, codes))
    else EscapeChar(s[0]) + Html(s[1..], st)
  }

  /** Position of the next escape at or after the start of s; |s| when there is none. */
  function NextEscape(s: string): (n: nat)
    ensures n <= |s|
    ensures n < |s| ==> Escape(s[n..]).Some?
  {
    if s == "" || Escape(s).Some? then 0 else 1 + NextEscape(s[1..])
  }

  lemma {:induction false} ReplaceConcat(a: string, b: string, c: char, repl: string)
    ensures Replace(a + b, c, repl) == Replace(a, c, repl) + Replace(b, c, repl)
  {
    if a == "" {
      assert a + b == b;
    } else {
      assert (a + b)[1..] == a[1..] + b;
      ReplaceConcat(a[1..], b, c, repl);
    }
  }

  lemma ReplaceChar(x: char, c: char, repl: string)
    ensures Replace([x], c, repl) == if x == c then repl else [x]
  {
    assert [x][1..] == "";
    assert Replace([x], c, repl) == (if x == c then repl else [x]) + "";
  }

  lemma {:induction false} ReplaceNone(s: string, c: char, repl: string)
    requires c !in s
    ensures Replace(s, c, repl) == s
  {
    if s != "" {
      ReplaceNone(s[1..], c, repl);
    }
  }

  lemma EscapeHtmlChar(x: char)
    ensures EscapeHtml([x]) == EscapeChar(x)
  {
    ReplaceChar(x, '&', "&amp;");
    ReplaceChar(x, '<', "&lt;");
    ReplaceChar(x, '>', "&gt;");
    ReplaceNone("&amp;", '<', "&lt;");
    ReplaceNone("&amp;", '>', "&gt;");
    ReplaceNone("&lt;", '>', "&gt;");
  }

  /** The three replacements in a row escape character by character. */
  lemma {:induction false} EscapeHtmlIsEscapeAll(s: string)
    ensures EscapeHtml(s) == EscapeAll(s)
  {
    if s != "" {
      var x, t := [s[0]], s[1..];
      assert s == x + t;
      EscapeHtmlIsEscapeAll(t);
      EscapeHtmlChar(s[0]);
      ReplaceConcat(x, t, '&', "&amp;");
      ReplaceConcat(Replace(x, '&', "&amp;"), Replace(t, '&', "&amp;"), '<', "&lt;");
      ReplaceConcat(Replace(Replace(x, '&', "&amp;"), '<', "&lt;"),
                    Replace(Replace(t, '&', "&amp;"), '<', "&lt;"), '>', "&gt;");
    }
  }

  lemma HtmlCons(s: string, st: Style)
    requires NextEscape(s) > 0
    ensures s != "" && NextEscape(s) == 1 + NextEscape(s[1..])
    ensures Html(s, st) == EscapeChar(s[0]) + Html(s[1..], st)
  {
    hide Escape;
  }

  lemma HtmlAtEscape(s: string, st: Style)
    requires s != "" && NextEscape(s) == 0
    ensures Escape(s).Some?
    ensures var codes := Codes(Escape(s).value);
            Html(s, st) == Switch(st, codes) + Html(Rest(s), ApplyCodes(st, codes))
  {
    hide Escape;
  }

  lemma EscapeAllCons(c: char, s: string)
    ensures EscapeAll([c] + s) == EscapeChar(c) + EscapeAll(s)
  {
    assert ([c] + s)[1..] == s;
  }

  lemma {:induction false} HtmlText(s: string, st: Style)
    ensures var n := NextEscape(s);
            Html(s, st) == EscapeAll(s[..n]) + Html(s[n..], st)
  {
    hide Html, NextEscape, EscapeChar;
    var n := NextEscape(s);
    if n == 0 {
      assert s[0..] == s && s[..0] == "";
    } else {
      HtmlCons(s, st);
      var t := s[1..];
      HtmlText(t, st);
      assert s[..n] == [s[0]] + t[..n - 1] && t[n - 1..] == s[n..];
      EscapeAllCons(s[0], t[..n - 1]);
      hide *;
      Regroup(EscapeChar(s[0]), EscapeAll(t[..n - 1]), Html(s[n..], st));
    }
  }

  lemma Regroup(a: string, b: string, c: string)
    ensures a + (b + c) == (a + b) + c
  {
  }

  lemma {:induction false} NoEscapeBefore(s: string)
    ensures NextEscape(s[NextEscape(s)..]) == 0
  {
    var n := NextEscape(s);
    if n == 0 {
      assert s[0..] == s;
    } else {
      NoEscapeBefore(s[1..]);
      assert s[1..][n - 1..] == s[n..];
    }
  }

  /** Folding an escape's codes into the style. */
  method Fold(state: Style, codes: seq<string>) returns (r: Style)
    ensures r == ApplyCodes(state, codes)
  {
    r := state;
    var i := 0;
    while i < |codes|
      invariant 0 <= i <= |codes|
      invariant ApplyCodes(state, codes) == ApplyCodes(r, codes[i..])
    {
      r := ApplyCode(r, codes[i]);
      i := i + 1;
    }
  }

  /** What the HTML of the rest owes to its text up to the next escape, and to that escape. */
  lemma HtmlFrom(line: string, pos: nat, start: nat, next: nat, st: Style)
    requires pos <= start <= |line| && start == pos + NextEscape(line[pos..])
    requires if start < |line| then next == start + |Escape(line[start..]).value| + 3 else next == |line|
    ensures next <= |line|
    ensures start < |line| ==>
              var codes := Codes(Escape(line[start..]).value);
              Html(line[pos..], st)
              == EscapeHtml(line[pos..start]) + Switch(st, codes) + Html(line[next..], ApplyCodes(st, codes))
    ensures start == |line| ==> Html(line[pos..], st) == EscapeHtml(line[pos..]) + Closing(st)
  {
    hide Html, EscapeHtml, NextEscape, Codes, ApplyCodes, Switch, EscapeAll, Escape;
    var rest := line[pos..];
    var n := NextEscape(rest);
    HtmlText(rest, st);
    NoEscapeBefore(rest);
    EscapeHtmlIsEscapeAll(line[pos..start]);
    assert rest[n..] == line[start..] && rest[..n] == line[pos..start];
    if start < |line| {
      HtmlAtEscape(line[start..], st);
      assert Rest(line[start..]) == line[next..];
      var codes := Codes(Escape(line[start..]).value);
      var text, tail := EscapeHtml(line[pos..start]), Html(line[next..], ApplyCodes(st, codes));
      assert text + (Switch(st, codes) + tail) == text + Switch(st, codes) + tail;
    } else {
      assert line[pos..start] == line[pos..];
      HtmlEnd(line[start..], st);
    }
  }

  lemma HtmlEnd(s: string, st: Style)
    requires s == ""
    ensures Html(s, st) == Closing(st)
  {
  }

  /** Closing the open span, if any, and opening one for the new style, unless it is plain. */
  method Respan(sofar: string, ghost was: Style, state: Style, wasOpen: bool) returns (out: string, spanOpen: bool)
    requires wasOpen <==> was != PLAIN
    ensures out == sofar + (Closing(was) + Opening(state))
    ensures spanOpen <==> state != PLAIN
  {
    hide OpenTag;
    out, spanOpen := sofar, wasOpen;
    if spanOpen {
      out := out + CLOSE;
      spanOpen := false;
    }
    if Classes(state) != [] {
      out := out + OpenTag(state);
      spanOpen := true;
    }
  }

  method AppendText(sofar: string, text: string) returns (out: string)
    ensures out == sofar + EscapeHtml(text)
  {
    if text != "" {
      out := sofar + EscapeHtml(text);
    } else {
      EmptyText(text);
      out := sofar;
    }
  }

  /** One turn of the loop: the text before the escape at start, then the escape. */
  method OneEscape(sofar: string, line: string, pos: nat, start: nat, state: Style, spanOpen: bool)
    returns (out: string, next: nat, state': Style, spanOpen': bool)
    requires pos <= start < |line| && start == pos + NextEscape(line[pos..])
    requires spanOpen <==> state != PLAIN
    ensures start < next <= |line| && (spanOpen' <==> state' != PLAIN)
    ensures sofar + Html(line[pos..], state) == out + Html(line[next..], state')
  {
    hide Html, EscapeHtml, NextEscape, Codes, ApplyCodes, Escape, Opening, Closing;
    var params := Escape(line[start..]).value;
    next := start + |params| + 3;
    HtmlFrom(line, pos, start, next, state);
    ghost var text := EscapeHtml(line[pos..start]);
    out := AppendText(sofar, line[pos..start]);
    var codes := Codes(params);
    state', spanOpen' := state, spanOpen;
    if codes != [] {
      state' := Fold(state, codes);
      out, spanOpen' := Respan(out, state, state', spanOpen);
    } else {
      NoCodes(state);
    }
    assert out == sofar + text + Switch(state, codes);
    assert sofar + (text + Switch(state, codes) + Html(line[next..], state')) == out + Html(line[next..], state');
  }

  /** The translation as coded: one pass over the escapes with a style, a flag and a position. */
  method AnsiToHtml(line: string) returns (out: string)
    ensures out == Html(line, PLAIN)
  {
    hide Html, EscapeHtml, NextEscape, Escape;
    out := "";
    var pos, state, spanOpen := 0, PLAIN, false;
    assert line[0..] == line;
    var start := NextEscape(line);
    while start < |line|
      invariant pos <= start <= |line| && start == pos + NextEscape(line[pos..])
      invariant spanOpen <==> state != PLAIN
      invariant Html(line, PLAIN) == out + Html(line[pos..], state)
      decreases |line| - start
    {
      out, pos, state, spanOpen := OneEscape(out, line, pos, start, state, spanOpen);
      start := pos + NextEscape(line[pos..]);
    }
    HtmlFrom(line, pos, start, |line|, state);
    out := AppendText(out, line[pos..]);
    if spanOpen {
      out := out + CLOSE;
    }
  }

  lemma EmptyText(s: string)
    requires s == ""
    ensures EscapeHtml(s) == ""
  {
  }

  lemma NoCodes(st: Style)
    ensures ApplyCodes(st, []) == st
  {
  }

  // ------------------------------------------------------------ reading the HTML back

  predicate StartsWith(s: string, t: string) {
    |t| <= |s| && s[..|t|] == t
  }

  /** Position of the first double quote; |s| when there is none. */
  function Quote(s: string): (n: nat)
    ensures n <= |s|
  {
    if s == "" || s[0] == '"' then 0 else 1 + Quote(s[1..])
  }

  /** One class name read into a style. */
  function ReadClass(st: Style, c: string): Option<Style> {
    if c == "b" then Some(st.(b := true))
    else if c == "u" then Some(st.(u := true))
    else if StartsWith(c, "bg") && c[2..] in BG_CODES then Some(st.(bg := Some(c[2..])))
    else if StartsWith(c, "c") && c[1..] in FG_CODES then Some(st.(fg := Some(c[1..])))
    else None
  }

  function ReadClasses(st: Style, cs: seq<string>): Option<Style> {
    if cs == [] then Some(st)
    else
      var front := ReadClasses(st, cs[..|cs| - 1]);
      if front.None? then None else ReadClass(front.value, cs[|cs| - 1])
  }

  function ConsResult(x: (char, Style), r: Option<seq<(char, Style)>>): Option<seq<(char, Style)>> {
    if r.None? then None else Some([x] + r.value)
  }

  function StyleOf(cur: Option<Style>): Style {
    if cur.Some? then cur.value else PLAIN
  }

  /**
   * A strict reader of span markup: spans may not nest, must be closed, and
   * only the three entities may start with an ampersand. None is malformed.
   */
  function Parse(s: string, cur: Option<Style>): Option<seq<(char, Style)>>
    decreases |s|
  {
    if s == "" then (if cur.None? then Some([]) else None)
    else if s[0] == '<' then
      if StartsWith(s, CLOSE) then (if cur.Some? then Parse(s[|CLOSE|..], None) else None)
      else if StartsWith(s, OPEN + "\"") && cur.None? then
        var body := s[|OPEN| + 1..];
        var n := Quote(body);
        if n + 1 < |body| && body[n + 1] == '>' then
          var st := ReadClasses(PLAIN, Split(body[..n], ' '));
          if st.Some? then Parse(body[n + 2..], st) else None
        else None
      else None
    else if s[0] == '>' then None
    else if s[0] == '&' then
      if StartsWith(s, "&amp;") then ConsResult(('&', StyleOf(cur)), Parse(s[5..], cur))
      else if StartsWith(s, "&lt;") then ConsResult(('<', StyleOf(cur)), Parse(s[4..], cur))
      else if StartsWith(s, "&gt;") then ConsResult(('>', StyleOf(cur)), Parse(s[4..], cur))
      else None
    else ConsResult((s[0], StyleOf(cur)), Parse(s[1..], cur))
  }

  lemma StartsConcat(t: string, r: string)
    ensures StartsWith(t + r, t) && (t + r)[|t|..] == r
  {
  }

  lemma ParseChar(c: char, r: string, cur: Option<Style>)
    ensures Parse(EscapeChar(c) + r, cur) == ConsResult((c, StyleOf(cur)), Parse(r, cur))
  {
    var s := EscapeChar(c) + r;
    StartsConcat(EscapeChar(c), r);
    if c == '<' {
      assert !StartsWith(s, "&amp;") by {
        assert s[1] == 'l';
      }
    } else if c == '>' {
      assert !StartsWith(s, "&amp;") && !StartsWith(s, "&lt;") by {
        assert s[1] == 'g';
      }
    }
  }

  lemma ParseClose(r: string, st: Style)
    ensures Parse(CLOSE + r, Some(st)) == Parse(r, None)
  {
    StartsConcat(CLOSE, r);
  }

  lemma {:induction false} QuoteAt(t: string, r: string)
    requires '"' !in t
    ensures Quote(t + "\"" + r) == |t|
  {
    if t != "" {
      assert (t + "\"" + r)[1..] == t[1..] + "\"" + r;
      QuoteAt(t[1..], r);
    }
  }

  lemma ParseOpen(classes: string, r: string, st: Style)
    requires '"' !in classes && ReadClasses(PLAIN, Split(classes, ' ')) == Some(st)
    ensures Parse(OPEN + "\"" + classes + "\">" + r, None) == Parse(r, Some(st))
  {
    var s := OPEN + "\"" + classes + "\">" + r;
    var body := classes + "\"" + (">" + r);
    assert s == (OPEN + "\"") + body;
    StartsConcat(OPEN + "\"", body);
    assert !StartsWith(s, CLOSE) by {
      assert s[1] == 's' && CLOSE[1] == '/';
    }
    QuoteAt(classes, ">" + r);
    assert body[..|classes|] == classes && body[|classes| + 1] == '>' && body[|classes| + 2..] == r;
  }

  // ------------------------------------------------------------ class names

  lemma ReadSnoc(st: Style, cs: seq<string>, c: string)
    ensures ReadClasses(st, cs + [c])
         == var front := ReadClasses(st, cs); if front.None? then None else ReadClass(front.value, c)
  {
    assert (cs + [c])[..|cs|] == cs;
  }

  lemma ReadColour(st: Style, code: string)
    ensures code in FG_CODES ==> ReadClass(st, "c" + code) == Some(st.(fg := Some(code)))
    ensures code in BG_CODES ==> ReadClass(st, "bg" + code) == Some(st.(bg := Some(code)))
  {
    StartsConcat("c", code);
    StartsConcat("bg", code);
    if code in FG_CODES {
      assert ("c" + code)[0] == 'c';
    }
    if code in BG_CODES {
      assert ("bg" + code)[1] == 'g';
    }
  }

  lemma CodesArePlain(code: string)
    requires code in FG_CODES || code in BG_CODES
    ensures forall i :: 0 <= i < |code| ==> '0' <= code[i] <= '9'
  {
  }

  lemma ReadSome(st: Style, cs: seq<string>, add: seq<string>)
    requires |add| <= 1
    ensures ReadClasses(st, cs + add)
         == var front := ReadClasses(st, cs); if front.None? || add == [] then front else ReadClass(front.value, add[0])
  {
    if add == [] {
      assert cs + add == cs;
    } else {
      ReadSnoc(st, cs, add[0]);
      assert cs + add == cs + [add[0]];
    }
  }

  lemma ReadWeight(b: bool, u: bool)
    ensures ReadClasses(PLAIN, (if b then ["b"] else []) + (if u then ["u"] else [])) == Some(PLAIN.(b := b, u := u))
  {
    var bs, us := if b then ["b"] else [], if u then ["u"] else [];
    assert [] + bs == bs;
    ReadSome(PLAIN, [], bs);
    ReadSome(PLAIN, bs, us);
  }

  /** The class list of a style names that style. */
  lemma ReadBack(st: Style)
    requires StyleOk(st)
    ensures ReadClasses(PLAIN, Classes(st)) == Some(st)
  {
    hide ReadClass, ReadClasses;
    var bu := (if st.b then ["b"] else []) + (if st.u then ["u"] else []);
    var f := if st.fg.Some? then ["c" + st.fg.value] else [];
    var g := if st.bg.Some? then ["bg" + st.bg.value] else [];
    ReadWeight(st.b, st.u);
    ReadSome(PLAIN, bu, f);
    ReadSome(PLAIN, bu + f, g);
    if st.fg.Some? {
      ReadColour(PLAIN.(b := st.b, u := st.u), st.fg.value);
    }
    if st.bg.Some? {
      ReadColour(PLAIN.(b := st.b, u := st.u, fg := st.fg), st.bg.value);
    }
  }

  predicate IsClassChar(c: char) {
    c != ' ' && c != '"'
  }

  predicate IsClassName(c: string) {
    forall i :: 0 <= i < |c| ==> IsClassChar(c[i])
  }

  lemma ColourPlain(code: string)
    requires code in FG_CODES || code in BG_CODES
    ensures IsClassName("c" + code) && IsClassName("bg" + code)
  {
    CodesArePlain(code);
  }

  lemma ClassesPlain(st: Style)
    requires StyleOk(st)
    ensures forall c :: c in Classes(st) ==> IsClassName(c)
  {
    if st.fg.Some? {
      ColourPlain(st.fg.value);
    }
    if st.bg.Some? {
      ColourPlain(st.bg.value);
    }
  }

  lemma {:induction false} JoinNoQuote(cs: seq<string>)
    requires forall c :: c in cs ==> IsClassName(c)
    ensures '"' !in Join(cs, ' ')
  {
    if |cs| > 1 {
      JoinNoQuote(cs[1..]);
      assert cs[0] in cs;
    } else if |cs| == 1 {
      assert cs[0] in cs;
    }
  }

  lemma ParseOpening(st: Style, r: string)
    requires StyleOk(st) && st != PLAIN
    ensures Parse(OpenTag(st) + r, None) == Parse(r, Some(st))
  {
    var cs := Classes(st);
    ClassesPlain(st);
    JoinNoQuote(cs);
    SplitJoin(cs, ' ');
    ReadBack(st);
    hide Parse;
    ParseOpen(Join(cs, ' '), r, st);
  }

  // ------------------------------------------------------------ the theorem

  lemma {:induction false} ApplyCodesOk(st: Style, codes: seq<string>)
    requires StyleOk(st)
    ensures StyleOk(ApplyCodes(st, codes))
    decreases |codes|
  {
    if codes != [] {
      ApplyCodesOk(ApplyCode(st, codes[0]), codes[1..]);
    }
  }

  function Span(st: Style): Option<Style> {
    if st == PLAIN then None else Some(st)
  }

  lemma ParseSwitch(was: Style, now: Style, r: string)
    requires StyleOk(now)
    ensures Parse(Closing(was) + Opening(now) + r, Span(was)) == Parse(r, Span(now))
  {
    hide Parse, OpenTag;
    assert Closing(was) + Opening(now) + r == Closing(was) + (Opening(now) + r);
    if was != PLAIN {
      ParseClose(Opening(now) + r, was);
    } else {
      assert "" + (Opening(now) + r) == Opening(now) + r;
    }
    if now != PLAIN {
      ParseOpening(now, r);
    } else {
      assert "" + r == r;
    }
  }

  lemma {:induction false} HtmlMeans(s: string, st: Style)
    requires StyleOk(st)
    ensures Parse(Html(s, st), Span(st)) == Some(Styled(s, st))
    decreases |s|
  {
    if s == "" {
      assert CLOSE + "" == CLOSE;
      ParseClose("", st);
    } else if Escape(s).Some? {
      var codes := Codes(Escape(s).value);
      var next := ApplyCodes(st, codes);
      ApplyCodesOk(st, codes);
      HtmlMeans(Rest(s), next);
      hide Parse, Closing, Opening;
      if codes == [] {
        assert "" + Html(Rest(s), next) == Html(Rest(s), next);
      } else {
        ParseSwitch(st, next, Html(Rest(s), next));
      }
    } else {
      HtmlMeans(s[1..], st);
      ParseChar(s[0], Html(s[1..], st), Span(st));
    }
  }

  /**
   * Reading the HTML back gives exactly the line's characters without its
   * escapes, each in the style those escapes ask for; in particular spans are
   * never nested and always closed.
   */
  lemma AnsiToHtmlMeans(line: string)
    ensures Parse(Html(line, PLAIN), None) == Some(Styled(line, PLAIN))
    ensures Chars(Styled(line, PLAIN)) == StripAnsi(line)
  {
    HtmlMeans(line, PLAIN);
    StyledChars(line, PLAIN);
  }

  /** An escape without codes, such as one with an empty parameter list, writes nothing and changes no style. */
  lemma EmptyEscape(s: string, st: Style)
    requires Escape(s).Some? && Codes(Escape(s).value) == []
    ensures Html(s, st) == Html(Rest(s), st) && Styled(s, st) == Styled(Rest(s), st)
  {
    NoCodes(st);
    assert "" + Html(Rest(s), st) == Html(Rest(s), st);
  }

  /** An escape has no codes exactly when its parameter list is empty or separators only. */
  lemma NoParamsNoCodes(params: string)
    ensures Codes(params) == [] <==> forall c :: c in params ==> c == ';'
  {
    var pieces := Split(params, ';');
    SplitBlank(params, ';');
    FilterMember(NonEmpty(), pieces);
    hide Split, Filter;
    if Codes(params) == [] {
      forall p | p in pieces ensures p == "" {
        assert p !in Codes(params);
      }
    } else {
      var p := Codes(params)[0];
      assert p in Codes(params) && p in pieces && p != "";
    }
  }
}
