/** Values written in Python notation: rewriting gives their JSON text. */
module PythonValues {
  import opened Basics
  import opened JsonText
  import opened JsonValue
  import opened PythonLiterals

  // ---------------------------------------------------------------------
  // Notations

  /** How words and strings are written, and what follows commas and colons. */
  datatype Notation = Notation(word: string -> string, text: string -> string, gap: string)

  function Print(n: Notation, v: Json): string
    decreases v, 1
  {
    match v
    case Token(t) => n.word(t)
    case Str(s) => n.text(s)
    case Arr(vs) => "[" + PrintItems(n, vs) + "]"
    case Obj(ms) => "{" + PrintMembers(n, ms) + "}"
  }

  function PrintItems(n: Notation, vs: seq<Json>): string
    decreases vs, 0
  {
    if vs == [] then ""
    else if |vs| == 1 then Print(n, vs[0])
    else PrintItems(n, vs[..|vs| - 1]) + ("," + n.gap + Print(n, vs[|vs| - 1]))
  }

  function PrintMember(n: Notation, m: Member): string
    decreases m, 0
  {
    n.text(m.key) + (":" + n.gap + Print(n, m.value))
  }

  function PrintMembers(n: Notation, ms: seq<Member>): string
    decreases ms, 0
  {
    if ms == [] then ""
    else if |ms| == 1 then PrintMember(n, ms[0])
    else PrintMembers(n, ms[..|ms| - 1]) + ("," + n.gap + PrintMember(n, ms[|ms| - 1]))
  }

  function JsonNotation(gap: string): Notation {
    Notation((t: string) => t, (s: string) => Quote(s), gap)
  }

  /** The three words differ; all other tokens are numbers. */
  function PythonToken(t: string): string {
    if t == "true" then "True" else if t == "false" then "False" else if t == "null" then "None" else t
  }

  /** Either kind of quotes; within single ones a double quote may be escaped or not. */
  datatype Quotes = DoubleQuotes | SingleQuotes(escaped: bool)

  function Mark(q: Quotes): char {
    if q.DoubleQuotes? then '"' else '\''
  }

  function SpellChar(q: Quotes, c: char): string {
    if q.SingleQuotes? && c == '\'' then "\\'"
    else if q.SingleQuotes? && c == '"' && !q.escaped then "\""
    else EscapeChar(c)
  }

  function SpellText(q: Quotes, s: string): string {
    if s == "" then "" else SpellChar(q, s[0]) + SpellText(q, s[1..])
  }

  function PythonString(q: Quotes, s: string): string {
    [Mark(q)] + SpellText(q, s) + [Mark(q)]
  }

  /** Which quotes a string gets. */
  type Style = string -> Quotes

  function PythonNotation(style: Style, gap: string): Notation {
    Notation((t: string) => PythonToken(t), (s: string) => PythonString(style(s), s), gap)
  }

  predicate NumberChar(c: char) {
    '0' <= c <= '9' || c == '+' || c == '-' || c == '.' || c == 'e' || c == 'E'
  }

  predicate IsNumber(t: string) {
    t != "" && forall i :: 0 <= i < |t| ==> NumberChar(t[i])
  }

  /** Values whose tokens are numbers, true, false and null. */
  predicate Readable(v: Json)
    decreases v, 1
  {
    match v
    case Token(t) => t == "true" || t == "false" || t == "null" || IsNumber(t)
    case Str(_) => true
    case Arr(vs) => forall i :: 0 <= i < |vs| ==> Readable(vs[i])
    case Obj(ms) => forall i :: 0 <= i < |ms| ==> Readable(ms[i].value)
  }

  // ---------------------------------------------------------------------
  // Turns

  predicate Special(c: char) {
    c == '\\' || c == '"' || c == '\''
  }

  /** The table has the three words. */
  predicate HasWords(lit: Literals) {
    lit("True") == Some("true") && lit("False") == Some("false") && lit("None") == Some("null")
  }

  lemma PythonHasWords()
    ensures HasWords(PythonWord)
  {
    assert Substr("True", 4) == "True" && Substr("true", 4) == "true";
    assert Substr("True", 5) == "True" && Substr("False", 5) == "False" && Substr("false", 5) == "false";
    assert "True"[0] != "None"[0] && Substr("False", 4)[0] == 'F' && Substr("None", 4) == "None" && Substr("null", 4) == "null";
  }

  lemma OutsideChar(lit: Literals, f: bool, c: char, rest: string)
    requires !Special(c) && !LiteralStart(c)
    ensures Rewrite(lit, Outside, f, [c] + rest) == [c] + Rewrite(lit, Outside, !WordChar(c), rest)
  {
    var s := [c] + rest;
    assert s[0] == c && s[1..] == rest;
    assert First(lit, Outside, f, s) == Step(1, [c], Outside);
  }

  /** Whether a word has begun matters in front of T, F and N only. */
  predicate FlagFree(s: string) {
    s == "" || !LiteralStart(s[0])
  }

  lemma AnyFlag(lit: Literals, f: bool, g: bool, s: string)
    requires FlagFree(s)
    ensures Rewrite(lit, Outside, f, s) == Rewrite(lit, Outside, g, s)
  {
    if s != "" {
      assert First(lit, Outside, f, s) == First(lit, Outside, g, s);
    }
  }

  lemma AnyFlagInside(lit: Literals, mode: Mode, f: bool, g: bool, s: string)
    requires mode != Outside
    ensures Rewrite(lit, mode, f, s) == Rewrite(lit, mode, g, s)
  {
    if s != "" {
      assert First(lit, mode, f, s) == First(lit, mode, g, s);
    }
  }

  lemma TurnOne(lit: Literals, mode: Mode, f: bool, c: char, rest: string, out: string, next: Mode)
    requires First(lit, mode, f, [c] + rest) == Step(1, out, next)
    ensures Rewrite(lit, mode, f, [c] + rest) == out + Rewrite(lit, next, !WordChar(c), rest)
  {
    var s := [c] + rest;
    assert s[0] == c && s[1..] == rest;
  }

  lemma TurnTwo(lit: Literals, mode: Mode, f: bool, c: char, d: char, rest: string, out: string)
    requires mode != Outside && First(lit, mode, f, [c, d] + rest) == Step(2, out, mode)
    ensures Rewrite(lit, mode, f, [c, d] + rest) == out + Rewrite(lit, mode, true, rest)
  {
    var s := [c, d] + rest;
    assert s[1] == d && s[2..] == rest;
    AnyFlagInside(lit, mode, !WordChar(d), true, rest);
  }

  function ModeIn(q: Quotes): Mode {
    if q.DoubleQuotes? then Double else Single
  }

  lemma PlainInside(lit: Literals, mode: Mode, f: bool, c: char, rest: string)
    requires mode != Outside && !Special(c)
    ensures Rewrite(lit, mode, f, [c] + rest) == [c] + Rewrite(lit, mode, true, rest)
  {
    TurnOne(lit, mode, f, c, rest, [c], mode);
    AnyFlagInside(lit, mode, !WordChar(c), true, rest);
  }

  lemma EscapedInside(lit: Literals, mode: Mode, f: bool, c: char, rest: string)
    requires mode != Outside && c != '\''
    ensures Rewrite(lit, mode, f, ['\\', c] + rest) == ['\\', c] + Rewrite(lit, mode, true, rest)
  {
    var s := ['\\', c] + rest;
    assert s[0] == '\\' && s[1] == c && |s| > 1;
    assert ['\\', c] == "\\" + [c] && "\\\"" == ['\\', '"'];
    TurnTwo(lit, mode, f, '\\', c, rest, ['\\', c]);
  }

  lemma {:induction false} PlainsInside(lit: Literals, mode: Mode, f: bool, t: string, rest: string)
    requires mode != Outside && forall i :: 0 <= i < |t| ==> !Special(t[i])
    ensures Rewrite(lit, mode, f, t + rest) == t + Rewrite(lit, mode, true, rest)
    decreases |t|
  {
    hide Rewrite;
    if t == "" {
      assert t + rest == rest;
      AnyFlagInside(lit, mode, f, true, rest);
    } else {
      PlainInside(lit, mode, f, t[0], t[1..] + rest);
      PlainsInside(lit, mode, true, t[1..], rest);
      assert [t[0]] + (t[1..] + rest) == t + rest;
      assert [t[0]] + (t[1..] + Rewrite(lit, mode, true, rest)) == t + Rewrite(lit, mode, true, rest);
    }
  }

  // ---------------------------------------------------------------------
  // Strings

  /** A quote of the other kind. */
  lemma QuoteInside(lit: Literals, q: Quotes, f: bool, rest: string)
    ensures q.SingleQuotes? ==> Rewrite(lit, Single, f, "\"" + rest) == "\\\"" + Rewrite(lit, Single, true, rest)
    ensures q.SingleQuotes? ==> Rewrite(lit, Single, f, "\\'" + rest) == "'" + Rewrite(lit, Single, true, rest)
    ensures q.DoubleQuotes? ==> Rewrite(lit, Double, f, "'" + rest) == "'" + Rewrite(lit, Double, true, rest)
  {
    if q.SingleQuotes? {
      TurnOne(lit, Single, f, '"', rest, "\\\"", Single);
      var s := ['\\', '\''] + rest;
      assert s[0] == '\\' && s[1] == '\'';
      TurnTwo(lit, Single, f, '\\', '\'', rest, "'");
    } else {
      TurnOne(lit, Double, f, '\'', rest, "'", Double);
    }
  }

  /** A control character has six characters. */
  lemma ControlInside(lit: Literals, mode: Mode, f: bool, h: string, rest: string)
    requires mode != Outside && |h| == 4 && forall i :: 0 <= i < |h| ==> !Special(h[i])
    ensures Rewrite(lit, mode, f, ['\\', 'u'] + h + rest) == ['\\', 'u'] + h + Rewrite(lit, mode, true, rest)
  {
    hide Rewrite;
    EscapedInside(lit, mode, f, 'u', h + rest);
    PlainsInside(lit, mode, true, h, rest);
    assert ['\\', 'u'] + h + rest == ['\\', 'u'] + (h + rest);
    assert ['\\', 'u'] + h + Rewrite(lit, mode, true, rest) == ['\\', 'u'] + (h + Rewrite(lit, mode, true, rest));
  }

  /** What the JSON library writes for a character. */
  lemma EscapeKinds(c: char) returns (h: string)
    ensures !Special(c) && c >= ' ' ==> EscapeChar(c) == [c]
    ensures c == '\'' ==> EscapeChar(c) == "'"
    ensures EscapeChar(c) == [c] || (|EscapeChar(c)| == 2 && EscapeChar(c)[0] == '\\' && EscapeChar(c)[1] != '\'')
      || (|h| == 4 && EscapeChar(c) == ['\\', 'u'] + h && forall i :: 0 <= i < |h| ==> !Special(h[i]))
    ensures EscapeChar(c) == [c] ==> c == '\'' || !Special(c)
    ensures c == '"' ==> EscapeChar(c) == "\\\""
  {
    h := "";
    if c < ' ' && |EscapeChar(c)| > 2 {
      var a, b := HexDigit(c as nat / 16), HexDigit(c as nat % 16);
      h := "00" + [a, b];
      assert EscapeChar(c) == ['\\', 'u'] + h;
      HexPlain(c as nat / 16);
      HexPlain(c as nat % 16);
    }
  }

  lemma HexPlain(d: nat)
    requires d < 16
    ensures !Special(HexDigit(d))
  {
    assert HexDigit(d) in "0123456789abcdef";
  }

  /** A spelled character is rewritten to what the JSON library writes. */
  lemma CharRewritten(lit: Literals, q: Quotes, f: bool, c: char, rest: string)
    ensures Rewrite(lit, ModeIn(q), f, SpellChar(q, c) + rest) == EscapeChar(c) + Rewrite(lit, ModeIn(q), true, rest)
  {
    hide Rewrite, EscapeChar, Special;
    var mode, e := ModeIn(q), EscapeChar(c);
    var h := EscapeKinds(c);
    QuoteInside(lit, q, f, rest);
    if c == '\'' || (c == '"' && q == SingleQuotes(false)) {
    } else if e == [c] {
      PlainInside(lit, mode, f, c, rest);
    } else if |e| == 2 {
      EscapedInside(lit, mode, f, e[1], rest);
      assert e == ['\\', e[1]];
    } else {
      ControlInside(lit, mode, f, h, rest);
    }
  }

  lemma {:induction false} TextRewritten(lit: Literals, q: Quotes, s: string, rest: string)
    ensures Rewrite(lit, ModeIn(q), true, SpellText(q, s) + rest) == Escape(s) + Rewrite(lit, ModeIn(q), true, rest)
    decreases |s|
  {
    hide Rewrite, SpellChar, EscapeChar;
    if s == "" {
      assert SpellText(q, s) + rest == rest && Escape(s) + Rewrite(lit, ModeIn(q), true, rest) == Rewrite(lit, ModeIn(q), true, rest);
    } else {
      var a, b, r := SpellChar(q, s[0]), SpellText(q, s[1..]), Rewrite(lit, ModeIn(q), true, rest);
      TextRewritten(lit, q, s[1..], rest);
      CharRewritten(lit, q, true, s[0], b + rest);
      Regroup(a, b, rest);
      Regroup(EscapeChar(s[0]), Escape(s[1..]), r);
    }
  }

  lemma Regroup(a: string, b: string, c: string)
    ensures a + b + c == a + (b + c)
  {
  }

  lemma OpenMark(lit: Literals, q: Quotes, f: bool, rest: string)
    ensures Rewrite(lit, Outside, f, [Mark(q)] + rest) == "\"" + Rewrite(lit, ModeIn(q), true, rest)
  {
    assert ([Mark(q)] + rest)[0] == Mark(q);
    TurnOne(lit, Outside, f, Mark(q), rest, "\"", ModeIn(q));
  }

  lemma CloseMark(lit: Literals, q: Quotes, rest: string)
    ensures Rewrite(lit, ModeIn(q), true, [Mark(q)] + rest) == "\"" + Rewrite(lit, Outside, true, rest)
  {
    assert ([Mark(q)] + rest)[0] == Mark(q);
    TurnOne(lit, ModeIn(q), true, Mark(q), rest, "\"", Outside);
  }

  /** A string of either kind is rewritten to the JSON string. */
  lemma StringRewritten(lit: Literals, q: Quotes, s: string, f: bool, rest: string)
    ensures Rewrite(lit, Outside, f, PythonString(q, s) + rest) == Quote(s) + Rewrite(lit, Outside, true, rest)
  {
    hide Rewrite, SpellText, Escape;
    var m, b, r := [Mark(q)], SpellText(q, s), Rewrite(lit, Outside, true, rest);
    OpenMark(lit, q, f, b + (m + rest));
    TextRewritten(lit, q, s, m + rest);
    CloseMark(lit, q, rest);
    assert PythonString(q, s) + rest == m + (b + (m + rest));
    assert Quote(s) + r == "\"" + (Escape(s) + ("\"" + r));
  }

  // ---------------------------------------------------------------------
  // Tokens

  /** What may follow a value or a key. */
  predicate Delimited(rest: string) {
    rest == "" || rest[0] in ",:]}"
  }

  lemma {:induction false} NumberRewritten(lit: Literals, t: string, f: bool, rest: string)
    requires (forall i :: 0 <= i < |t| ==> NumberChar(t[i])) && FlagFree(rest)
    ensures Rewrite(lit, Outside, f, t + rest) == t + Rewrite(lit, Outside, true, rest)
    decreases |t|
  {
    hide Rewrite;
    if t == "" {
      assert t + rest == rest;
      AnyFlag(lit, f, true, rest);
    } else {
      OutsideChar(lit, f, t[0], t[1..] + rest);
      NumberRewritten(lit, t[1..], !WordChar(t[0]), rest);
      assert [t[0]] + (t[1..] + rest) == t + rest;
      assert [t[0]] + (t[1..] + Rewrite(lit, Outside, true, rest)) == t + Rewrite(lit, Outside, true, rest);
    }
  }

  lemma {:induction false} WordAhead(w: string, rest: string)
    requires (forall i :: 0 <= i < |w| ==> WordChar(w[i])) && (rest == "" || !WordChar(rest[0]))
    ensures WordLen(w + rest) == |w|
    decreases |w|
  {
    if w == "" {
      assert w + rest == rest;
    } else {
      assert (w + rest)[1..] == w[1..] + rest;
      WordAhead(w[1..], rest);
    }
  }

  lemma WordRewritten(lit: Literals, w: string, js: string, rest: string)
    requires w != "" && LiteralStart(w[0]) && lit(w) == Some(js) && forall i :: 0 <= i < |w| ==> WordChar(w[i])
    requires rest == "" || !WordChar(rest[0])
    ensures Rewrite(lit, Outside, true, w + rest) == js + Rewrite(lit, Outside, true, rest)
  {
    var s := w + rest;
    WordAhead(w, rest);
    assert s[0] == w[0] && s[..|w|] == w && s[|w|..] == rest;
    assert First(lit, Outside, true, s) == Step(|w|, js, Outside);
    AnyFlag(lit, !WordChar(s[|w| - 1]), true, rest);
  }

  lemma TokenRewritten(lit: Literals, t: string, rest: string)
    requires HasWords(lit) && Readable(Token(t)) && Delimited(rest)
    ensures Rewrite(lit, Outside, true, PythonToken(t) + rest) == t + Rewrite(lit, Outside, true, rest)
  {
    hide Rewrite;
    if t == "true" {
      WordRewritten(lit, "True", t, rest);
    } else if t == "false" {
      WordRewritten(lit, "False", t, rest);
    } else if t == "null" {
      WordRewritten(lit, "None", t, rest);
    } else {
      NumberRewritten(lit, t, true, rest);
    }
  }

  // ---------------------------------------------------------------------
  // Values

  predicate Blank(gap: string) {
    forall i :: 0 <= i < |gap| ==> gap[i] == ' '
  }

  lemma {:induction false} GapRewritten(lit: Literals, gap: string, rest: string)
    requires Blank(gap)
    ensures Rewrite(lit, Outside, true, gap + rest) == gap + Rewrite(lit, Outside, true, rest)
    decreases |gap|
  {
    hide Rewrite;
    if gap == "" {
      assert gap + rest == rest;
    } else {
      OutsideChar(lit, true, gap[0], gap[1..] + rest);
      GapRewritten(lit, gap[1..], rest);
      assert [gap[0]] + (gap[1..] + rest) == gap + rest;
      assert [gap[0]] + (gap[1..] + Rewrite(lit, Outside, true, rest)) == gap + Rewrite(lit, Outside, true, rest);
    }
  }

  /** A punctuation mark and the gap behind it. */
  lemma MarkRewritten(lit: Literals, f: bool, c: char, gap: string, rest: string)
    requires c in ",:[]{}" && Blank(gap)
    ensures Rewrite(lit, Outside, f, [c] + gap + rest) == [c] + gap + Rewrite(lit, Outside, true, rest)
  {
    hide Rewrite;
    OutsideChar(lit, f, c, gap + rest);
    GapRewritten(lit, gap, rest);
    Regroup([c], gap, rest);
    Regroup([c], gap, Rewrite(lit, Outside, true, rest));
  }

  /** Rewriting turns `py` into `js`, whatever delimited text follows. */
  ghost predicate Becomes(lit: Literals, py: string, js: string) {
    forall rest :: Delimited(rest) ==> BecomesBefore(lit, py, js, rest)
  }

  predicate BecomesBefore(lit: Literals, py: string, js: string, rest: string) {
    Rewrite(lit, Outside, true, py + rest) == js + Rewrite(lit, Outside, true, rest)
  }

  /** Two parts with a mark and a gap between them. */
  lemma MarkBetween(lit: Literals, py: string, js: string, c: char, gap: string, py': string, js': string)
    requires Becomes(lit, py, js) && Becomes(lit, py', js') && c in ",:" && Blank(gap)
    ensures Becomes(lit, py + ([c] + gap + py'), js + ([c] + gap + js'))
  {
    hide Rewrite, Blank;
    forall rest | Delimited(rest)
      ensures BecomesBefore(lit, py + ([c] + gap + py'), js + ([c] + gap + js'), rest)
    {
      var r := Rewrite(lit, Outside, true, rest);
      var ahead := [c] + gap + (py' + rest);
      assert ahead[0] == c && Delimited(ahead);
      assert BecomesBefore(lit, py, js, ahead) && BecomesBefore(lit, py', js', rest);
      MarkRewritten(lit, true, c, gap, py' + rest);
      assert py + ([c] + gap + py') + rest == py + ahead;
      assert js + ([c] + gap + js') + r == js + ([c] + gap + (js' + r));
    }
  }

  /** Brackets around a part. */
  lemma Enclosed(lit: Literals, open: char, py: string, js: string, close: char)
    requires Becomes(lit, py, js) && open in "[{" && close in "]}"
    ensures Becomes(lit, [open] + py + [close], [open] + js + [close])
  {
    hide Rewrite;
    forall rest | Delimited(rest) ensures BecomesBefore(lit, [open] + py + [close], [open] + js + [close], rest) {
      var r, ahead := Rewrite(lit, Outside, true, rest), [close] + rest;
      assert ahead[0] == close && BecomesBefore(lit, py, js, ahead);
      OutsideChar(lit, true, open, py + ahead);
      OutsideChar(lit, true, close, rest);
      assert [open] + py + [close] + rest == [open] + (py + ahead);
      assert [open] + js + [close] + r == [open] + (js + ([close] + r));
    }
  }

  lemma NothingBecomes(lit: Literals)
    ensures Becomes(lit, "", "")
  {
    forall rest ensures BecomesBefore(lit, "", "", rest) {
      assert "" + rest == rest && "" + Rewrite(lit, Outside, true, rest) == Rewrite(lit, Outside, true, rest);
    }
  }

  lemma StringBecomes(lit: Literals, style: Style, s: string)
    ensures Becomes(lit, PythonString(style(s), s), Quote(s))
  {
    hide Rewrite, PythonString, Quote;
    forall rest ensures BecomesBefore(lit, PythonString(style(s), s), Quote(s), rest) {
      StringRewritten(lit, style(s), s, true, rest);
    }
  }

  lemma TokenBecomes(lit: Literals, t: string)
    requires HasWords(lit) && Readable(Token(t))
    ensures Becomes(lit, PythonToken(t), t)
  {
    hide Rewrite, PythonToken;
    forall rest | Delimited(rest) ensures BecomesBefore(lit, PythonToken(t), t, rest) {
      TokenRewritten(lit, t, rest);
    }
  }

  lemma {:induction false} ValueBecomes(lit: Literals, style: Style, gap: string, v: Json, p: Notation, j: Notation)
    requires HasWords(lit) && Readable(v) && Blank(gap) && p == PythonNotation(style, gap) && j == JsonNotation(gap)
    ensures Becomes(lit, Print(p, v), Print(j, v))
    decreases v, 1
  {
    hide Becomes, HasWords, Blank, PythonString, PythonToken;
    match v
    case Token(t) => TokenBecomes(lit, t);
    case Str(s) => StringBecomes(lit, style, s);
    case Arr(vs) =>
      ItemsBecome(lit, style, gap, vs, p, j);
      Enclosed(lit, '[', PrintItems(p, vs), PrintItems(j, vs), ']');
    case Obj(ms) =>
      MembersBecome(lit, style, gap, ms, p, j);
      Enclosed(lit, '{', PrintMembers(p, ms), PrintMembers(j, ms), '}');
  }

  lemma {:induction false} ItemsBecome(lit: Literals, style: Style, gap: string, vs: seq<Json>, p: Notation, j: Notation)
    requires HasWords(lit) && (forall i :: 0 <= i < |vs| ==> Readable(vs[i]))
    requires Blank(gap) && p == PythonNotation(style, gap) && j == JsonNotation(gap)
    ensures Becomes(lit, PrintItems(p, vs), PrintItems(j, vs))
    decreases vs, 0
  {
    hide Becomes, HasWords, Blank, Print;
    if vs == [] {
      NothingBecomes(lit);
    } else {
      var n := |vs| - 1;
      ValueBecomes(lit, style, gap, vs[n], p, j);
      if n > 0 {
        ItemsBecome(lit, style, gap, vs[..n], p, j);
        MarkBetween(lit, PrintItems(p, vs[..n]), PrintItems(j, vs[..n]), ',', gap, Print(p, vs[n]), Print(j, vs[n]));
      }
    }
  }

  lemma {:induction false} MemberBecomes(lit: Literals, style: Style, gap: string, m: Member, p: Notation, j: Notation)
    requires HasWords(lit) && Readable(m.value) && Blank(gap) && p == PythonNotation(style, gap) && j == JsonNotation(gap)
    ensures Becomes(lit, PrintMember(p, m), PrintMember(j, m))
    decreases m, 0
  {
    hide Becomes, HasWords, Blank, Print, PythonString;
    StringBecomes(lit, style, m.key);
    ValueBecomes(lit, style, gap, m.value, p, j);
    MarkBetween(lit, PythonString(style(m.key), m.key), Quote(m.key), ':', gap, Print(p, m.value), Print(j, m.value));
  }

  lemma {:induction false} MembersBecome(lit: Literals, style: Style, gap: string, ms: seq<Member>, p: Notation, j: Notation)
    requires HasWords(lit) && (forall i :: 0 <= i < |ms| ==> Readable(ms[i].value))
    requires Blank(gap) && p == PythonNotation(style, gap) && j == JsonNotation(gap)
    ensures Becomes(lit, PrintMembers(p, ms), PrintMembers(j, ms))
    decreases ms, 0
  {
    hide Becomes, HasWords, Blank, PrintMember;
    if ms == [] {
      NothingBecomes(lit);
    } else {
      var n := |ms| - 1;
      MemberBecomes(lit, style, gap, ms[n], p, j);
      if n > 0 {
        MembersBecome(lit, style, gap, ms[..n], p, j);
        MarkBetween(lit, PrintMembers(p, ms[..n]), PrintMembers(j, ms[..n]), ',', gap, PrintMember(p, ms[n]), PrintMember(j, ms[n]));
      }
    }
  }

  /** Rewriting a value in Python notation, whatever quotes its strings have and however wide the gaps behind its
      commas and colons, gives the same value in JSON notation. */
  lemma NormalizePython(style: Style, gap: string, v: Json)
    requires Readable(v) && Blank(gap)
    ensures Normalize(Print(PythonNotation(style, gap), v)) == Print(JsonNotation(gap), v)
  {
    hide Print, HasWords;
    var py, js := Print(PythonNotation(style, gap), v), Print(JsonNotation(gap), v);
    PythonHasWords();
    ValueBecomes(PythonWord, style, gap, v, PythonNotation(style, gap), JsonNotation(gap));
    assert BecomesBefore(PythonWord, py, js, "");
    assert py + "" == py && js + "" == js;
  }

  // ---------------------------------------------------------------------
  // Without gaps

  lemma {:induction false} CompactPrint(v: Json)
    ensures Print(JsonNotation(""), v) == Serialize(v)
    decreases v, 1
  {
    match v
    case Token(_) =>
    case Str(_) =>
    case Arr(vs) => CompactItems(vs);
    case Obj(ms) => CompactMembers(ms);
  }

  lemma {:induction false} CompactItems(vs: seq<Json>)
    ensures PrintItems(JsonNotation(""), vs) == SerializeItems(vs)
    decreases vs, 0
  {
    if vs != [] {
      var n := |vs| - 1;
      CompactPrint(vs[n]);
      if n > 0 {
        CompactItems(vs[..n]);
        NoGap(SerializeItems(vs[..n]), ",", Serialize(vs[n]));
      }
    }
  }

  lemma {:induction false} CompactMembers(ms: seq<Member>)
    ensures PrintMembers(JsonNotation(""), ms) == SerializeMembers(ms)
    decreases ms, 0
  {
    if ms != [] {
      var n := |ms| - 1;
      CompactPrint(ms[n].value);
      NoGap(Quote(ms[n].key), ":", Serialize(ms[n].value));
      if n > 0 {
        CompactMembers(ms[..n]);
        NoGap(SerializeMembers(ms[..n]), ",", SerializeMember(ms[n]));
      }
    }
  }

  lemma NoGap(a: string, mark: string, b: string)
    ensures a + (mark + "" + b) == a + mark + b
  {
  }

  lemma {:induction false} ReadableWellFormed(v: Json)
    requires Readable(v)
    ensures WellFormed(v)
    decreases v
  {
    match v
    case Token(_) =>
    case Str(_) =>
    case Arr(vs) =>
      forall i | 0 <= i < |vs| ensures WellFormed(vs[i]) {
        ReadableWellFormed(vs[i]);
      }
    case Obj(ms) =>
      forall i | 0 <= i < |ms| ensures WellFormed(ms[i].value) {
        ReadableWellFormed(ms[i].value);
      }
  }

  /** A value written in Python notation without gaps is rewritten to its serialisation, and a JSON reader gets it
      back. */
  lemma PythonReadsBack(style: Style, v: Json)
    requires Readable(v)
    ensures Normalize(Print(PythonNotation(style, ""), v)) == Serialize(v)
    ensures ReadValue(Normalize(Print(PythonNotation(style, ""), v))) == Some((v, ""))
  {
    hide Print, Serialize, Normalize;
    NormalizePython(style, "", v);
    CompactPrint(v);
    ReadableWellFormed(v);
    ReadSerialized(v, "");
    assert Serialize(v) + "" == Serialize(v);
  }

  /** The words, whole or cut short while they are being received. */
  lemma WordsCutShort(k: nat)
    ensures 0 < k <= 4 ==> Normalize("True"[..k]) == "true"[..k] && Normalize("None"[..k]) == "null"[..k]
    ensures 0 < k <= 5 ==> Normalize("False"[..k]) == "false"[..k]
  {
    if 0 < k <= 4 {
      CutWord("True", "true", k);
      CutWord("None", "null", k);
    }
    if 0 < k <= 5 {
      CutWord("False", "false", k);
    }
  }

  lemma CutWord(w: string, js: string, k: nat)
    requires (w == "True" && js == "true") || (w == "False" && js == "false") || (w == "None" && js == "null")
    requires 0 < k <= |w|
    ensures Normalize(w[..k]) == js[..k]
  {
    var c := w[..k];
    assert c[0] == w[0];
    CutFound(w, js, k);
    WordRewritten(PythonWord, c, js[..k], "");
    assert c + "" == c && js[..k] + "" == js[..k];
  }

  lemma CutFound(w: string, js: string, k: nat)
    requires (w == "True" && js == "true") || (w == "False" && js == "false") || (w == "None" && js == "null")
    requires 0 < k <= |w|
    ensures PythonWord(w[..k]) == Some(js[..k])
  {
    PythonHasWords();
    PythonWordCut(w, k);
  }
}
