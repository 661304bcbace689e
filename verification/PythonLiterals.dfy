/** Rewriting Python literals to JSON text: single-quoted strings become
    double-quoted ones and True, False and None become JSON words.

    The rewriting is stated for any table of words, so that its lemmas hold for every such
    table; `Normalize` uses the table of the three Python words. */
module PythonLiterals {
  import opened Basics
  import opened JsonText

  datatype Mode = Outside | Single | Double

  /** One turn of the rewriting loop: how much input it takes, what it writes, where it ends up. */
  datatype Step = Step(len: nat, out: string, mode: Mode)

  predicate WordChar(c: char) {
    '0' <= c <= '9' || 'a' <= c <= 'z' || 'A' <= c <= 'Z' || c == '_'
  }

  /** The length of the word at the front of `s`. */
  function WordLen(s: string): (n: nat)
    ensures n <= |s|
    ensures s != "" && WordChar(s[0]) ==> n > 0
  {
    if s == "" || !WordChar(s[0]) then 0 else 1 + WordLen(s[1..])
  }

  lemma {:induction false} WordExtent(s: string)
    ensures forall i :: 0 <= i < WordLen(s) ==> WordChar(s[i])
    ensures WordLen(s) < |s| ==> !WordChar(s[WordLen(s)])
  {
    if s != "" && WordChar(s[0]) {
      WordExtent(s[1..]);
    }
  }

  /** A table gives the replacement of a word, if it has one. */
  type Literals = string -> Option<string>

  predicate LiteralStart(c: char) {
    c == 'T' || c == 'F' || c == 'N'
  }

  /** The turn taken at the front of `s`; `atStart` says that no word character precedes it. */
  function First(lit: Literals, mode: Mode, atStart: bool, s: string): (r: Step)
    requires s != ""
    ensures 0 < r.len <= |s|
  {
    var c := s[0];
    if c == '\\' && |s| > 1 then
      match mode
      case Outside => Step(1, "\\", Outside)
      case Double => Step(2, [c, s[1]], Double)
      case Single =>
        if s[1] == '\'' then Step(2, "'", Single)
        else if s[1] == '"' then Step(2, "\\\"", Single)
        else Step(2, [c, s[1]], Single)
    else if c == '"' then
      if mode == Single then Step(1, "\\\"", Single)
      else Step(1, "\"", if mode == Double then Outside else Double)
    else if c == '\'' then
      if mode == Double then Step(1, "'", Double)
      else Step(1, "\"", if mode == Single then Outside else Single)
    else if mode == Outside && LiteralStart(c) && atStart then
      var n := WordLen(s);
      match lit(s[..n])
      case Some(js) => Step(n, js, Outside)
      case None => Step(1, [c], Outside)
    else Step(1, [c], mode)
  }

  function Rewrite(lit: Literals, mode: Mode, atStart: bool, s: string): string
    decreases |s|
  {
    if s == "" then ""
    else
      var t := First(lit, mode, atStart, s);
      t.out + Rewrite(lit, t.mode, !WordChar(s[t.len - 1]), s[t.len..])
  }

  // ---------------------------------------------------------------------
  // The Python table

  function Substr(s: string, n: nat): string {
    s[..if n < |s| then n else |s|]
  }

  /** The JSON text for a word that is a Python literal or a literal cut short. */
  function PythonWord(w: string): Option<string> {
    if Substr("True", |w|) == w then Some(Substr("true", |w|))
    else if Substr("False", |w|) == w then Some(Substr("false", |w|))
    else if Substr("None", |w|) == w then Some(Substr("null", |w|))
    else None
  }

  function Normalize(input: string): string {
    Rewrite(PythonWord, Outside, true, input)
  }

  /** What the lemmas ask of a table: lower-case replacements of the same length, for words led
      by T, F or N, and a word cut short is replaced by the replacement cut short. */
  ghost predicate Lawful(lit: Literals) {
    forall w :: w != "" && lit(w).Some? ==> LawfulWord(lit, w)
  }

  ghost predicate LawfulWord(lit: Literals, w: string)
    requires w != "" && lit(w).Some?
  {
    var js := lit(w).value;
    && LiteralStart(w[0])
    && |js| == |w|
    && (forall i :: 0 <= i < |js| ==> 'a' <= js[i] <= 'z')
    && (forall k :: 0 < k <= |w| ==> lit(w[..k]) == Some(js[..k]))
  }

  lemma SubstrCut(s: string, w: string, k: nat)
    requires 0 < k <= |w| && Substr(s, |w|) == w
    ensures Substr(s, k) == w[..k]
  {
  }

  lemma PythonWordCut(w: string, k: nat)
    requires 0 < k <= |w| && PythonWord(w).Some?
    ensures |PythonWord(w).value| == |w|
    ensures PythonWord(w[..k]) == Some(PythonWord(w).value[..k])
  {
    var c := w[..k];
    assert c[0] == w[0];
    if Substr("True", |w|) == w {
      SubstrCut("True", w, k);
      assert Substr("true", |w|)[..k] == Substr("true", k);
    } else if Substr("False", |w|) == w {
      assert w[0] == 'F' && Substr("True", k)[0] == 'T';
      SubstrCut("False", w, k);
      assert Substr("false", |w|)[..k] == Substr("false", k);
    } else {
      assert w[0] == 'N' && Substr("True", k)[0] == 'T' && Substr("False", k)[0] == 'F';
      SubstrCut("None", w, k);
      assert Substr("null", |w|)[..k] == Substr("null", k);
    }
  }

  lemma PythonTableLawful()
    ensures Lawful(PythonWord)
  {
    forall w | w != "" && PythonWord(w).Some? ensures LawfulWord(PythonWord, w) {
      forall k | 0 < k <= |w| ensures PythonWord(w[..k]) == Some(PythonWord(w).value[..k]) {
        PythonWordCut(w, k);
      }
      PythonWordCut(w, |w|);
    }
  }

  // ---------------------------------------------------------------------
  // Strings and braces of the input, read one character at a time

  datatype PyScan = PyScan(depth: int, mode: Mode, escaped: bool)

  const PY_START := PyScan(0, Outside, false)

  function PyChar(p: PyScan, c: char): PyScan {
    if p.escaped then p.(escaped := false)
    else match p.mode
      case Outside =>
        if c == '"' then p.(mode := Double)
        else if c == '\'' then p.(mode := Single)
        else if c == '{' then p.(depth := p.depth + 1)
        else if c == '}' then p.(depth := p.depth - 1)
        else p
      case Single =>
        if c == '\\' then p.(escaped := true) else if c == '\'' then p.(mode := Outside) else p
      case Double =>
        if c == '\\' then p.(escaped := true) else if c == '"' then p.(mode := Outside) else p
  }

  function PyText(p: PyScan, s: string): PyScan
    decreases |s|
  {
    if s == "" then p else PyText(PyChar(p, s[0]), s[1..])
  }

  lemma {:induction false} PyConcat(p: PyScan, s: string, t: string)
    ensures PyText(p, s + t) == PyText(PyText(p, s), t)
    decreases |s|
  {
    if s == "" {
      assert s + t == t;
    } else {
      assert (s + t)[1..] == s[1..] + t;
      PyConcat(PyChar(p, s[0]), s[1..], t);
    }
  }

  lemma PyOne(p: PyScan, s: string)
    requires |s| == 1
    ensures PyText(p, s) == PyChar(p, s[0])
  {
    assert s[1..] == "";
  }

  lemma PyTwo(p: PyScan, s: string)
    requires |s| == 2
    ensures PyText(p, s) == PyChar(PyChar(p, s[0]), s[1])
  {
    PyOne(PyChar(p, s[0]), s[1..]);
  }

  lemma {:induction false} PyWord(p: PyScan, w: string)
    requires p.mode == Outside && !p.escaped
    requires forall i :: 0 <= i < |w| ==> WordChar(w[i])
    ensures PyText(p, w) == p
    decreases |w|
  {
    if w != "" {
      assert WordChar(w[0]);
      PyWord(p, w[1..]);
    }
  }

  /** The JSON scanner on the output and the Python scanner on the input stand at the same place. */
  predicate Agree(j: Scan, p: PyScan) {
    j.depth == p.depth && j.inString == (p.mode != Outside) && j.escaped == p.escaped
  }

  // ---------------------------------------------------------------------
  // Simulation: the scanners agree after every turn

  lemma ScanTwoChars(j: Scan, t: string)
    requires |t| == 2
    ensures ScanText(j, t) == ScanChar(ScanChar(j, t[0]), t[1])
  {
    assert t == [t[0]] + [t[1]];
    ScanSnoc(j, [t[0]], t[1]);
    ScanSnoc(j, "", t[0]);
    assert "" + [t[0]] == [t[0]];
  }

  lemma ScanOneChar(j: Scan, t: string)
    requires |t| == 1
    ensures ScanText(j, t) == ScanChar(j, t[0])
  {
    assert t == "" + [t[0]];
    ScanSnoc(j, "", t[0]);
  }

  lemma StepAgrees(lit: Literals, mode: Mode, atStart: bool, s: string, j: Scan, p: PyScan)
    requires Lawful(lit) && s != "" && p.mode == mode && !p.escaped && Agree(j, p)
    ensures var t := First(lit, mode, atStart, s);
            && Agree(ScanText(j, t.out), PyText(p, s[..t.len]))
            && PyText(p, s[..t.len]).mode == t.mode
            && (t.len < |s| ==> !PyText(p, s[..t.len]).escaped)
  {
    var t := First(lit, mode, atStart, s);
    if LiteralTurn(mode, atStart, s) && lit(s[..WordLen(s)]).Some? {
      WordAgrees(lit, s, j, p);
    } else {
      if t.len == 2 {
        PyTwo(p, s[..2]);
      } else {
        PyOne(p, s[..1]);
      }
      if |t.out| == 1 {
        ScanOneChar(j, t.out);
      } else {
        ScanTwoChars(j, t.out);
      }
    }
  }

  predicate LiteralTurn(mode: Mode, atStart: bool, s: string)
    requires s != ""
  {
    mode == Outside && LiteralStart(s[0]) && atStart
  }

  lemma WordAgrees(lit: Literals, s: string, j: Scan, p: PyScan)
    requires Lawful(lit) && p.mode == Outside && !p.escaped && Agree(j, p)
    requires s != "" && LiteralStart(s[0]) && lit(s[..WordLen(s)]).Some?
    ensures ScanText(j, lit(s[..WordLen(s)]).value) == j
    ensures PyText(p, s[..WordLen(s)]) == p
  {
    var w := s[..WordLen(s)];
    var js := lit(w).value;
    assert LawfulWord(lit, w);
    forall i | 0 <= i < |js| ensures Plain(js[i]) {
      assert 'a' <= js[i] <= 'z';
    }
    ScanPlain(j, js);
    WordExtent(s);
    PyWord(p, w);
  }

  /** From any point where the scanners agree they agree at the end of the output. */
  lemma {:induction false} RewriteAgrees(lit: Literals, mode: Mode, atStart: bool, s: string, j: Scan, p: PyScan)
    requires Lawful(lit) && p.mode == mode && !p.escaped && Agree(j, p)
    ensures Agree(ScanText(j, Rewrite(lit, mode, atStart, s)), PyText(p, s))
    decreases |s|
  {
    if s != "" {
      var t := First(lit, mode, atStart, s);
      var rest := s[t.len..];
      StepAgrees(lit, mode, atStart, s, j, p);
      var f := !WordChar(s[t.len - 1]);
      ScanConcat(j, t.out, Rewrite(lit, t.mode, f, rest));
      assert s == s[..t.len] + rest;
      PyConcat(p, s[..t.len], rest);
      if rest != "" {
        RewriteAgrees(lit, t.mode, f, rest, ScanText(j, t.out), PyText(p, s[..t.len]));
      }
    }
  }

  /** The output's brace depth is the input's, counted outside its own strings,
      and the output ends inside a string exactly when the input does. */
  lemma NormalizeBraces(input: string)
    ensures BraceDepth(Normalize(input)) == PyText(PY_START, input).depth
    ensures ScanText(START, Normalize(input)).inString <==> PyText(PY_START, input).mode != Outside
  {
    PythonTableLawful();
    RewriteAgrees(PythonWord, Outside, true, input, START, PY_START);
  }

  // ---------------------------------------------------------------------
  // The loop

  function ModeOf(inSingle: bool, inDouble: bool): Mode {
    if inSingle then Single else if inDouble then Double else Outside
  }

  predicate AtWordStart(input: string, i: nat)
    requires i <= |input|
  {
    i == 0 || !WordChar(input[i - 1])
  }

  /** One turn of the loop at position `i`: what to append, how far to go, and the new flags. */
  method Turn(lit: Literals, input: string, i: nat, inSingle: bool, inDouble: bool)
    returns (out: string, len: nat, nowSingle: bool, nowDouble: bool)
    requires i < |input| && !(inSingle && inDouble)
    ensures !(nowSingle && nowDouble)
    ensures Step(len, out, ModeOf(nowSingle, nowDouble))
         == First(lit, ModeOf(inSingle, inDouble), AtWordStart(input, i), input[i..])
  {
    nowSingle, nowDouble, len := inSingle, inDouble, 1;
    var c := input[i];
    if c == '\\' && i + 1 < |input| {
      var next := input[i + 1];
      if inSingle {
        len := 2;
        if next == '\'' {
          out := "'";
        } else if next == '"' {
          out := "\\\"";
        } else {
          out := [c, next];
        }
      } else if inDouble {
        len := 2;
        out := [c, next];
      } else {
        out := [c];
      }
    } else if c == '"' {
      if inSingle {
        out := "\\\"";
      } else {
        nowDouble := !inDouble;
        out := [c];
      }
    } else if c == '\'' {
      if inDouble {
        out := [c];
      } else {
        nowSingle := !inSingle;
        out := "\"";
      }
    } else if !inSingle && !inDouble && LiteralStart(c) && (i == 0 || !WordChar(input[i - 1])) {
      var n := 0;
      while i + n < |input| && WordChar(input[i + n])
        invariant i + n <= |input|
        invariant WordLen(input[i..]) == n + WordLen(input[i + n..])
      {
        assert input[i + n..][1..] == input[i + n + 1..];
        n := n + 1;
      }
      assert input[i..][..n] == input[i..i + n];
      match lit(input[i..i + n]) {
        case Some(js) => len, out := n, js;
        case None => out := [c];
      }
    } else {
      out := [c];
    }
  }

  /** The rewriting loop. Its invariant keeps the two scanners in step after every turn. */
  method NormalizeQuotes(input: string) returns (result: string)
    ensures result == Normalize(input)
  {
    PythonTableLawful();
    assert input[0..] == input;
    result := RewriteAll(PythonWord, input, Rewrite(PythonWord, Outside, true, input));
  }

  method RewriteAll(lit: Literals, input: string, ghost whole: string) returns (result: string)
    requires Lawful(lit) && LeftToWrite(lit, input, 0, "", Outside, whole)
    ensures result == whole
  {
    result := "";
    var inSingle, inDouble := false, false;
    var i := 0;
    while i < |input|
      invariant 0 <= i <= |input|
      invariant !(inSingle && inDouble)
      invariant LeftToWrite(lit, input, i, result, ModeOf(inSingle, inDouble), whole)
      invariant ScannersInStep(input[..i], result, ModeOf(inSingle, inDouble), i < |input|)
    {
      result, i, inSingle, inDouble := TakeTurn(lit, input, i, result, inSingle, inDouble, whole);
    }
    assert input[i..] == "";
  }

  /** One turn, with what it keeps. */
  method TakeTurn(lit: Literals, input: string, i: nat, result: string, inSingle: bool, inDouble: bool, ghost whole: string)
    returns (result': string, i': nat, nowSingle: bool, nowDouble: bool)
    requires Lawful(lit) && i < |input| && !(inSingle && inDouble)
    requires LeftToWrite(lit, input, i, result, ModeOf(inSingle, inDouble), whole)
    requires ScannersInStep(input[..i], result, ModeOf(inSingle, inDouble), true)
    ensures i < i' <= |input| && !(nowSingle && nowDouble)
    ensures LeftToWrite(lit, input, i', result', ModeOf(nowSingle, nowDouble), whole)
    ensures ScannersInStep(input[..i'], result', ModeOf(nowSingle, nowDouble), i' < |input|)
  {
    TurnOfLoop(lit, input, i, result, ModeOf(inSingle, inDouble), whole);
    ScannersTurn(lit, input, i, result, ModeOf(inSingle, inDouble));
    var out, len;
    out, len, nowSingle, nowDouble := Turn(lit, input, i, inSingle, inDouble);
    result', i' := result + out, i + len;
  }

  /** `whole` is what has been written and what the rest of the input still gives. */
  predicate LeftToWrite(lit: Literals, input: string, i: nat, result: string, mode: Mode, whole: string)
    requires i <= |input|
  {
    whole == result + Rewrite(lit, mode, AtWordStart(input, i), input[i..])
  }

  predicate ScannersInStep(taken: string, result: string, mode: Mode, more: bool) {
    var p := PyText(PY_START, taken);
    Agree(ScanText(START, result), p) && p.mode == mode && (more ==> !p.escaped)
  }

  lemma TurnOfLoop(lit: Literals, input: string, i: nat, result: string, mode: Mode, whole: string)
    requires i < |input| && LeftToWrite(lit, input, i, result, mode, whole)
    ensures var t := First(lit, mode, AtWordStart(input, i), input[i..]);
            LeftToWrite(lit, input, i + t.len, result + t.out, t.mode, whole)
  {
    var s := input[i..];
    var t := First(lit, mode, AtWordStart(input, i), s);
    var k := i + t.len;
    assert s[t.len..] == input[k..];
    assert s[t.len - 1] == input[k - 1];
    var rest := Rewrite(lit, t.mode, AtWordStart(input, k), input[k..]);
    assert result + (t.out + rest) == result + t.out + rest;
  }

  lemma ScannersTurn(lit: Literals, input: string, i: nat, result: string, mode: Mode)
    requires Lawful(lit) && i < |input| && ScannersInStep(input[..i], result, mode, true)
    ensures var t := First(lit, mode, AtWordStart(input, i), input[i..]);
            ScannersInStep(input[..i + t.len], result + t.out, t.mode, i + t.len < |input|)
  {
    var s := input[i..];
    var t := First(lit, mode, AtWordStart(input, i), s);
    StepAgrees(lit, mode, AtWordStart(input, i), s, ScanText(START, result), PyText(PY_START, input[..i]));
    ScanConcat(START, result, t.out);
    assert input[..i + t.len] == input[..i] + s[..t.len];
    PyConcat(PY_START, input[..i], s[..t.len]);
  }
}
