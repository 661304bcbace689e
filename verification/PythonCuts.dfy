/** Rewriting twice changes nothing, and exactly which cuts of the input give a prefix of the output. */
module PythonCuts {
  import opened Basics
  import opened JsonText
  import opened PythonLiterals

  // ---------------------------------------------------------------------
  // Words outside strings

  /** A turn that writes what it reads leaves it alone. */
  lemma CopiedTurn(lit: Literals, mode: Mode, atStart: bool, out: string, rest: string, next: Mode)
    requires out != "" && First(lit, mode, atStart, out + rest) == Step(|out|, out, next)
    ensures Rewrite(lit, mode, atStart, out + rest) == out + Rewrite(lit, next, !WordChar(out[|out| - 1]), rest)
  {
    assert (out + rest)[|out|..] == rest;
  }

  lemma WordCharTurn(lit: Literals, s: string)
    requires s != "" && WordChar(s[0])
    ensures Rewrite(lit, Outside, false, s) == [s[0]] + Rewrite(lit, Outside, false, s[1..])
  {
    assert First(lit, Outside, false, s) == Step(1, [s[0]], Outside);
  }

  lemma JoinFirst(s: string, n: nat, r: string)
    requires 0 < n <= |s|
    ensures [s[0]] + (s[1..][..n - 1] + r) == s[..n] + r
  {
  }

  /** Characters of a word that has already started are copied. */
  lemma {:induction false} WordCopied(lit: Literals, s: string, n: nat)
    requires n <= |s| && forall i :: 0 <= i < n ==> WordChar(s[i])
    ensures Rewrite(lit, Outside, false, s) == s[..n] + Rewrite(lit, Outside, false, s[n..])
    decreases n
  {
    if n == 0 {
      assert s[0..] == s && s[..0] == "";
    } else {
      WordCharTurn(lit, s);
      WordCopied(lit, s[1..], n - 1);
      assert s[1..][n - 1..] == s[n..];
      JoinFirst(s, n, Rewrite(lit, Outside, false, s[n..]));
    }
  }

  /** A text whose first character is not a word character is rewritten to such a text. */
  lemma BoundaryKept(lit: Literals, v: string)
    requires v != "" && !WordChar(v[0])
    ensures Rewrite(lit, Outside, false, v) != "" && !WordChar(Rewrite(lit, Outside, false, v)[0])
  {
    var t := First(lit, Outside, false, v);
    assert t.out != "" && !WordChar(t.out[0]);
  }

  /** Rewriting the rest of a word keeps its extent and its text. */
  lemma WordKept(lit: Literals, u: string)
    ensures var r := Rewrite(lit, Outside, false, u);
            WordLen(r) == WordLen(u) && r[..WordLen(u)] == u[..WordLen(u)]
  {
    var n := WordLen(u);
    var w, v := u[..n], u[n..];
    WordExtent(u);
    WordCopied(lit, u, n);
    if v != "" {
      BoundaryKept(lit, v);
    }
    WordLenIs(w, Rewrite(lit, Outside, false, v));
  }

  lemma {:induction false} WordLenIs(w: string, v: string)
    requires forall i :: 0 <= i < |w| ==> WordChar(w[i])
    requires v == "" || !WordChar(v[0])
    ensures WordLen(w + v) == |w|
  {
    if w == "" {
      assert w + v == v;
    } else {
      assert (w + v)[1..] == w[1..] + v;
      WordLenIs(w[1..], v);
    }
  }

  lemma WordLenCut(s: string, k: nat)
    requires k <= |s|
    ensures WordLen(s[..k]) == if k <= WordLen(s) then k else WordLen(s)
  {
    var n := WordLen(s);
    WordExtent(s);
    if k <= n {
      assert s[..k] + "" == s[..k];
      WordLenIs(s[..k], "");
    } else {
      assert s[..k] == s[..n] + s[n..k];
      WordLenIs(s[..n], s[n..k]);
    }
  }

  // ---------------------------------------------------------------------
  // Rewriting is idempotent

  function JsonMode(mode: Mode): Mode {
    if mode == Outside then Outside else Double
  }

  lemma LetterTurn(lit: Literals, atStart: bool, c: char, rest: string)
    requires 'a' <= c <= 'z'
    ensures First(lit, Outside, atStart, [c] + rest) == Step(1, [c], Outside)
  {
  }

  lemma LetterCopied(lit: Literals, atStart: bool, c: char, rest: string)
    requires 'a' <= c <= 'z'
    ensures Rewrite(lit, Outside, atStart, [c] + rest) == [c] + Rewrite(lit, Outside, false, rest)
  {
    LetterTurn(lit, atStart, c, rest);
    CopiedTurn(lit, Outside, atStart, [c], rest, Outside);
  }

  lemma CopyJoined(js: string, whole: string, more: string, r: string)
    requires js != "" && whole == [js[0]] + more && more == js[1..] + r
    ensures whole == js + r
  {
  }

  /** Lower-case letters outside strings are copied. */
  lemma {:induction false} LettersCopied(lit: Literals, atStart: bool, js: string, rest: string)
    requires js != "" && forall i :: 0 <= i < |js| ==> 'a' <= js[i] <= 'z'
    ensures Rewrite(lit, Outside, atStart, js + rest) == js + Rewrite(lit, Outside, false, rest)
    decreases |js|, 0
  {
    var more := js[1..] + rest;
    assert js + rest == [js[0]] + more;
    LetterCopied(lit, atStart, js[0], more);
    MoreCopied(lit, js[1..], rest, more);
    CopyJoined(js, Rewrite(lit, Outside, atStart, js + rest), Rewrite(lit, Outside, false, more), Rewrite(lit, Outside, false, rest));
  }

  lemma {:induction false} MoreCopied(lit: Literals, js: string, rest: string, more: string)
    requires (forall i :: 0 <= i < |js| ==> 'a' <= js[i] <= 'z') && more == js + rest
    ensures Rewrite(lit, Outside, false, more) == js + Rewrite(lit, Outside, false, rest)
    decreases |js|, 1
  {
    if js == "" {
      assert more == rest;
    } else {
      LettersCopied(lit, false, js, rest);
    }
  }

  /** What a turn wrote, followed by anything, is taken again in one turn and copied. */
  lemma OutputTurn(lit: Literals, mode: Mode, atStart: bool, s: string, rest: string)
    requires s != "" && !LiteralTurn(mode, atStart, s) && (|s| == 1 ==> rest == "")
    ensures var t := First(lit, mode, atStart, s);
            && t.out != ""
            && First(lit, JsonMode(mode), atStart, t.out + rest) == Step(|t.out|, t.out, JsonMode(t.mode))
            && WordChar(t.out[|t.out| - 1]) == WordChar(s[t.len - 1])
  {
    var t := First(lit, mode, atStart, s);
    var u := t.out + rest;
    assert u[0] == t.out[0];
    assert |t.out| == 2 ==> u[1] == t.out[1];
  }

  /** Rewriting what one turn wrote, in front of a rest that rewriting leaves alone. */
  lemma TurnAgain(lit: Literals, mode: Mode, atStart: bool, s: string, rest: string)
    requires s != "" && !LiteralTurn(mode, atStart, s) && (|s| == 1 ==> rest == "")
    requires var t := First(lit, mode, atStart, s);
             Rewrite(lit, JsonMode(t.mode), !WordChar(s[t.len - 1]), rest) == rest
    ensures var t := First(lit, mode, atStart, s);
            Rewrite(lit, JsonMode(mode), atStart, t.out + rest) == t.out + rest
  {
    var t := First(lit, mode, atStart, s);
    OutputTurn(lit, mode, atStart, s, rest);
    CopiedTurn(lit, JsonMode(mode), atStart, t.out, rest, JsonMode(t.mode));
  }

  /** A word that is no literal is copied again when the rest of itself follows. */
  lemma ForeignAgain(lit: Literals, s: string, rest: string)
    requires s != "" && LiteralStart(s[0]) && lit(s[..WordLen(s)]).None?
    requires var w := [s[0]] + rest; w[..WordLen(w)] == s[..WordLen(s)]
    requires Rewrite(lit, Outside, false, rest) == rest
    ensures Rewrite(lit, Outside, true, [s[0]] + rest) == [s[0]] + rest
  {
    var w := [s[0]] + rest;
    ForeignTurn(lit, w);
    assert w[1..] == rest;
  }

  lemma LiteralAgain(lit: Literals, s: string, rest: string)
    requires Lawful(lit) && s != "" && LiteralStart(s[0]) && lit(s[..WordLen(s)]).Some?
    requires Rewrite(lit, Outside, false, rest) == rest
    ensures var js := lit(s[..WordLen(s)]).value;
            Rewrite(lit, Outside, true, js + rest) == js + rest
  {
    assert LawfulWord(lit, s[..WordLen(s)]);
    LettersCopied(lit, true, lit(s[..WordLen(s)]).value, rest);
  }

  lemma {:induction false} RewriteAgain(lit: Literals, mode: Mode, atStart: bool, s: string)
    requires Lawful(lit)
    ensures Rewrite(lit, JsonMode(mode), atStart, Rewrite(lit, mode, atStart, s)) == Rewrite(lit, mode, atStart, s)
    decreases |s|
  {
    if s != "" {
      if LiteralTurn(mode, atStart, s) {
        WordAgain(lit, s);
      } else {
        OtherAgain(lit, mode, atStart, s);
      }
    }
  }

  lemma {:induction false} OtherAgain(lit: Literals, mode: Mode, atStart: bool, s: string)
    requires Lawful(lit) && s != "" && !LiteralTurn(mode, atStart, s)
    ensures Rewrite(lit, JsonMode(mode), atStart, Rewrite(lit, mode, atStart, s)) == Rewrite(lit, mode, atStart, s)
    decreases |s|, 0
  {
    var t := First(lit, mode, atStart, s);
    var f := !WordChar(s[t.len - 1]);
    RewriteAgain(lit, t.mode, f, s[t.len..]);
    TurnAgain(lit, mode, atStart, s, Rewrite(lit, t.mode, f, s[t.len..]));
  }

  lemma {:induction false} WordAgain(lit: Literals, s: string)
    requires Lawful(lit) && s != "" && LiteralStart(s[0])
    ensures Rewrite(lit, Outside, true, Rewrite(lit, Outside, true, s)) == Rewrite(lit, Outside, true, s)
    decreases |s|, 0
  {
    var n := WordLen(s);
    if lit(s[..n]).Some? {
      LeadingLiteral(lit, s);
      RewriteAgain(lit, Outside, false, s[n..]);
      LiteralAgain(lit, s, Rewrite(lit, Outside, false, s[n..]));
    } else {
      ForeignTurn(lit, s);
      RewriteAgain(lit, Outside, false, s[1..]);
      ForeignWordAgain(lit, s);
      ForeignAgain(lit, s, Rewrite(lit, Outside, false, s[1..]));
    }
  }

  lemma SameFirstWord(s: string, r: string, w: string)
    requires s != "" && WordChar(s[0]) && w == [s[0]] + r
    requires WordLen(r) == WordLen(s[1..]) && r[..WordLen(r)] == s[1..][..WordLen(r)]
    ensures w[..WordLen(w)] == s[..WordLen(s)]
  {
    var n := WordLen(r);
    assert w[1..] == r;
    assert w[..n + 1] == [s[0]] + r[..n];
    assert s[..n + 1] == [s[0]] + s[1..][..n];
  }

  lemma ForeignWordAgain(lit: Literals, s: string)
    requires s != "" && WordChar(s[0])
    ensures var w := [s[0]] + Rewrite(lit, Outside, false, s[1..]);
            w[..WordLen(w)] == s[..WordLen(s)]
  {
    WordKept(lit, s[1..]);
    var r := Rewrite(lit, Outside, false, s[1..]);
    SameFirstWord(s, r, [s[0]] + r);
  }

  /** JSON text made by the rewriting is left as it is by rewriting it again. */
  lemma NormalizeTwice(input: string)
    ensures Normalize(Normalize(input)) == Normalize(input)
  {
    PythonTableLawful();
    RewriteAgain(PythonWord, Outside, true, input);
  }

  // ---------------------------------------------------------------------
  // Cutting the input short

  /** The cut separates a backslash from the single quote it escapes in a single-quoted string. */
  predicate SplitsEscapedQuote(p: PyScan, s: string, k: nat)
    requires k <= |s|
  {
    k < |s| && s[k] == '\'' && var q := PyText(p, s[..k]); q.mode == Single && q.escaped
  }

  /** The bare word that starts at `j` is no literal, but cut at `k` it looks like the start of one. */
  predicate ForeignWordAt(lit: Literals, p: PyScan, atStart: bool, s: string, j: nat, k: nat)
    requires k <= |s|
  {
    && j < k < |s|
    && (if j == 0 then atStart else !WordChar(s[j - 1]))
    && PyText(p, s[..j]).mode == Outside
    && k < j + WordLen(s[j..])
    && lit(s[j..k]).Some?
    && lit(s[j..][..WordLen(s[j..])]).None?
  }

  ghost predicate SplitsForeignWord(lit: Literals, p: PyScan, atStart: bool, s: string, k: nat)
    requires k <= |s|
  {
    exists j: nat :: ForeignWordAt(lit, p, atStart, s, j, k)
  }

  lemma PyTail(p: PyScan, s: string, n: nat, k: nat)
    requires n <= k <= |s|
    ensures PyText(p, s[..k]) == PyText(PyText(p, s[..n]), s[n..][..k - n])
  {
    assert s[..k] == s[..n] + s[n..][..k - n];
    PyConcat(p, s[..n], s[n..][..k - n]);
  }

  lemma QuoteLater(p: PyScan, s: string, n: nat, k: nat)
    requires n <= k <= |s|
    ensures SplitsEscapedQuote(p, s, k) == SplitsEscapedQuote(PyText(p, s[..n]), s[n..], k - n)
  {
    PyTail(p, s, n, k);
  }

  lemma WordLater(lit: Literals, p: PyScan, atStart: bool, s: string, n: nat, j: nat, k: nat)
    requires 0 < n <= j && n <= k <= |s|
    ensures ForeignWordAt(lit, p, atStart, s, j, k)
         == ForeignWordAt(lit, PyText(p, s[..n]), !WordChar(s[n - 1]), s[n..], j - n, k - n)
  {
    if j < k < |s| {
      PyTail(p, s, n, j);
      assert s[n..][j - n..] == s[j..];
      assert s[n..][j - n..k - n] == s[j..k];
      assert j > n ==> s[n..][j - n - 1] == s[j - 1];
    }
  }

  /** When no bad word starts in the first `n` characters, the question passes to the rest. */
  lemma WordsLater(lit: Literals, p: PyScan, atStart: bool, s: string, n: nat, k: nat)
    requires 0 < n <= k <= |s|
    requires forall j: nat :: j < n ==> !ForeignWordAt(lit, p, atStart, s, j, k)
    ensures SplitsForeignWord(lit, p, atStart, s, k)
       <==> SplitsForeignWord(lit, PyText(p, s[..n]), !WordChar(s[n - 1]), s[n..], k - n)
  {
    var q, f := PyText(p, s[..n]), !WordChar(s[n - 1]);
    var r, m := s[n..], k - n;
    forall j: nat | n <= j
      ensures ForeignWordAt(lit, p, atStart, s, j, k) == ForeignWordAt(lit, q, f, r, j - n, m)
    {
      WordLater(lit, p, atStart, s, n, j, k);
    }
    WitnessMoves(lit, p, atStart, s, k, q, f, r, m, n);
  }

  lemma WitnessMoves(lit: Literals, p: PyScan, a: bool, s: string, k: nat, q: PyScan, f: bool, r: string, m: nat, n: nat)
    requires k <= |s| && m <= |r|
    requires forall j: nat :: j < n ==> !ForeignWordAt(lit, p, a, s, j, k)
    requires forall j: nat :: n <= j ==> ForeignWordAt(lit, p, a, s, j, k) == ForeignWordAt(lit, q, f, r, j - n, m)
    ensures SplitsForeignWord(lit, p, a, s, k) <==> SplitsForeignWord(lit, q, f, r, m)
  {
    if SplitsForeignWord(lit, p, a, s, k) {
      var j: nat :| ForeignWordAt(lit, p, a, s, j, k);
      assert ForeignWordAt(lit, q, f, r, j - n, m);
    }
    if SplitsForeignWord(lit, q, f, r, m) {
      var j: nat :| ForeignWordAt(lit, q, f, r, j, m);
      assert ForeignWordAt(lit, p, a, s, j + n, k);
    }
  }

  /** Apart from words, a turn depends on the first two characters only. */
  lemma TurnByTwo(lit: Literals, mode: Mode, atStart: bool, s: string, c: string)
    requires s != "" && c != "" && c[0] == s[0] && !LiteralTurn(mode, atStart, s)
    requires s[0] == '\\' && mode != Outside ==> (|s| > 1 <==> |c| > 1) && (|s| > 1 ==> s[1] == c[1])
    ensures First(lit, mode, atStart, c) == First(lit, mode, atStart, s)
  {
  }

  /** At a word led by T, F or N a turn depends on that word only. */
  lemma TurnByWord(lit: Literals, s: string, c: string)
    requires s != "" && c != "" && c[0] == s[0] && LiteralStart(s[0])
    requires WordLen(s) == WordLen(c) && s[..WordLen(s)] == c[..WordLen(c)]
    ensures First(lit, Outside, true, c) == First(lit, Outside, true, s)
  {
  }

  lemma EscapeLen(lit: Literals, mode: Mode, atStart: bool, s: string)
    requires |s| > 1 && s[0] == '\\' && mode != Outside
    ensures First(lit, mode, atStart, s).len == 2
  {
  }

  /** The cut falls past the first turn, so the first turn is the same. */
  lemma SameTurn(lit: Literals, mode: Mode, atStart: bool, s: string, k: nat)
    requires s != "" && First(lit, mode, atStart, s).len <= k <= |s|
    requires LiteralTurn(mode, atStart, s) ==> WordLen(s) <= k
    ensures s[..k] != "" && First(lit, mode, atStart, s[..k]) == First(lit, mode, atStart, s)
  {
    hide First, WordLen;
    if LiteralTurn(mode, atStart, s) {
      SameWordTurn(lit, s, k);
    } else {
      if |s| > 1 && s[0] == '\\' && mode != Outside {
        EscapeLen(lit, mode, atStart, s);
      }
      TurnByTwo(lit, mode, atStart, s, s[..k]);
    }
  }

  lemma SameWordTurn(lit: Literals, s: string, k: nat)
    requires s != "" && LiteralStart(s[0]) && WordLen(s) <= k <= |s|
    ensures s[..k] != "" && First(lit, Outside, true, s[..k]) == First(lit, Outside, true, s)
  {
    var c := s[..k];
    WordLenCut(s, k);
    assert c[..WordLen(s)] == s[..WordLen(s)];
    TurnByWord(lit, s, c);
  }

  function WordText(lit: Literals, w: string): string {
    match lit(w) case Some(js) => js case None => w
  }

  /** What rewriting gives for a text that starts with a word led by T, F or N. */
  lemma LeadingWord(lit: Literals, s: string)
    requires s != "" && LiteralStart(s[0])
    ensures Rewrite(lit, Outside, true, s) == WordText(lit, s[..WordLen(s)]) + Rewrite(lit, Outside, false, s[WordLen(s)..])
  {
    if lit(s[..WordLen(s)]).None? {
      LeadingForeignWord(lit, s);
    } else {
      LeadingLiteral(lit, s);
    }
  }

  lemma LeadingLiteral(lit: Literals, s: string)
    requires s != "" && LiteralStart(s[0]) && lit(s[..WordLen(s)]).Some?
    ensures Rewrite(lit, Outside, true, s)
         == lit(s[..WordLen(s)]).value + Rewrite(lit, Outside, false, s[WordLen(s)..])
  {
    WordExtent(s);
    assert First(lit, Outside, true, s) == Step(WordLen(s), lit(s[..WordLen(s)]).value, Outside);
  }

  lemma LeadingForeignWord(lit: Literals, s: string)
    requires s != "" && LiteralStart(s[0]) && lit(s[..WordLen(s)]).None?
    ensures Rewrite(lit, Outside, true, s) == s[..WordLen(s)] + Rewrite(lit, Outside, false, s[WordLen(s)..])
  {
    var n := WordLen(s);
    WordExtent(s);
    ForeignTurn(lit, s);
    WordCopied(lit, s[1..], n - 1);
    assert s[1..][n - 1..] == s[n..];
    JoinFirst(s, n, Rewrite(lit, Outside, false, s[n..]));
  }

  lemma ForeignTurn(lit: Literals, s: string)
    requires s != "" && LiteralStart(s[0]) && lit(s[..WordLen(s)]).None?
    ensures Rewrite(lit, Outside, true, s) == [s[0]] + Rewrite(lit, Outside, false, s[1..])
  {
    assert First(lit, Outside, true, s) == Step(1, [s[0]], Outside);
  }

  /** A cut inside a leading word led by T, F or N. */
  lemma WordCut(lit: Literals, s: string, k: nat)
    requires Lawful(lit)
    requires s != "" && LiteralStart(s[0]) && 0 < k < WordLen(s)
    ensures Rewrite(lit, Outside, true, s[..k]) <= Rewrite(lit, Outside, true, s)
       <==> (lit(s[..k]).None? || lit(s[..WordLen(s)]).Some?)
  {
    var n := WordLen(s);
    var w, c := s[..n], s[..k];
    assert w[..k] == c;
    assert lit(w).Some? ==> LawfulWord(lit, w);
    LeadingWord(lit, s);
    WordLenCut(s, k);
    LeadingWord(lit, c);
    assert c[..k] == c && c[k..] == "";
    var cut, full := Rewrite(lit, Outside, true, c), Rewrite(lit, Outside, true, s);
    assert Rewrite(lit, Outside, false, c[k..]) == "";
    if lit(c).Some? {
      assert cut == lit(c).value;
      assert LawfulWord(lit, c);
      if lit(w).None? {
        assert 'a' <= cut[0] <= 'z' && full[0] == s[0];
      }
    } else {
      assert cut == c;
    }
  }

  lemma WordCutSplits(lit: Literals, p: PyScan, s: string, k: nat)
    requires p.mode == Outside && !p.escaped
    requires s != "" && LiteralStart(s[0]) && 0 < k < WordLen(s)
    ensures !SplitsEscapedQuote(p, s, k)
    ensures SplitsForeignWord(lit, p, true, s, k)
       <==> lit(s[..k]).Some? && lit(s[..WordLen(s)]).None?
  {
    WordExtent(s);
    PyWord(p, s[..k]);
    assert s[0..] == s && s[0..k] == s[..k];
    assert PyText(p, s[..0]) == p;
    assert ForeignWordAt(lit, p, true, s, 0, k) <==> lit(s[..k]).Some? && lit(s[..WordLen(s)]).None?;
    forall j | 0 < j < k ensures !ForeignWordAt(lit, p, true, s, j, k) {
    }
  }

  /** A cut between a backslash in a string and what it escapes. */
  lemma EscapeCut(lit: Literals, mode: Mode, atStart: bool, s: string, p: PyScan)
    requires p.mode == mode && !p.escaped
    requires |s| > 1 && First(lit, mode, atStart, s).len == 2 && !LiteralTurn(mode, atStart, s)
    ensures Rewrite(lit, mode, atStart, s[..1]) <= Rewrite(lit, mode, atStart, s)
       <==> !SplitsEscapedQuote(p, s, 1)
    ensures !SplitsForeignWord(lit, p, atStart, s, 1)
  {
    var t := First(lit, mode, atStart, s);
    assert s[0] == '\\' && mode != Outside;
    PyOne(p, s[..1]);
    var cut := s[..1];
    assert First(lit, mode, atStart, cut) == Step(1, "\\", mode);
    assert cut[1..] == "";
    assert Rewrite(lit, mode, atStart, cut) == "\\" + "";
    assert Rewrite(lit, mode, atStart, s)[0] == t.out[0];
    forall j | 0 <= j < 1 ensures !ForeignWordAt(lit, p, atStart, s, j, 1) {
      assert s[..0] == "";
    }
  }

  /** No bare word that the first turn takes is split by a cut behind that turn. */
  lemma NoWordInTurn(lit: Literals, mode: Mode, atStart: bool, s: string, k: nat, p: PyScan)
    requires Lawful(lit) && p.mode == mode && !p.escaped
    requires s != "" && First(lit, mode, atStart, s).len <= k <= |s|
    requires LiteralTurn(mode, atStart, s) ==> WordLen(s) <= k
    ensures forall j: nat :: j < First(lit, mode, atStart, s).len ==> !ForeignWordAt(lit, p, atStart, s, j, k)
  {
    var t := First(lit, mode, atStart, s);
    WordExtent(s);
    forall j: nat | j < t.len ensures !ForeignWordAt(lit, p, atStart, s, j, k) {
      if j == 0 {
        assert s[0..] == s && s[..0] == "";
        assert lit(s[0..k]).Some? ==> LawfulWord(lit, s[0..k]);
      } else if LiteralTurn(mode, atStart, s) {
        assert WordChar(s[j - 1]);
      } else {
        assert j == 1 && t.len == 2;
        PyOne(p, s[..1]);
      }
    }
  }

  lemma SamePrefix(a: string, x: string, y: string)
    ensures a + x <= a + y <==> x <= y
  {
    if a + x <= a + y {
      assert x == (a + x)[|a|..] && y == (a + y)[|a|..];
      assert forall i :: 0 <= i < |x| ==> x[i] == (a + x)[|a| + i] && y[i] == (a + y)[|a| + i];
    }
  }

  lemma {:induction false} CutFrom(lit: Literals, mode: Mode, atStart: bool, s: string, k: nat, p: PyScan)
    requires Lawful(lit) && k <= |s| && p.mode == mode && !p.escaped
    ensures Rewrite(lit, mode, atStart, s[..k]) <= Rewrite(lit, mode, atStart, s)
       <==> !SplitsEscapedQuote(p, s, k) && !SplitsForeignWord(lit, p, atStart, s, k)
    decreases |s|
  {
    hide WordLen, WordChar;
    if k == |s| {
      assert s[..k] == s;
    } else if k == 0 {
      assert s[..0] == "" && Rewrite(lit, mode, atStart, s[..0]) == "";
      assert PyText(p, s[..0]) == p;
    } else if LiteralTurn(mode, atStart, s) && k < WordLen(s) {
      WordCut(lit, s, k);
      WordCutSplits(lit, p, s, k);
    } else if k < First(lit, mode, atStart, s).len {
      EscapeCut(lit, mode, atStart, s, p);
    } else {
      CutLater(lit, mode, atStart, s, k, p);
    }
  }

  lemma {:induction false} CutLater(lit: Literals, mode: Mode, atStart: bool, s: string, k: nat, p: PyScan)
    requires Lawful(lit) && p.mode == mode && !p.escaped
    requires s != "" && First(lit, mode, atStart, s).len <= k < |s|
    requires LiteralTurn(mode, atStart, s) ==> WordLen(s) <= k
    ensures Rewrite(lit, mode, atStart, s[..k]) <= Rewrite(lit, mode, atStart, s)
       <==> !SplitsEscapedQuote(p, s, k) && !SplitsForeignWord(lit, p, atStart, s, k)
    decreases |s|, 0
  {
    var t := First(lit, mode, atStart, s);
    StepAgrees(lit, mode, atStart, s, Scan(p.depth, mode != Outside, false), p);
    CutFrom(lit, t.mode, !WordChar(s[t.len - 1]), s[t.len..], k - t.len, PyText(p, s[..t.len]));
    SameTurn(lit, mode, atStart, s, k);
    SplitsLater(lit, mode, atStart, s, k, p);
    CutBehind(lit, mode, atStart, s, k, p, t);
  }

  /** The answer for the rest of the text behind the first turn is the answer for the text. */
  lemma CutBehind(lit: Literals, mode: Mode, atStart: bool, s: string, k: nat, p: PyScan, t: Step)
    requires 0 < t.len <= k <= |s|
    requires First(lit, mode, atStart, s) == t && First(lit, mode, atStart, s[..k]) == t
    requires var f, q := !WordChar(s[t.len - 1]), PyText(p, s[..t.len]);
             && SplitsEscapedQuote(p, s, k) == SplitsEscapedQuote(q, s[t.len..], k - t.len)
             && SplitsForeignWord(lit, p, atStart, s, k) == SplitsForeignWord(lit, q, f, s[t.len..], k - t.len)
             && (Rewrite(lit, t.mode, f, s[t.len..][..k - t.len]) <= Rewrite(lit, t.mode, f, s[t.len..])
                 <==> !SplitsEscapedQuote(q, s[t.len..], k - t.len) && !SplitsForeignWord(lit, q, f, s[t.len..], k - t.len))
    ensures Rewrite(lit, mode, atStart, s[..k]) <= Rewrite(lit, mode, atStart, s)
       <==> !SplitsEscapedQuote(p, s, k) && !SplitsForeignWord(lit, p, atStart, s, k)
  {
    OutputLater(lit, mode, atStart, s, k, t);
  }

  lemma OutputLater(lit: Literals, mode: Mode, atStart: bool, s: string, k: nat, t: Step)
    requires 0 < t.len <= k <= |s|
    requires First(lit, mode, atStart, s) == t && First(lit, mode, atStart, s[..k]) == t
    ensures var f := !WordChar(s[t.len - 1]);
            (Rewrite(lit, mode, atStart, s[..k]) <= Rewrite(lit, mode, atStart, s)
             <==> Rewrite(lit, t.mode, f, s[t.len..][..k - t.len]) <= Rewrite(lit, t.mode, f, s[t.len..]))
  {
    var f, rest := !WordChar(s[t.len - 1]), s[t.len..];
    assert s[..k][t.len..] == rest[..k - t.len];
    SamePrefix(t.out, Rewrite(lit, t.mode, f, rest[..k - t.len]), Rewrite(lit, t.mode, f, rest));
  }

  lemma SplitsLater(lit: Literals, mode: Mode, atStart: bool, s: string, k: nat, p: PyScan)
    requires Lawful(lit) && p.mode == mode && !p.escaped
    requires s != "" && First(lit, mode, atStart, s).len <= k <= |s|
    requires LiteralTurn(mode, atStart, s) ==> WordLen(s) <= k
    ensures var n := First(lit, mode, atStart, s).len;
            var f, q := !WordChar(s[n - 1]), PyText(p, s[..n]);
            && SplitsEscapedQuote(p, s, k) == SplitsEscapedQuote(q, s[n..], k - n)
            && SplitsForeignWord(lit, p, atStart, s, k) == SplitsForeignWord(lit, q, f, s[n..], k - n)
  {
    var n := First(lit, mode, atStart, s).len;
    NoWordInTurn(lit, mode, atStart, s, k, p);
    QuoteLater(p, s, n, k);
    WordsLater(lit, p, atStart, s, n, k);
  }

  /** The cut splits neither an escaped quote nor a bare word that only looks like a literal. */
  ghost predicate CleanCut(input: string, k: nat)
    requires k <= |input|
  {
    && !SplitsEscapedQuote(PY_START, input, k)
    && !SplitsForeignWord(PythonWord, PY_START, true, input, k)
  }

  /** The output of a cut input is a prefix of the whole output exactly when the cut is clean. */
  lemma CutExact(input: string, k: nat)
    requires k <= |input|
    ensures Normalize(input[..k]) <= Normalize(input) <==> CleanCut(input, k)
  {
    PythonTableLawful();
    CutFrom(PythonWord, Outside, true, input, k, PY_START);
  }

  /** Both conditions are needed: `'\'` cut after its backslash, and `Tree` cut after its first letter. */
  lemma CutCanShrink()
    ensures !(Normalize("'\\'"[..2]) <= Normalize("'\\'"))
    ensures !(Normalize("Tree"[..1]) <= Normalize("Tree"))
  {
    EscapedQuoteShrinks("'\\'");
    ForeignWordShrinks("Tree");
  }

  lemma EscapedQuoteShrinks(q: string)
    requires q == "'\\'"
    ensures !(Normalize(q[..2]) <= Normalize(q))
  {
    CutExact(q, 2);
    PyTwo(PY_START, q[..2]);
    assert SplitsEscapedQuote(PY_START, q, 2);
  }

  lemma ForeignWordShrinks(w: string)
    requires w == "Tree"
    ensures !(Normalize(w[..1]) <= Normalize(w))
  {
    CutExact(w, 1);
    assert w[0..] == w && w[0..1] == "T" && w[..0] == "";
    assert w + "" == w && WordLen(w) == 4 by {
      WordLenIs(w, "");
    }
    assert w[..4] == w;
    assert w[2] == 'e' && Substr("True", 4)[2] == 'u';
    assert w[0] == 'T' && Substr("False", 4)[0] == 'F' && Substr("None", 4)[0] == 'N';
    assert Substr("True", 1) == "T";
    assert ForeignWordAt(PythonWord, PY_START, true, w, 0, 1);
  }
}
