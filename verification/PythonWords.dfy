/** Words outside strings, as the rewriting of Python literals treats them. */
module PythonWords {

  import opened Basics
  import opened PythonLiterals
  import opened PythonValues

  /** A letter, a digit or an underscore. */
  predicate InWord(c: char) {
    c in NUMERALS || c in CAPITALS || c in SMALLS || c == '_'
  }

  predicate Word(w: string) {
    w != "" && forall i :: 0 <= i < |w| ==> InWord(w[i])
  }

  predicate Ended(rest: string) {
    rest == "" || !InWord(rest[0])
  }

  /** The word may become one of the three. */
  predicate Begins(w: string) {
    w <= "True" || w <= "False" || w <= "None"
  }

  lemma WordCharIs(c: char)
    ensures InWord(c) <==> WordChar(c)
  {
    hide InWord, WordChar;
    if WordChar(c) {
      WordCharFound(c);
    }
    if InWord(c) {
      FoundWordChar(c);
    }
  }

  lemma WordCharFound(c: char)
    requires WordChar(c)
    ensures InWord(c)
  {
    if '0' <= c <= '9' {
      InOrder(c as nat - '0' as nat);
    } else if 'A' <= c <= 'Z' {
      InOrder(c as nat - 'A' as nat);
    } else if 'a' <= c <= 'z' {
      InOrder(c as nat - 'a' as nat);
    }
  }

  lemma FoundWordChar(c: char)
    requires InWord(c)
    ensures WordChar(c)
  {
    if v :| 0 <= v < |NUMERALS| && c == NUMERALS[v] {
      InOrder(v);
    } else if v :| 0 <= v < |CAPITALS| && c == CAPITALS[v] {
      InOrder(v);
    } else if v :| 0 <= v < |SMALLS| && c == SMALLS[v] {
      InOrder(v);
    }
  }

  lemma WordChars(w: string, rest: string)
    requires Word(w) && Ended(rest)
    ensures (forall i :: 0 <= i < |w| ==> WordChar(w[i])) && (rest == "" || !WordChar(rest[0]))
  {
    hide InWord, WordChar;
    forall i | 0 <= i < |w| ensures WordChar(w[i]) {
      WordCharIs(w[i]);
    }
    if rest != "" {
      WordCharIs(rest[0]);
    }
  }

  /** Behind a word character nothing begins. */
  lemma {:induction false} KeptInside(lit: Literals, t: string, rest: string)
    requires (forall i :: 0 <= i < |t| ==> WordChar(t[i])) && (rest == "" || !WordChar(rest[0]))
    ensures Rewrite(lit, Outside, false, t + rest) == t + Rewrite(lit, Outside, true, rest)
    decreases |t|
  {
    hide Rewrite, First;
    if t == "" {
      assert t + rest == rest;
      AnyFlag(lit, false, true, rest);
    } else {
      FirstKept(lit, false, t, rest);
      KeptInside(lit, t[1..], rest);
      assert t == [t[0]] + t[1..];
    }
  }

  lemma FirstKept(lit: Literals, f: bool, w: string, rest: string)
    requires w != "" && (forall i :: 0 <= i < |w| ==> WordChar(w[i])) && (rest == "" || !WordChar(rest[0]))
    requires f && LiteralStart(w[0]) ==> lit(w) == None
    ensures Rewrite(lit, Outside, f, w + rest) == [w[0]] + Rewrite(lit, Outside, false, w[1..] + rest)
  {
    hide Rewrite;
    var tail := w[1..] + rest;
    assert w + rest == [w[0]] + tail;
    if f && LiteralStart(w[0]) {
      WordAhead(w, rest);
      assert (w + rest)[..|w|] == w;
    }
    TurnOne(lit, Outside, f, w[0], tail, [w[0]], Outside);
  }

  lemma OtherKept(lit: Literals, w: string, rest: string)
    requires w != "" && (forall i :: 0 <= i < |w| ==> WordChar(w[i])) && (rest == "" || !WordChar(rest[0]))
    requires LiteralStart(w[0]) ==> lit(w) == None
    ensures Rewrite(lit, Outside, true, w + rest) == w + Rewrite(lit, Outside, true, rest)
  {
    hide Rewrite;
    FirstKept(lit, true, w, rest);
    KeptInside(lit, w[1..], rest);
    assert w == [w[0]] + w[1..];
  }

  lemma SubstrBegins(s: string, w: string)
    ensures Substr(s, |w|) == w <==> w <= s
  {
  }

  lemma Lookup(w: string)
    requires w != ""
    ensures w <= "True" ==> PythonWord(w) == Some("true"[..|w|])
    ensures w <= "False" ==> PythonWord(w) == Some("false"[..|w|])
    ensures w <= "None" ==> PythonWord(w) == Some("null"[..|w|])
    ensures !Begins(w) ==> PythonWord(w) == None
  {
    SubstrBegins("True", w);
    SubstrBegins("False", w);
    SubstrBegins("None", w);
    assert "True"[0] == 'T' && "False"[0] == 'F' && "None"[0] == 'N';
  }

  lemma BeginsStart(w: string)
    requires w != "" && Begins(w)
    ensures LiteralStart(w[0])
  {
  }

  /** A word becomes as much of the JSON word as it has of the Python one; any other word stays. */
  lemma WordsRewritten(w: string, rest: string)
    requires Word(w) && Ended(rest)
    ensures w <= "True" ==> Normalize(w + rest) == "true"[..|w|] + Normalize(rest)
    ensures w <= "False" ==> Normalize(w + rest) == "false"[..|w|] + Normalize(rest)
    ensures w <= "None" ==> Normalize(w + rest) == "null"[..|w|] + Normalize(rest)
    ensures !Begins(w) ==> Normalize(w + rest) == w + Normalize(rest)
  {
    hide Rewrite, PythonWord, InWord, WordChar, LiteralStart;
    WordChars(w, rest);
    Lookup(w);
    if Begins(w) {
      BeginsStart(w);
      WordRewritten(PythonWord, w, PythonWord(w).value, rest);
    } else {
      OtherKept(PythonWord, w, rest);
    }
  }

  /** Between words every character but quotes and backslashes stays, and a word may begin behind it. */
  lemma OthersKept(c: char, rest: string)
    requires !InWord(c) && c !in "\\\"'"
    ensures Normalize([c] + rest) == [c] + Normalize(rest)
  {
    hide Rewrite, InWord;
    WordCharIs(c);
    assert "\\\"'"[0] == '\\' && "\\\"'"[1] == '"' && "\\\"'"[2] == '\'';
    OutsideChar(PythonWord, true, c, rest);
  }
}
