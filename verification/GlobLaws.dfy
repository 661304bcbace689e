/** What wildcards and classes stand for between plain texts. */
module GlobLaws {

  import opened Basics
  import opened Glob

  /** A plain front of a pattern matches the same front of the text. */
  lemma {:induction false} PlainFront(a: string, p: string, s: string)
    requires Plain(a)
    ensures Splits(Tokens(a + p), s) <==> a <= s && Splits(Tokens(p), s[|a|..])
    decreases |a|
  {
    hide Splits, Tokens;
    if a == "" {
      assert a + p == p && s[0..] == s;
    } else {
      PlainToken(a, p);
      SplitSingle(Literal(a[0]), Tokens(a[1..] + p), s);
      if s != "" {
        PlainFront(a[1..], p, s[1..]);
        FrontStep(a, s);
      }
    }
  }

  lemma PlainToken(a: string, p: string)
    requires Plain(a) && a != ""
    ensures Tokens(a + p) == [Literal(a[0])] + Tokens(a[1..] + p)
  {
    assert (a + p)[1..] == a[1..] + p && a[0] in a;
  }

  lemma FrontStep(a: string, s: string)
    requires a != "" && s != ""
    ensures a <= s <==> s[0] == a[0] && a[1..] <= s[1..]
    ensures a <= s ==> s[1..][|a| - 1..] == s[|a|..]
  {
    if s[0] == a[0] && a[1..] <= s[1..] {
      assert a == [a[0]] + a[1..] && s == [s[0]] + s[1..];
    }
  }

  /** What a wildcard, standing between plain texts, stands for: any text, text without a slash, or one character
      that is not a slash. */
  predicate StandsFor(wild: string, m: string) {
    || wild == "**"
    || (wild == "*" && '/' !in m)
    || (wild == "?" && |m| == 1 && m[0] != '/')
  }

  lemma WildcardToken(wild: string, b: string) returns (t: Token)
    requires wild in ["**", "*", "?"] && Plain(b)
    ensures Tokens(wild + b) == [t] + Tokens(b)
    ensures forall m :: Accepts(t, m) <==> StandsFor(wild, m)
  {
    assert b != "" ==> b[0] in b;
    t := if wild == "**" then AnyText else if wild == "*" then PathPart else AnyChar;
    assert (wild + b)[|wild|..] == b;
  }

  lemma WildcardMatches(a: string, wild: string, b: string, s: string)
    requires wild in ["**", "*", "?"] && Plain(a) && Plain(b)
    ensures Splits(Tokens(a + (wild + b)), s) <==> exists m :: StandsFor(wild, m) && s == a + m + b
  {
    hide Splits, Tokens, Accepts, StandsFor;
    PlainFront(a, wild + b, s);
    var t := WildcardToken(wild, b);
    if Splits(Tokens(a + (wild + b)), s) {
      var rest := s[|a|..];
      var k := SplitsWhere(t, Tokens(b), rest);
      PlainMatches(b, rest[k..]);
      assert s == a + rest[..k] + b;
    }
    if m :| StandsFor(wild, m) && s == a + m + b {
      var rest := m + b;
      assert a <= s && s[|a|..] == rest && rest[..|m|] == m && rest[|m|..] == b;
      PlainMatches(b, b);
      SplitsAt(t, Tokens(b), rest, |m|);
    }
  }

  lemma RangeToken(lo: char, hi: char, b: string)
    requires lo !in "!]-" && hi != ']'
    ensures Tokens(['[', lo, '-', hi, ']'] + b) == [Class([lo, '-', hi])] + Tokens(b)
  {
    var p := ['[', lo, '-', hi, ']'] + b;
    assert FindClose(p, 4) == Some(4);
    assert FindClose(p, 1) == FindClose(p, 2) == FindClose(p, 3) == FindClose(p, 4);
    assert p[1..4] == [lo, '-', hi] && p[5..] == b;
  }

  lemma RangeClass(c: char, lo: char, hi: char)
    requires lo !in "!]-" && hi != ']'
    ensures InClass(c, [lo, '-', hi]) <==> lo <= c <= hi
  {
    var t := [lo, '-', hi];
    assert t[3..] == "" && Ranges("") == [];
    assert Items(t) == [Item(lo, hi)];
    assert lo <= c <= hi ==> Items(t)[0].lo <= c <= Items(t)[0].hi;
  }

  lemma ClassMatches(a: string, p: string, t: string, b: string, s: string)
    requires Plain(a) && Plain(b) && Tokens(p + b) == [Class(t)] + Tokens(b)
    ensures Splits(Tokens(a + (p + b)), s) <==> exists c :: InClass(c, t) && s == a + [c] + b
  {
    hide Splits, Tokens, InClass;
    PlainFront(a, p + b, s);
    var rest := if a <= s then s[|a|..] else "";
    SplitSingle(Class(t), Tokens(b), rest);
    if Splits(Tokens(a + (p + b)), s) {
      PlainMatches(b, rest[1..]);
      assert InClass(rest[0], t) && s == a + [rest[0]] + b;
    }
    if c :| InClass(c, t) && s == a + [c] + b {
      assert a <= s && rest == [c] + b && rest[..1] == [c] && rest[1..] == b;
      PlainMatches(b, b);
    }
  }

  /** `[a-z]` between plain texts stands for one character from a to z, a slash too where it lies between. */
  lemma RangeMatches(a: string, lo: char, hi: char, b: string, s: string)
    requires Plain(a) && Plain(b) && lo !in "!]-" && hi != ']'
    ensures Splits(Tokens(a + (['[', lo, '-', hi, ']'] + b)), s) <==> exists c :: lo <= c <= hi && s == a + [c] + b
  {
    hide Splits, Tokens, InClass;
    RangeToken(lo, hi, b);
    ClassMatches(a, ['[', lo, '-', hi, ']'], [lo, '-', hi], b, s);
    forall c: char ensures InClass(c, [lo, '-', hi]) <==> lo <= c <= hi {
      RangeClass(c, lo, hi);
    }
  }

  lemma LeadingToken(c: char, d: char, b: string)
    requires c in "]-" && d != ']'
    ensures Tokens(['[', c, '-', d, ']'] + b) == [Class([c, '-', d])] + Tokens(b)
  {
    var p := ['[', c, '-', d, ']'] + b;
    assert FindClose(p, 4) == Some(4);
    assert FindClose(p, 2) == FindClose(p, 3) == FindClose(p, 4);
    assert p[1..4] == [c, '-', d] && p[5..] == b;
  }

  lemma LeadingClass(x: char, c: char, d: char)
    requires c in "]-" && d != ']'
    ensures InClass(x, [c, '-', d]) <==> x in {c, '-', d}
  {
    var t, u, w := [c, '-', d], ['-', d], [d];
    assert t[1..] == u && u[1..] == w && w[1..] == "";
    assert Ranges(w) == [Item(d, d)] + Ranges("");
    assert Ranges(u) == [Item('-', '-')] + Ranges(w);
    var items := Items(t);
    assert items == [Item(c, c), Item('-', '-'), Item(d, d)];
    assert items[0] == Item(c, c) && items[1] == Item('-', '-') && items[2] == Item(d, d);
  }

  /** A `]` or `-` that leads a class stands for itself and begins no range: `[]-a]` is a bracket, a dash or an a. */
  lemma LeadingMatches(a: string, c: char, d: char, b: string, s: string)
    requires Plain(a) && Plain(b) && c in "]-" && d != ']'
    ensures Splits(Tokens(a + (['[', c, '-', d, ']'] + b)), s) <==> exists x :: x in {c, '-', d} && s == a + [x] + b
  {
    hide Splits, Tokens, InClass;
    LeadingToken(c, d, b);
    ClassMatches(a, ['[', c, '-', d, ']'], [c, '-', d], b, s);
    forall x: char ensures InClass(x, [c, '-', d]) <==> x in {c, '-', d} {
      LeadingClass(x, c, d);
    }
  }
}
