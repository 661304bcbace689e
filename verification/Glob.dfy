/** Glob patterns: a recursive matcher, and what it means for a pattern to match. */
module Glob {

  import opened Basics

  // ---------------------------------------------------------------------
  // What patterns mean

  datatype Token =
    | AnyText
    | PathPart
    | AnyChar
    | Class(text: string)
    | Literal(c: char)

  /** An item of a character class: all characters from `lo` to `hi`. */
  datatype Item = Item(lo: char, hi: char)

  function Ranges(t: string): seq<Item> {
    if t == "" then []
    else if |t| > 2 && t[1] == '-' && t[2] != ']' then [Item(t[0], t[2])] + Ranges(t[3..])
    else [Item(t[0], t[0])] + Ranges(t[1..])
  }

  predicate Literally(t: string) {
    t != "" && (t[0] == ']' || t[0] == '-')
  }

  /** The items of a class without its negation sign; a leading `]` or `-` stands for itself. */
  function Items(t: string): seq<Item> {
    if Literally(t) then [Item(t[0], t[0])] + Ranges(t[1..]) else Ranges(t)
  }

  predicate Covered(c: char, items: seq<Item>) {
    exists i :: 0 <= i < |items| && items[i].lo <= c <= items[i].hi
  }

  predicate InClass(c: char, t: string) {
    if t != "" && t[0] == '!' then !Covered(c, Items(t[1..])) else Covered(c, Items(t))
  }

  /** The position of the `]` that closes the class opened at the front of `p`. A `]` or `-` right
      after the bracket is skipped; a `]` after `[!` is not. */
  function ClassEnd(p: string): Option<nat>
    requires p != ""
  {
    FindClose(p, if Literally(p[1..]) then 2 else 1)
  }

  function FindClose(p: string, i: nat): (e: Option<nat>)
    requires i <= |p|
    ensures e.Some? ==> i <= e.value < |p| && p[e.value] == ']'
    decreases |p| - i
  {
    if i == |p| then None else if p[i] == ']' then Some(i) else FindClose(p, i + 1)
  }

  function Tokens(p: string): seq<Token> {
    if p == "" then []
    else if p[0] == '*' then
      if |p| > 1 && p[1] == '*' then [AnyText] + Tokens(p[2..]) else [PathPart] + Tokens(p[1..])
    else if p[0] == '?' then [AnyChar] + Tokens(p[1..])
    else if p[0] == '[' && ClassEnd(p).Some? then
      [Class(p[1..ClassEnd(p).value])] + Tokens(p[ClassEnd(p).value + 1..])
    else [Literal(p[0])] + Tokens(p[1..])
  }

  predicate Accepts(t: Token, s: string) {
    match t
    case AnyText => true
    case PathPart => '/' !in s
    case AnyChar => |s| == 1 && s[0] != '/'
    case Class(text) => |s| == 1 && InClass(s[0], text)
    case Literal(c) => s == [c]
  }

  /** `s` is cut into consecutive pieces, one for each token. */
  ghost predicate Splits(ts: seq<Token>, s: string)
    decreases |ts|
  {
    if ts == [] then s == ""
    else exists k :: 0 <= k <= |s| && Accepts(ts[0], s[..k]) && Splits(ts[1..], s[k..])
  }

  predicate Fits(ts: seq<Token>, pieces: seq<string>) {
    |pieces| == |ts| && forall i :: 0 <= i < |ts| ==> Accepts(ts[i], pieces[i])
  }

  /** The pieces, found. */
  lemma {:induction false} PiecesOf(ts: seq<Token>, s: string) returns (pieces: seq<string>)
    requires Splits(ts, s)
    ensures Fits(ts, pieces) && Join(pieces) == s
    decreases |ts|
  {
    if ts == [] {
      pieces := [];
    } else {
      var k :| 0 <= k <= |s| && Accepts(ts[0], s[..k]) && Splits(ts[1..], s[k..]);
      var rest := PiecesOf(ts[1..], s[k..]);
      pieces := [s[..k]] + rest;
      assert s == s[..k] + s[k..];
    }
  }

  lemma {:induction false} FromPieces(ts: seq<Token>, pieces: seq<string>)
    requires Fits(ts, pieces)
    ensures Splits(ts, Join(pieces))
    decreases |ts|
  {
    if ts != [] {
      var s, k := Join(pieces), |pieces[0]|;
      FromPieces(ts[1..], pieces[1..]);
      assert s[..k] == pieces[0] && s[k..] == Join(pieces[1..]);
    }
  }

  /** Matching is the existence of a list of pieces that the tokens accept one by one. */
  lemma SplitsExactly(ts: seq<Token>, s: string)
    ensures Splits(ts, s) <==> exists pieces :: Fits(ts, pieces) && Join(pieces) == s
  {
    if Splits(ts, s) {
      var pieces := PiecesOf(ts, s);
    }
    if pieces :| Fits(ts, pieces) && Join(pieces) == s {
      FromPieces(ts, pieces);
    }
  }

  // ---------------------------------------------------------------------
  // One token at a time

  lemma SplitsAt(t: Token, ts: seq<Token>, s: string, k: nat)
    requires k <= |s| && Accepts(t, s[..k]) && Splits(ts, s[k..])
    ensures Splits([t] + ts, s)
  {
    assert ([t] + ts)[1..] == ts;
  }

  lemma SplitsWhere(t: Token, ts: seq<Token>, s: string) returns (k: nat)
    requires Splits([t] + ts, s)
    ensures k <= |s| && Accepts(t, s[..k]) && Splits(ts, s[k..])
  {
    assert ([t] + ts)[1..] == ts;
    k :| 0 <= k <= |s| && Accepts(([t] + ts)[0], s[..k]) && Splits(([t] + ts)[1..], s[k..]);
  }

  predicate Single(t: Token) {
    t.AnyChar? || t.Class? || t.Literal?
  }

  lemma SplitSingle(t: Token, ts: seq<Token>, s: string)
    requires Single(t)
    ensures Splits([t] + ts, s) <==> s != "" && Accepts(t, s[..1]) && Splits(ts, s[1..])
  {
    if Splits([t] + ts, s) {
      var k := SplitsWhere(t, ts, s);
      assert k == 1;
    }
    if s != "" && Accepts(t, s[..1]) && Splits(ts, s[1..]) {
      SplitsAt(t, ts, s, 1);
    }
  }

  lemma SplitAnyText(ts: seq<Token>, s: string)
    ensures Splits([AnyText] + ts, s) <==> Splits(ts, s) || (s != "" && Splits([AnyText] + ts, s[1..]))
  {
    hide Splits;
    if Splits([AnyText] + ts, s) {
      var k := SplitsWhere(AnyText, ts, s);
      if k == 0 {
        assert s[0..] == s;
      } else {
        assert s[1..][k - 1..] == s[k..];
        SplitsAt(AnyText, ts, s[1..], k - 1);
      }
    }
    if Splits(ts, s) {
      assert s[0..] == s;
      SplitsAt(AnyText, ts, s, 0);
    }
    if s != "" && Splits([AnyText] + ts, s[1..]) {
      var k := SplitsWhere(AnyText, ts, s[1..]);
      assert s[1..][k..] == s[k + 1..];
      SplitsAt(AnyText, ts, s, k + 1);
    }
  }

  /** `i` is as far as a path part can reach. */
  predicate Reach(s: string, i: nat) {
    i <= |s| && '/' !in s[..i] && (i == |s| || s[i] == '/')
  }

  lemma ReachLimit(s: string, i: nat, k: nat)
    requires Reach(s, i) && k <= |s|
    ensures '/' !in s[..k] ==> k <= i
  {
    if k > i {
      assert s[..k][i] == '/';
    }
  }

  lemma SplitPathPart(ts: seq<Token>, s: string, i: nat)
    requires Reach(s, i)
    ensures Splits([PathPart] + ts, s) <==> exists k :: 0 <= k <= i && Splits(ts, s[k..])
  {
    if Splits([PathPart] + ts, s) {
      var k := SplitsWhere(PathPart, ts, s);
      ReachLimit(s, i, k);
    }
    if k :| 0 <= k <= i && Splits(ts, s[k..]) {
      assert forall c :: c in s[..k] ==> c in s[..i];
      SplitsAt(PathPart, ts, s, k);
    }
  }

  // ---------------------------------------------------------------------
  // The matcher

  lemma CoveredFirst(c: char, item: Item, items: seq<Item>)
    ensures Covered(c, [item] + items) <==> item.lo <= c <= item.hi || Covered(c, items)
  {
    var all := [item] + items;
    if item.lo <= c <= item.hi {
      assert all[0] == item;
    }
    if Covered(c, items) {
      var i :| 0 <= i < |items| && items[i].lo <= c <= items[i].hi;
      assert all[i + 1] == items[i];
    }
  }

  /** Whether `c` is in the class whose text starts at `pattern[from]` and ends before `end`. */
  method GlobClassMatch(c: char, pattern: string, from: nat, end: nat) returns (r: bool)
    requires from < end < |pattern|
    ensures r == InClass(c, pattern[from..end])
  {
    var start, negated := from, false;
    if pattern[start] == '!' {
      negated := true;
      start := start + 1;
    }
    ghost var body := pattern[start..end];
    assert negated ==> body == pattern[from..end][1..];
    assert InClass(c, pattern[from..end]) == (negated != Covered(c, Items(body)));
    if pattern[start] == ']' || pattern[start] == '-' {
      if start < end {
        assert Literally(body) && body[1..] == pattern[start + 1..end];
        CoveredFirst(c, Item(body[0], body[0]), Ranges(body[1..]));
        if pattern[start] == c {
          return !negated;
        }
      }
      start := start + 1;
    }
    var matched := CoveredFrom(c, pattern, start, end);
    return if negated then !matched else matched;
  }

  /** The loop over the items from `start` on; past the end there are none. */
  method CoveredFrom(c: char, pattern: string, from: nat, end: nat) returns (matched: bool)
    requires end < |pattern|
    ensures matched == (from < end && Covered(c, Ranges(pattern[from..end])))
  {
    var start := from;
    while start < end
      invariant from <= start && (from <= end ==> start <= end)
      invariant from < end ==> Covered(c, Ranges(pattern[from..end])) == Covered(c, Ranges(pattern[start..end]))
    {
      ghost var t := pattern[start..end];
      if start + 2 < end && pattern[start + 1] == '-' && pattern[start + 2] != ']' {
        assert t[3..] == pattern[start + 3..end];
        CoveredFirst(c, Item(t[0], t[2]), Ranges(t[3..]));
        if pattern[start] <= c <= pattern[start + 2] {
          return true;
        }
        start := start + 3;
      } else {
        assert t[1..] == pattern[start + 1..end];
        CoveredFirst(c, Item(t[0], t[0]), Ranges(t[1..]));
        if pattern[start] == c {
          return true;
        }
        start := start + 1;
      }
    }
    return false;
  }

  /** The matcher: true exactly when the string splits into pieces that the pattern's tokens accept. */
  method GlobMatch(pattern: string, str: string) returns (r: bool)
    ensures r == Splits(Tokens(pattern), str)
    decreases |pattern|, |str|, 1
  {
    if pattern == "" {
      return str == "";
    }
    if pattern[0] == '*' && |pattern| > 1 && pattern[1] == '*' {
      SplitAnyText(Tokens(pattern[2..]), str);
      r := GlobMatch(pattern[2..], str);
      if !r && str != "" {
        r := GlobMatch(pattern, str[1..]);
      }
      return;
    }
    if pattern[0] == '*' {
      r := MatchPathPart(pattern, str);
      return;
    }
    if pattern[0] == '?' {
      SplitSingle(AnyChar, Tokens(pattern[1..]), str);
      if str != "" && str[0] != '/' {
        r := GlobMatch(pattern[1..], str[1..]);
        return;
      }
      return false;
    }
    if pattern[0] == '[' {
      r := MatchClass(pattern, str);
      return;
    }
    SplitSingle(Literal(pattern[0]), Tokens(pattern[1..]), str);
    if str != "" && pattern[0] == str[0] {
      r := GlobMatch(pattern[1..], str[1..]);
      return;
    }
    return false;
  }

  method MatchPathPart(pattern: string, str: string) returns (r: bool)
    requires pattern != "" && pattern[0] == '*' && !(|pattern| > 1 && pattern[1] == '*')
    ensures r == Splits(Tokens(pattern), str)
    decreases |pattern|, |str|, 0
  {
    hide Splits;
    ghost var ts := Tokens(pattern[1..]);
    assert Tokens(pattern) == [PathPart] + ts;
    var i := 0;
    while i < |str| && str[i] != '/'
      invariant 0 <= i <= |str| && '/' !in str[..i]
      invariant forall k :: 0 <= k < i ==> !Splits(ts, str[k..])
    {
      r := GlobMatch(pattern[1..], str[i..]);
      if r {
        SplitsAt(PathPart, ts, str, i);
        return;
      }
      i := i + 1;
    }
    SplitPathPart(ts, str, i);
    r := GlobMatch(pattern[1..], str[i..]);
  }

  /** Where the class opened at the front of `pattern` ends, or the pattern's length. */
  method ScanClass(pattern: string) returns (end: nat)
    requires pattern != ""
    ensures ClassEnd(pattern) == if end < |pattern| then Some(end) else None
    ensures 1 <= end && (end < |pattern| ==> 1 < end)
  {
    end := 1;
    if end < |pattern| && (pattern[end] == ']' || pattern[end] == '-') {
      end := end + 1;
    }
    ghost var first := end;
    assert first == if Literally(pattern[1..]) then 2 else 1;
    while end < |pattern| && pattern[end] != ']'
      invariant first <= end <= |pattern| && FindClose(pattern, first) == FindClose(pattern, end)
    {
      end := end + 1;
    }
  }

  method MatchClass(pattern: string, str: string) returns (r: bool)
    requires pattern != "" && pattern[0] == '['
    ensures r == Splits(Tokens(pattern), str)
    decreases |pattern|, |str|, 0
  {
    var end := ScanClass(pattern);
    if end < |pattern| {
      SplitSingle(Class(pattern[1..end]), Tokens(pattern[end + 1..]), str);
      if str == "" {
        return false;
      }
      r := GlobClassMatch(str[0], pattern, 1, end);
      if r {
        r := GlobMatch(pattern[end + 1..], str[1..]);
      }
    } else {
      SplitSingle(Literal('['), Tokens(pattern[1..]), str);
      if str != "" && str[0] == '[' {
        r := GlobMatch(pattern[1..], str[1..]);
        return;
      }
      return false;
    }
  }

  /** A string as C code sees it: up to the first NUL. */
  function CString(s: string): (t: string)
    ensures t <= s && '\0' !in t && (t == s || s[|t|] == '\0')
  {
    if s == "" || s[0] == '\0' then "" else [s[0]] + CString(s[1..])
  }

  method GlobMatchStrings(pattern: string, str: string) returns (r: bool)
    ensures r == Splits(Tokens(CString(pattern)), CString(str))
  {
    r := GlobMatch(CString(pattern), CString(str));
  }

  // ---------------------------------------------------------------------
  // Consequences

  predicate Plain(p: string) {
    '*' !in p && '?' !in p && '[' !in p
  }

  /** A pattern without special characters matches itself and nothing else. */
  lemma {:induction false} PlainMatches(p: string, s: string)
    requires Plain(p)
    ensures Splits(Tokens(p), s) <==> s == p
    decreases |p|
  {
    if p != "" {
      SplitSingle(Literal(p[0]), Tokens(p[1..]), s);
      if s != "" {
        PlainMatches(p[1..], s[1..]);
        assert s == [s[0]] + s[1..] && p == [p[0]] + p[1..];
      }
    }
  }

  /** `**` in front also matches below any directory. */
  lemma AnyPrefix(p: string, pre: string, s: string)
    requires Splits(Tokens(p), s)
    ensures Splits(Tokens("**" + p), pre + s)
  {
    assert ("**" + p)[2..] == p && (pre + s)[|pre|..] == s;
    SplitsAt(AnyText, Tokens(p), pre + s, |pre|);
  }

  lemma EmptyNegationToken()
    ensures Tokens("[!]") == [Class("!")] + []
  {
    var p := "[!]";
    assert FindClose(p, 2) == Some(2);
    assert p[1..2] == "!" && Tokens(p[3..]) == [];
  }

  lemma EmptyNegationClass(c: char)
    ensures InClass(c, "!")
  {
    assert Items("!"[1..]) == [];
  }

  /** `[!]` excludes nothing: any one character matches, a slash too. */
  lemma EmptyNegation(s: string)
    ensures Splits(Tokens("[!]"), s) <==> |s| == 1
  {
    EmptyNegationToken();
    SplitSingle(Class("!"), [], s);
    if s != "" {
      EmptyNegationClass(s[0]);
    }
  }
}
