/** Markers found in a text, and what the difference of two texts leaves open. */
module SegmentLaws {
  import opened Segments
  import opened DiffSplit

  // ---------------------------------------------------------------------
  // Segments

  predicate NoOpener(s: string) {
    '<' !in s && '[' !in s
  }

  lemma {:induction false} OpenerAfter(a: string, rest: string)
    requires NoOpener(a) && (rest == "" || rest[0] == '<' || rest[0] == '[')
    ensures FirstOpener(a + rest) == |a|
    decreases |a|
  {
    if a == "" {
      assert a + rest == rest;
    } else {
      assert (a + rest)[1..] == a[1..] + rest && a[0] in a;
      OpenerAfter(a[1..], rest);
    }
  }

  lemma {:induction false} CloserAfter(open: char, close: char, inner: string, rest: string)
    requires (open == '<' && close == '>') || (open == '[' && close == ']')
    requires close !in inner && (rest == "" || rest[0] == close)
    ensures FirstCloser(open, inner + rest) == |inner|
    decreases |inner|
  {
    if inner == "" {
      assert inner + rest == rest;
    } else {
      assert (inner + rest)[1..] == inner[1..] + rest && inner[0] in inner;
      CloserAfter(open, close, inner[1..], rest);
    }
  }

  /** Text in front of an opener, or of the end, is one segment. */
  lemma TextAhead(a: string, rest: string)
    requires NoOpener(a) && a != "" && (rest == "" || rest[0] == '<' || rest[0] == '[')
    ensures Segmentize(a + rest) == [Segment(Text, a)] + Segmentize(rest)
  {
    var t := a + rest;
    OpenerAfter(a, rest);
    assert t[0] == a[0] && a[0] in a;
    assert t[..|a|] == a && t[|a|..] == rest;
  }

  lemma MarkerAhead(open: char, close: char, inner: string, b: string)
    requires (open == '<' && close == '>') || (open == '[' && close == ']')
    requires close !in inner
    ensures Segmentize([open] + inner + [close] + b) == [Segment(Marker, [open] + inner + [close])] + Segmentize(b)
  {
    var m := [open] + inner + [close];
    var t := m + b;
    assert t[0] == open && t[1..] == inner + ([close] + b);
    CloserAfter(open, close, inner, [close] + b);
    assert t[..|m|] == m && t[|m|..] == b;
  }

  /** A marker is found between what comes before it and what comes behind it. */
  lemma MarkerFound(a: string, open: char, close: char, inner: string, b: string)
    requires (open == '<' && close == '>') || (open == '[' && close == ']')
    requires NoOpener(a) && close !in inner
    ensures Segmentize(a + ([open] + inner + [close] + b))
         == (if a == "" then [] else [Segment(Text, a)]) + ([Segment(Marker, [open] + inner + [close])] + Segmentize(b))
  {
    var rest := [open] + inner + [close] + b;
    MarkerAhead(open, close, inner, b);
    if a == "" {
      assert a + rest == rest;
    } else {
      TextAhead(a, rest);
    }
  }

  /** Text without an opener is one segment, and so is all that follows an opener that is never closed. */
  lemma TextFound(a: string, open: char, close: char, inner: string)
    requires (open == '<' && close == '>') || (open == '[' && close == ']')
    requires NoOpener(a) && a != "" && close !in inner
    ensures Segmentize(a) == [Segment(Text, a)]
    ensures Segmentize(a + ([open] + inner)) == [Segment(Text, a), Segment(Text, [open] + inner)]
  {
    var rest := [open] + inner;
    TextAhead(a, "");
    assert a + "" == a;
    TextAhead(a, rest);
    assert rest[1..] == inner && inner + "" == inner;
    CloserAfter(open, close, inner, "");
  }

  // ---------------------------------------------------------------------
  // What the difference leaves open

  /** The loop has taken equal segments from the front, and stops only where both ends differ or a side is down to
      one segment. */
  lemma {:induction false} MatchEnded(l: seq<Segment>, r: seq<Segment>, e: Ends)
    requires InRange(l, r, e) && e.ls == e.rs && l[..e.ls] == r[..e.ls] && e.prefix == Values(l[..e.ls])
    ensures var f := Match(l, r, e);
      && f.ls == f.rs && l[..f.ls] == r[..f.ls] && f.prefix == Values(l[..f.ls])
      && (f.ls == f.le || f.rs == f.re || (l[f.ls] != r[f.rs] && l[f.le] != r[f.re]))
    decreases (e.le - e.ls) + (e.re - e.rs)
  {
    if MayContinue(e) && Turn(l, r, e) != e {
      FrontShared(l, r, e);
      MatchEnded(l, r, Turn(l, r, e));
    } else if MayContinue(e) {
      StuckEnds(l, r, e);
    }
  }

  lemma FrontShared(l: seq<Segment>, r: seq<Segment>, e: Ends)
    requires InRange(l, r, e) && MayContinue(e) && e.ls == e.rs && l[..e.ls] == r[..e.ls] && e.prefix == Values(l[..e.ls])
    ensures var f := Turn(l, r, e); f.ls == f.rs && l[..f.ls] == r[..f.ls] && f.prefix == Values(l[..f.ls])
  {
    if l[e.ls] == r[e.rs] {
      assert l[..e.ls + 1] == l[..e.ls] + [l[e.ls]] && r[..e.ls + 1] == r[..e.ls] + [r[e.ls]];
      ValuesConcat(l[..e.ls], [l[e.ls]]);
      ValuesOne(l[e.ls]);
    }
  }

  lemma StuckEnds(l: seq<Segment>, r: seq<Segment>, e: Ends)
    requires InRange(l, r, e) && MayContinue(e) && Turn(l, r, e) == e
    ensures l[e.ls] != r[e.rs] && l[e.le] != r[e.re]
  {
  }

  /** Two texts share no more at the back, or one of them is shared whole. */
  predicate BacksDiffer(a: string, b: string) {
    a == "" || b == "" || a[|a| - 1] != b[|b| - 1]
  }

  predicate FrontsDiffer(a: string, b: string) {
    a == "" || b == "" || a[0] != b[0]
  }

  lemma TrimParts(a: string, b: string, s: nat, p: nat) returns (x: string, y: string, l: string, r: string)
    requires s + p <= |a| && s + p <= |b| && a[|a| - s..] == b[|b| - s..] && a[..p] == b[..p]
    ensures x == a[..p] && y == a[|a| - s..] && l == a[p..|a| - s] && r == b[p..|b| - s]
    ensures a == x + l + y && b == x + r + y && a[..|a| - s] == x + l && b[..|b| - s] == x + r
  {
    x, y, l, r := a[..p], a[|a| - s..], a[p..|a| - s], b[p..|b| - s];
  }

  lemma SharedBack(a: string, b: string, s: nat)
    requires s == CommonSuffix(a, b)
    ensures a[|a| - s..] == b[|b| - s..] && BacksDiffer(a[..|a| - s], b[..|b| - s])
  {
    CommonSuffixShared(a, b);
    CommonSuffixLongest(a, b);
  }

  lemma SharedFront(a: string, b: string, p: nat)
    requires p == CommonPrefix(a, b)
    ensures FrontsDiffer(a[p..], b[p..])
  {
    CommonPrefixLongest(a, b);
  }

  /** Trimming moves as much as the open texts share at the back, where both end in text, then as much as is left to
      share at the front, where both begin with text; and nothing else. */
  lemma TrimLongest(prefix: string, suffix: string, a: string, b: string, front: bool, back: bool, d: Split)
    returns (x: string, y: string)
    requires d == Trim(prefix, suffix, a, b, front, back)
    ensures d.prefix == prefix + x && d.suffix == y + suffix && a == x + d.left + y && b == x + d.right + y
    ensures (!front ==> x == "") && (!back ==> y == "")
    ensures (back ==> BacksDiffer(x + d.left, x + d.right)) && (front ==> FrontsDiffer(d.left, d.right))
  {
    hide CommonPrefix, CommonSuffix, BacksDiffer, FrontsDiffer;
    var s := if back then CommonSuffix(a, b) else 0;
    if back {
      SharedBack(a, b, s);
    }
    var a', b' := a[..|a| - s], b[..|b| - s];
    var p := if front then CommonPrefix(a', b') else 0;
    if front {
      SharedFront(a', b', p);
    }
    FrontsAlike(a, b, s, p);
    var l, r;
    x, y, l, r := TrimParts(a, b, s, p);
    assert a'[p..] == l && b'[p..] == r;
  }

  lemma FrontsAlike(a: string, b: string, s: nat, p: nat)
    requires s <= |a| && s <= |b| && p <= |a| - s && p <= |b| - s
    ensures a[..|a| - s][..p] == a[..p] && b[..|b| - s][..p] == b[..p]
  {
  }

  /** Without markers the difference is what is left after the shared ends; a left text that begins the right one is
      all prefix. */
  lemma PlainDifference(left: string, right: string, d: Split)
    requires NoOpener(left) && NoOpener(right) && left != "" && right != "" && d == CalculateDiffSplit(left, right)
    ensures d.prefix + d.left + d.suffix == left && d.prefix + d.right + d.suffix == right
    ensures left <= right ==> d == Split(left, "", "", right[|left|..])
    ensures FrontsDiffer(d.left, d.right) && BacksDiffer(d.left, d.right)
  {
    hide Trim, Segmentize, Correct, CalculateDiffSplit, BacksDiffer, FrontsDiffer;
    TextFound(left, '<', '>', "");
    TextFound(right, '<', '>', "");
    var raw := Trim("", "", left, right, true, true);
    OneSegmentEach(left, right, raw);
    var x, y := TrimLongest("", "", left, right, true, true, raw);
    assert raw.prefix == x && raw.suffix == y;
    PlainCorrected(left, right, raw, d);
  }

  lemma OneSegmentEach(left: string, right: string, raw: Split)
    requires Segmentize(left) == [Segment(Text, left)] && Segmentize(right) == [Segment(Text, right)]
    requires raw == Trim("", "", left, right, true, true)
    ensures CalculateDiffSplit(left, right) == Correct(left, right, raw)
  {
    hide Trim, Correct, Segmentize, Values;
    var l, r := [Segment(Text, left)], [Segment(Text, right)];
    ValuesOne(l[0]);
    ValuesOne(r[0]);
    var e := Start(l, r);
    assert LastSegments(l, r, Match(l, r, e)) == e;
    assert Open(l, 0, 0, false) == l && Open(r, 0, 0, false) == r;
  }

  predicate Rebuilt(d: Split, left: string, right: string) {
    left == d.prefix + d.left + d.suffix && right == d.prefix + d.right + d.suffix
  }

  lemma PlainCorrected(left: string, right: string, raw: Split, d: Split)
    requires d == Correct(left, right, raw) && Rebuilt(raw, left, right)
    requires FrontsDiffer(raw.left, raw.right) && BacksDiffer(raw.prefix + raw.left, raw.prefix + raw.right)
    ensures Rebuilt(d, left, right) && (left <= right ==> d == Split(left, "", "", right[|left|..]))
    ensures FrontsDiffer(d.left, d.right) && BacksDiffer(d.left, d.right)
  {
    if left <= right {
      NothingOnTheLeft(left, right, raw);
      assert left + right[|left|..] == right && left + "" == left && right + "" == right;
    } else {
      SomethingDiffers(left, right, raw);
    }
  }

  lemma NothingOnTheLeft(left: string, right: string, raw: Split)
    requires Rebuilt(raw, left, right) && FrontsDiffer(raw.left, raw.right) && left <= right
    ensures raw.left == "" && (raw.right == "" ==> left == right)
  {
    if raw.left != "" {
      FirstsAgree(left, right, raw);
    }
  }

  lemma FirstsAgree(left: string, right: string, raw: Split)
    requires Rebuilt(raw, left, right) && left <= right && raw.left != ""
    ensures raw.right != "" && raw.left[0] == raw.right[0]
  {
    var i := |raw.prefix|;
    assert left[i] == raw.left[0] && left[i] == right[i];
    assert right[i] == raw.right[0];
  }

  lemma SomethingDiffers(left: string, right: string, raw: Split)
    requires Rebuilt(raw, left, right) && !(left <= right)
    requires BacksDiffer(raw.prefix + raw.left, raw.prefix + raw.right)
    ensures raw.left != "" || raw.right != ""
    ensures BacksDiffer(raw.left, raw.right)
  {
    if raw.left != "" && raw.right != "" {
      var a, b := raw.prefix + raw.left, raw.prefix + raw.right;
      assert a[|a| - 1] == raw.left[|raw.left| - 1] && b[|b| - 1] == raw.right[|raw.right| - 1];
    }
  }
}
