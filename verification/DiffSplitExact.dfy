/** Exactly when the marker-aligned difference rebuilds both texts. */
module DiffSplitExact {
  import opened Segments
  import opened DiffSplit

  /** The loop has taken the last segment of the left side as shared, and behind the loop that
      segment matches an end of the right side once more. */
  predicate LeftAgain(l: seq<Segment>, r: seq<Segment>, e: Ends)
    requires InRange(l, r, e)
  {
    && e.leftUsed && !e.rightUsed
    && if e.rs != e.re then l[e.ls] == r[e.re] || l[e.ls] == r[e.rs]
       else l[e.ls] == r[e.rs] && l[e.ls].kind == Marker
  }

  predicate RightAgain(l: seq<Segment>, r: seq<Segment>, e: Ends)
    requires InRange(l, r, e)
  {
    && e.rightUsed && !e.leftUsed
    && if e.ls != e.le then l[e.le] == r[e.rs] || l[e.ls] == r[e.rs]
       else l[e.ls] == r[e.rs] && l[e.ls].kind == Marker
  }

  // ---------------------------------------------------------------------
  // The conserving cases

  lemma OneLeft(l: seq<Segment>, r: seq<Segment>, e: Ends, left: string, right: string)
    requires InRange(l, r, e) && CoversLeft(l, r, e, left) && CoversRight(l, r, e, right)
    requires e.ls == e.le && e.rs != e.re && !e.leftUsed
    ensures CoversLeft(l, r, LastSegments(l, r, e), left) && CoversRight(l, r, LastSegments(l, r, e), right)
  {
    SingleMoves(e.prefix, l, e.ls, e.suffix, left);
    SideMoves(e.prefix, r, e.rs, e.re, e.suffix, right);
  }

  lemma OneRight(l: seq<Segment>, r: seq<Segment>, e: Ends, left: string, right: string)
    requires InRange(l, r, e) && CoversLeft(l, r, e, left) && CoversRight(l, r, e, right)
    requires e.rs == e.re && e.ls != e.le && !e.rightUsed
    ensures CoversLeft(l, r, LastSegments(l, r, e), left) && CoversRight(l, r, LastSegments(l, r, e), right)
  {
    SingleMoves(e.prefix, r, e.rs, e.suffix, right);
    SideMoves(e.prefix, l, e.ls, e.le, e.suffix, left);
  }

  /** The only open segment goes to either end. */
  lemma SingleMoves(prefix: string, segs: seq<Segment>, i: nat, suffix: string, text: string)
    requires i < |segs| && Covers(prefix, Open(segs, i, i, false), suffix, text)
    ensures Covers(prefix, Open(segs, i, i, true), segs[i].value + suffix, text)
    ensures Covers(prefix + segs[i].value, Open(segs, i, i, true), suffix, text)
  {
    MoveBack(prefix, segs, i, i + 1, suffix, text);
    MoveFront(prefix, segs, i, i + 1, suffix, text);
    assert segs[i + 1..i + 1] == [] == segs[i..i];
  }

  /** An open segment at either end goes there, and others stay open. */
  lemma SideMoves(prefix: string, segs: seq<Segment>, i: nat, j: nat, suffix: string, text: string)
    requires i < j < |segs| && Covers(prefix, Open(segs, i, j, false), suffix, text)
    ensures Covers(prefix, Open(segs, i, j - 1, false), segs[j].value + suffix, text)
    ensures Covers(prefix + segs[i].value, Open(segs, i + 1, j, false), suffix, text)
  {
    MoveBack(prefix, segs, i, j + 1, suffix, text);
    MoveFront(prefix, segs, i, j + 1, suffix, text);
  }

  lemma OneEach(l: seq<Segment>, r: seq<Segment>, e: Ends, left: string, right: string)
    requires InRange(l, r, e) && CoversLeft(l, r, e, left) && CoversRight(l, r, e, right)
    requires e.ls == e.le && e.rs == e.re && !e.leftUsed && !e.rightUsed
    ensures CoversLeft(l, r, LastSegments(l, r, e), left) && CoversRight(l, r, LastSegments(l, r, e), right)
  {
    MoveFront(e.prefix, l, e.ls, e.le + 1, e.suffix, left);
    MoveFront(e.prefix, r, e.rs, e.re + 1, e.suffix, right);
    assert l[e.ls + 1..e.le + 1] == [] == l[e.ls..e.le] && r[e.rs + 1..e.re + 1] == [] == r[e.rs..e.re];
  }

  lemma LastCovers(l: seq<Segment>, r: seq<Segment>, e: Ends, left: string, right: string)
    requires InRange(l, r, e) && CoversLeft(l, r, e, left) && CoversRight(l, r, e, right)
    requires !LeftAgain(l, r, e) && !RightAgain(l, r, e) && !(e.leftUsed && e.rightUsed)
    ensures CoversLeft(l, r, LastSegments(l, r, e), left) && CoversRight(l, r, LastSegments(l, r, e), right)
  {
    if e.leftUsed || e.rightUsed {
      assert LastSegments(l, r, e) == e;
    } else if e.ls == e.le && e.rs != e.re {
      OneLeft(l, r, e, left, right);
    } else if e.rs == e.re && e.ls != e.le {
      OneRight(l, r, e, left, right);
    } else if e.ls == e.le && e.rs == e.re {
      OneEach(l, r, e, left, right);
    }
  }

  // ---------------------------------------------------------------------
  // Trimming and the two corrections

  lemma Pieces(prefix: string, suffix: string, a: string, p: nat, s: nat)
    requires p <= |a| - s && s <= |a|
    ensures prefix + a[..p] + a[p..|a| - s] + (a[|a| - s..] + suffix) == prefix + a + suffix
  {
    assert a[..p] + a[p..|a| - s] + a[|a| - s..] == a;
  }

  lemma SharedEnds(prefix: string, suffix: string, a: string, b: string, p: nat, s: nat)
    requires p + s <= |a| && p + s <= |b| && a[..p] == b[..p] && a[|a| - s..] == b[|b| - s..]
    ensures Rebuilds(Split(prefix + a[..p], a[|a| - s..] + suffix, a[p..|a| - s], b[p..|b| - s]),
                     prefix + a + suffix, prefix + b + suffix)
    ensures a[p..|a| - s] == "" && b[p..|b| - s] == "" ==> a == b
  {
    Pieces(prefix, suffix, a, p, s);
    Pieces(prefix, suffix, b, p, s);
    if a[p..|a| - s] == "" && b[p..|b| - s] == "" {
      assert a == a[..p] + a[|a| - s..] && b == b[..p] + b[|b| - s..];
    }
  }

  lemma TrimRebuilds(prefix: string, suffix: string, a: string, b: string, front: bool, back: bool)
    ensures Rebuilds(Trim(prefix, suffix, a, b, front, back), prefix + a + suffix, prefix + b + suffix)
    ensures var d := Trim(prefix, suffix, a, b, front, back); d.left == "" && d.right == "" ==> a == b
  {
    var s := if back then CommonSuffix(a, b) else 0;
    var a', b' := a[..|a| - s], b[..|b| - s];
    var p := if front then CommonPrefix(a', b') else 0;
    assert a[..p] == b[..p] by {
      assert a[..p] == a'[..p] && b[..p] == b'[..p];
    }
    CommonSuffixShared(a, b);
    SharedEnds(prefix, suffix, a, b, p, s);
  }

  lemma CorrectRebuilds(left: string, right: string, d: Split)
    requires Rebuilds(d, left, right) && (d.left == "" && d.right == "" ==> left == right)
    ensures Rebuilds(Correct(left, right, d), left, right)
  {
    assert left + "" + "" == left;
    if left <= right {
      assert left + right[|left|..] + "" == right;
    }
  }

  lemma FinishRebuilds(left: string, right: string, l: seq<Segment>, r: seq<Segment>, e: Ends)
    requires InRange(l, r, e) && CoversLeft(l, r, e, left) && CoversRight(l, r, e, right)
    ensures Rebuilds(Finish(left, right, l, r, e), left, right)
  {
    var a, b := Values(Open(l, e.ls, e.le, e.leftUsed)), Values(Open(r, e.rs, e.re, e.rightUsed));
    var textBack := l[e.le].kind == Text && r[e.re].kind == Text;
    var textFront := r[e.rs].kind == Text && l[e.ls].kind == Text;
    TrimRebuilds(e.prefix, e.suffix, a, b, textFront, textBack);
    CorrectRebuilds(left, right, Trim(e.prefix, e.suffix, a, b, textFront, textBack));
  }

  // ---------------------------------------------------------------------
  // The other cases

  predicate NonEmpty(segs: seq<Segment>) {
    forall i :: 0 <= i < |segs| ==> segs[i].value != ""
  }

  lemma SomeText(segs: seq<Segment>, i: nat, j: nat)
    requires NonEmpty(segs) && i < j <= |segs|
    ensures Values(segs[i..j]) != ""
  {
    assert segs[i..j][0] == segs[i];
  }

  /** Nothing open on either side: the result is the left text as prefix. */
  lemma NothingOpen(left: string, right: string, prefix: string, suffix: string, front: bool, back: bool)
    ensures Correct(left, right, Trim(prefix, suffix, "", "", front, back)) == Split(left, "", "", "")
  {
  }

  lemma NothingOpenRebuilds(left: string, right: string)
    ensures Rebuilds(Split(left, "", "", ""), left, right) <==> left == right
  {
    assert left + "" + "" == left;
  }

  /** Both last segments were taken together: the texts are equal. */
  lemma BothUsed(left: string, right: string, l: seq<Segment>, r: seq<Segment>, e: Ends)
    requires InRange(l, r, e) && CoversLeft(l, r, e, left) && CoversRight(l, r, e, right)
    requires e.leftUsed && e.rightUsed
    ensures left == right && Rebuilds(Finish(left, right, l, r, LastSegments(l, r, e)), left, right)
  {
    var e' := LastSegments(l, r, e);
    assert l[e.ls..e.le] == [] && r[e.rs..e.re] == [];
    NothingOpen(left, right, e'.prefix, e'.suffix,
                r[e'.rs].kind == Text && l[e'.ls].kind == Text, l[e'.le].kind == Text && r[e'.re].kind == Text);
    NothingOpenRebuilds(left, right);
  }

  /** Nothing open on the left, text open on the right, and too long a prefix and suffix. */
  lemma LeftTooLong(left: string, right: string, prefix: string, suffix: string, b: string, front: bool, back: bool)
    requires b != "" && |prefix| + |suffix| > |left|
    ensures Rebuilds(Correct(left, right, Trim(prefix, suffix, "", b, front, back)), left, right) <==> left <= right
  {
    var d := Trim(prefix, suffix, "", b, front, back);
    assert d == Split(prefix + "", "" + suffix, "", b);
    if left <= right {
      assert left + "" + "" == left && left + right[|left|..] + "" == right;
    }
  }

  lemma RightTooLong(left: string, right: string, prefix: string, suffix: string, a: string, front: bool, back: bool)
    requires a != "" && |prefix| + |suffix| > |right|
    ensures !Rebuilds(Correct(left, right, Trim(prefix, suffix, a, "", front, back)), left, right)
  {
    var d := Trim(prefix, suffix, a, "", front, back);
    assert d == Split(prefix + a[..0], a[|a|..] + suffix, a[0..|a|], "");
  }

  lemma UsedLength(segs: seq<Segment>, i: nat, prefix: string, suffix: string, text: string)
    requires i < |segs| && Covers(prefix, Open(segs, i, i, true), suffix, text)
    ensures |text| == |prefix| + |suffix|
  {
    assert segs[i..i] == [];
  }

  /** Taking the segment again makes prefix and suffix longer than the text. */
  lemma TakenAgain(l: seq<Segment>, r: seq<Segment>, e: Ends)
    requires InRange(l, r, e) && NonEmpty(l)
    requires LeftAgain(l, r, e) && e.rs != e.re
    ensures var e' := LastSegments(l, r, e);
            && |e'.prefix| + |e'.suffix| > |e.prefix| + |e.suffix|
            && e'.leftUsed && !e'.rightUsed && e'.ls == e'.le == e.ls
  {
    assert l[e.ls].value != "";
  }

  lemma LeftTwice(left: string, right: string, l: seq<Segment>, r: seq<Segment>, e: Ends)
    requires InRange(l, r, e) && CoversLeft(l, r, e, left) && NonEmpty(l) && NonEmpty(r)
    requires LeftAgain(l, r, e) && e.rs != e.re
    ensures Rebuilds(Finish(left, right, l, r, LastSegments(l, r, e)), left, right) <==> left <= right
  {
    UsedLength(l, e.ls, e.prefix, e.suffix, left);
    TakenAgain(l, r, e);
    LeftFinish(left, right, l, r, LastSegments(l, r, e));
  }

  lemma LeftFinish(left: string, right: string, l: seq<Segment>, r: seq<Segment>, e: Ends)
    requires InRange(l, r, e) && NonEmpty(r) && e.leftUsed && !e.rightUsed
    requires |e.prefix| + |e.suffix| > |left|
    ensures Rebuilds(Finish(left, right, l, r, e), left, right) <==> left <= right
  {
    assert l[e.ls..e.le] == [];
    SomeText(r, e.rs, e.re + 1);
    LeftTooLong(left, right, e.prefix, e.suffix, Values(r[e.rs..e.re + 1]),
                r[e.rs].kind == Text && l[e.ls].kind == Text, l[e.le].kind == Text && r[e.re].kind == Text);
  }

  lemma RightTwice(left: string, right: string, l: seq<Segment>, r: seq<Segment>, e: Ends)
    requires InRange(l, r, e) && CoversRight(l, r, e, right) && NonEmpty(l) && NonEmpty(r)
    requires RightAgain(l, r, e) && e.ls != e.le
    ensures !Rebuilds(Finish(left, right, l, r, LastSegments(l, r, e)), left, right)
  {
    var e' := LastSegments(l, r, e);
    assert r[e.rs..e.re] == [];
    assert |right| == |e.prefix| + |e.suffix|;
    assert |e'.prefix| + |e'.suffix| == |right| + |r[e.rs].value|;
    SomeText(l, e'.ls, e'.le + 1);
    RightTooLong(left, right, e'.prefix, e'.suffix, Values(l[e'.ls..e'.le + 1]),
                 r[e'.rs].kind == Text && l[e'.ls].kind == Text, l[e'.le].kind == Text && r[e'.re].kind == Text);
  }

  /** One segment left on each side, one of them already taken: the texts differ, the result does not. */
  lemma LastTwice(left: string, right: string, l: seq<Segment>, r: seq<Segment>, e: Ends)
    requires InRange(l, r, e) && CoversLeft(l, r, e, left) && CoversRight(l, r, e, right) && NonEmpty(l) && NonEmpty(r)
    requires e.ls == e.le && e.rs == e.re && (LeftAgain(l, r, e) || RightAgain(l, r, e))
    ensures !Rebuilds(Finish(left, right, l, r, LastSegments(l, r, e)), left, right)
  {
    var e' := LastSegments(l, r, e);
    assert l[e.ls..e.le] == [] && r[e.rs..e.re] == [];
    assert l[e.ls..e.le + 1] == [l[e.ls]] && r[e.rs..e.re + 1] == [r[e.rs]];
    ValuesOne(l[e.ls]);
    ValuesOne(r[e.rs]);
    NothingOpen(left, right, e'.prefix, e'.suffix, false, false);
    NothingOpenRebuilds(left, right);
    assert |left| != |right|;
  }

  // ---------------------------------------------------------------------
  // The exact condition

  function Matched(left: string, right: string): Ends
    requires Segmentize(left) != [] && Segmentize(right) != []
  {
    var l, r := Segmentize(left), Segmentize(right);
    Match(l, r, Start(l, r))
  }

  /** A segment is counted twice, and the correction for a left text that is a prefix does not apply. */
  predicate CountsTwice(left: string, right: string) {
    var l, r := Segmentize(left), Segmentize(right);
    && l != [] && r != []
    && var e := Matched(left, right);
       RightAgain(l, r, e) || (LeftAgain(l, r, e) && !(e.rs != e.re && left <= right))
  }

  lemma SegmentsNonEmpty(t: string)
    ensures NonEmpty(Segmentize(t))
  {
    forall i | 0 <= i < |Segmentize(t)| ensures Segmentize(t)[i].value != "" {
      SegmentsProper(t, i);
    }
  }

  lemma MatchedExact(left: string, right: string, l: seq<Segment>, r: seq<Segment>, e: Ends)
    requires InRange(l, r, e) && CoversLeft(l, r, e, left) && CoversRight(l, r, e, right) && NonEmpty(l) && NonEmpty(r)
    ensures Rebuilds(Finish(left, right, l, r, LastSegments(l, r, e)), left, right)
       <==> !(RightAgain(l, r, e) || (LeftAgain(l, r, e) && !(e.rs != e.re && left <= right)))
  {
    if e.leftUsed && e.rightUsed {
      BothUsed(left, right, l, r, e);
    } else if LeftAgain(l, r, e) && e.rs != e.re {
      LeftTwice(left, right, l, r, e);
    } else if RightAgain(l, r, e) && e.ls != e.le {
      RightTwice(left, right, l, r, e);
    } else if LeftAgain(l, r, e) || RightAgain(l, r, e) {
      LastTwice(left, right, l, r, e);
    } else {
      LastCovers(l, r, e, left, right);
      FinishRebuilds(left, right, l, r, LastSegments(l, r, e));
    }
  }

  /** The difference rebuilds both texts exactly when no segment is counted twice. */
  lemma SplitExact(left: string, right: string)
    ensures Rebuilds(CalculateDiffSplit(left, right), left, right) <==> !CountsTwice(left, right)
  {
    var l, r := Segmentize(left), Segmentize(right);
    SegmentsLossless(left);
    SegmentsLossless(right);
    if l != [] && r != [] {
      StartCovers(left, right);
      MatchCovers(l, r, Start(l, r), left, right);
      SegmentsNonEmpty(left);
      SegmentsNonEmpty(right);
      MatchedExact(left, right, l, r, Matched(left, right));
    } else {
      assert "" + right + "" == right && "" + left + "" == left && "" + "" + "" == "";
    }
  }

  /** When the loop marks neither side as used, the difference rebuilds both texts. */
  lemma UnmarkedRebuilds(left: string, right: string)
    requires Segmentize(left) != [] && Segmentize(right) != []
    requires !Matched(left, right).leftUsed && !Matched(left, right).rightUsed
    ensures Rebuilds(CalculateDiffSplit(left, right), left, right)
  {
    SplitExact(left, right);
  }

  lemma {:induction false} SameStays(l: seq<Segment>, e: Ends)
    requires InRange(l, l, e) && e.ls == e.rs && e.le == e.re && e.leftUsed == e.rightUsed
    ensures Match(l, l, e).leftUsed == Match(l, l, e).rightUsed
    decreases (e.le - e.ls) + (e.re - e.rs)
  {
    if MayContinue(e) && Turn(l, l, e) != e {
      SameStays(l, Turn(l, l, e));
    }
  }

  /** Equal texts are rebuilt. */
  lemma EqualRebuilds(text: string)
    ensures Rebuilds(CalculateDiffSplit(text, text), text, text)
  {
    var l := Segmentize(text);
    SplitExact(text, text);
    if l != [] {
      SameStays(l, Start(l, l));
    }
  }

  lemma ShortMarker(m: string, rest: string)
    requires |m| == 3 && m[0] == '<' && m[1] != '>' && m[2] == '>'
    ensures Segmentize(m + rest) == [Segment(Marker, m)] + Segmentize(rest)
  {
    var t := m + rest;
    MarkerEnds(t, 2);
    assert t[..3] == m && t[3..] == rest;
  }

  /** `<a><b>` against `<a><b><b>`: the loop takes the left `<b>` as shared and it is then counted again. */
  lemma RepeatedMarkerLost(a: string, b: string)
    requires a == "<a>" && b == "<b>"
    ensures !Rebuilds(CalculateDiffSplit(a + b, a + (b + b)), a + b, a + (b + b))
  {
    ShortMarker(b, "");
    assert b + "" == b;
    ShortMarker(b, b);
    ShortMarker(a, b);
    ShortMarker(a, b + b);
    RepeatedSegmentLost(a + b, a + (b + b), Segment(Marker, a), Segment(Marker, b));
  }

  lemma RepeatedSegmentLost(left: string, right: string, a: Segment, b: Segment)
    requires Segmentize(left) == [a, b] && Segmentize(right) == [a, b, b] && b.kind == Marker
    ensures !Rebuilds(CalculateDiffSplit(left, right), left, right)
  {
    var l, r := [a, b], [a, b, b];
    var e := Start(l, r);
    var e' := Turn(l, r, e);
    assert e'.ls == e'.le == 1 && e'.leftUsed && e'.rs == e'.re == 1 && !e'.rightUsed;
    assert Match(l, r, e) == Match(l, r, e') == e';
    assert LeftAgain(l, r, e');
    assert CountsTwice(left, right);
    SplitExact(left, right);
  }
}
