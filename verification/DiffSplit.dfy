/** The marker-aligned difference of two texts: shared front, shared back, and what differs. */
module DiffSplit {
  import opened Segments

  datatype Split = Split(prefix: string, suffix: string, left: string, right: string)

  /** Where the two-ended matching stands. The open segments of a side are those from its start to
      its end; `leftUsed` says that the one segment left was already taken as shared. */
  datatype Ends = Ends(
    ls: nat, le: nat, rs: nat, re: nat,
    prefix: string, suffix: string,
    leftUsed: bool, rightUsed: bool)

  predicate InRange(l: seq<Segment>, r: seq<Segment>, e: Ends) {
    && e.ls <= e.le < |l| && e.rs <= e.re < |r|
    && (e.leftUsed ==> e.ls == e.le) && (e.rightUsed ==> e.rs == e.re)
  }

  // ---------------------------------------------------------------------
  // The two-ended loop

  /** The front segments agree and are taken. */
  function TakeFront(l: seq<Segment>, r: seq<Segment>, e: Ends): Ends
    requires InRange(l, r, e)
  {
    if l[e.ls] == r[e.rs] then e.(prefix := e.prefix + l[e.ls].value, ls := e.ls + 1, rs := e.rs + 1) else e
  }

  /** The back segments agree and are taken; the last segment of a side is only marked. */
  function TakeBack(l: seq<Segment>, r: seq<Segment>, e: Ends): Ends
    requires InRange(l, r, e)
  {
    if l[e.le] == r[e.re] then
      e.(suffix := l[e.le].value + e.suffix,
         le := if e.ls != e.le then e.le - 1 else e.le, leftUsed := e.leftUsed || e.ls == e.le,
         re := if e.rs != e.re then e.re - 1 else e.re, rightUsed := e.rightUsed || e.rs == e.re)
    else e
  }

  predicate MayContinue(e: Ends) {
    e.ls != e.le && e.rs != e.re
  }

  function Turn(l: seq<Segment>, r: seq<Segment>, e: Ends): (e': Ends)
    requires InRange(l, r, e) && MayContinue(e)
    ensures InRange(l, r, e')
    ensures e' == e || (e'.le - e'.ls) + (e'.re - e'.rs) < (e.le - e.ls) + (e.re - e.rs)
  {
    TakeBack(l, r, TakeFront(l, r, e))
  }

  function Match(l: seq<Segment>, r: seq<Segment>, e: Ends): (e': Ends)
    requires InRange(l, r, e)
    ensures InRange(l, r, e')
    decreases (e.le - e.ls) + (e.re - e.rs)
  {
    if !MayContinue(e) || Turn(l, r, e) == e then e else Match(l, r, Turn(l, r, e))
  }

  // ---------------------------------------------------------------------
  // Behind the loop

  /** When one side has one segment left it may still match an end of the other side. */
  function LastSegments(l: seq<Segment>, r: seq<Segment>, e: Ends): (e': Ends)
    requires InRange(l, r, e)
    ensures InRange(l, r, e')
  {
    if e.ls == e.le && e.rs != e.re then
      if l[e.ls] == r[e.re] then
        e.(suffix := r[e.re].value + e.suffix, re := e.re - 1, leftUsed := true)
      else if l[e.ls] == r[e.rs] then
        e.(prefix := e.prefix + r[e.rs].value, rs := e.rs + 1, leftUsed := true)
      else e
    else if e.rs == e.re && e.ls != e.le then
      if l[e.le] == r[e.rs] then
        e.(suffix := l[e.le].value + e.suffix, le := e.le - 1, rightUsed := true)
      else if l[e.ls] == r[e.rs] then
        e.(prefix := e.prefix + l[e.ls].value, ls := e.ls + 1, rightUsed := true)
      else e
    else if e.ls == e.le && e.rs == e.re && l[e.ls] == r[e.rs] && l[e.ls].kind == Marker then
      e.(prefix := e.prefix + r[e.rs].value, leftUsed := true, rightUsed := true)
    else e
  }

  function Open(segs: seq<Segment>, start: nat, end: nat, used: bool): seq<Segment>
    requires start <= end < |segs|
  {
    segs[start..if used then end else end + 1]
  }

  function CommonPrefix(a: string, b: string): (k: nat)
    ensures k <= |a| && k <= |b| && a[..k] == b[..k]
  {
    if a == "" || b == "" || a[0] != b[0] then 0
    else
      var k := 1 + CommonPrefix(a[1..], b[1..]);
      assert a[..k] == [a[0]] + a[1..][..k - 1] && b[..k] == [b[0]] + b[1..][..k - 1];
      k
  }

  function CommonSuffix(a: string, b: string): (k: nat)
    ensures k <= |a| && k <= |b|
  {
    if a == "" || b == "" || a[|a| - 1] != b[|b| - 1] then 0
    else 1 + CommonSuffix(a[..|a| - 1], b[..|b| - 1])
  }

  lemma {:induction false} CommonSuffixShared(a: string, b: string)
    ensures var k := CommonSuffix(a, b); a[|a| - k..] == b[|b| - k..]
  {
    if a != "" && b != "" && a[|a| - 1] == b[|b| - 1] {
      var a', b' := a[..|a| - 1], b[..|b| - 1];
      var k := CommonSuffix(a', b');
      CommonSuffixShared(a', b');
      assert a[|a| - 1 - k..] == a'[|a'| - k..] + [a[|a| - 1]];
      assert b[|b| - 1 - k..] == b'[|b'| - k..] + [b[|b| - 1]];
    }
  }

  /** The shared ends of two open texts move into prefix and suffix, as far as both ends are text. */
  function Trim(prefix: string, suffix: string, a: string, b: string, textFront: bool, textBack: bool): Split {
    var s := if textBack then CommonSuffix(a, b) else 0;
    var p := if textFront then CommonPrefix(a[..|a| - s], b[..|b| - s]) else 0;
    Split(prefix + a[..p], a[|a| - s..] + suffix, a[p..|a| - s], b[p..|b| - s])
  }

  /** Two corrections: no difference at all, and a left text that is a prefix of the right one. */
  function Correct(left: string, right: string, d: Split): Split {
    var d1 := if d.left == "" && d.right == "" then d.(prefix := left, suffix := "") else d;
    if d1.left == "" && d1.right != "" && left <= right
    then Split(left, "", "", right[|left|..]) else d1
  }

  function Finish(left: string, right: string, l: seq<Segment>, r: seq<Segment>, e: Ends): Split
    requires InRange(l, r, e)
  {
    var a, b := Values(Open(l, e.ls, e.le, e.leftUsed)), Values(Open(r, e.rs, e.re, e.rightUsed));
    var textBack := l[e.le].kind == Text && r[e.re].kind == Text;
    var textFront := r[e.rs].kind == Text && l[e.ls].kind == Text;
    Correct(left, right, Trim(e.prefix, e.suffix, a, b, textFront, textBack))
  }

  function Start(l: seq<Segment>, r: seq<Segment>): Ends
    requires l != [] && r != []
  {
    Ends(0, |l| - 1, 0, |r| - 1, "", "", false, false)
  }

  function CalculateDiffSplit(left: string, right: string): Split {
    var l, r := Segmentize(left), Segmentize(right);
    if l == [] then Split("", "", "", right)
    else if r == [] then Split("", "", left, "")
    else Finish(left, right, l, r, LastSegments(l, r, Match(l, r, Start(l, r))))
  }

  // ---------------------------------------------------------------------
  // Conservation

  predicate Rebuilds(d: Split, left: string, right: string) {
    d.prefix + d.left + d.suffix == left && d.prefix + d.right + d.suffix == right
  }

  /** Prefix, open segments and suffix make up the text of one side. */
  predicate Covers(prefix: string, open: seq<Segment>, suffix: string, text: string) {
    prefix + Values(open) + suffix == text
  }

  predicate CoversLeft(l: seq<Segment>, r: seq<Segment>, e: Ends, left: string)
    requires InRange(l, r, e)
  {
    Covers(e.prefix, Open(l, e.ls, e.le, e.leftUsed), e.suffix, left)
  }

  predicate CoversRight(l: seq<Segment>, r: seq<Segment>, e: Ends, right: string)
    requires InRange(l, r, e)
  {
    Covers(e.prefix, Open(r, e.rs, e.re, e.rightUsed), e.suffix, right)
  }

  /** A segment moves from the front of the open ones into the prefix. */
  lemma MoveFront(prefix: string, segs: seq<Segment>, i: nat, j: nat, suffix: string, text: string)
    requires i < j <= |segs|
    ensures Covers(prefix, segs[i..j], suffix, text) <==> Covers(prefix + segs[i].value, segs[i + 1..j], suffix, text)
  {
    assert segs[i..j] == [segs[i]] + segs[i + 1..j];
    ValuesConcat([segs[i]], segs[i + 1..j]);
    ValuesOne(segs[i]);
    assert prefix + (segs[i].value + Values(segs[i + 1..j])) + suffix == prefix + segs[i].value + Values(segs[i + 1..j]) + suffix;
  }

  lemma MoveBack(prefix: string, segs: seq<Segment>, i: nat, j: nat, suffix: string, text: string)
    requires i < j <= |segs|
    ensures Covers(prefix, segs[i..j], suffix, text) <==> Covers(prefix, segs[i..j - 1], segs[j - 1].value + suffix, text)
  {
    assert segs[i..j] == segs[i..j - 1] + [segs[j - 1]];
    ValuesConcat(segs[i..j - 1], [segs[j - 1]]);
    ValuesOne(segs[j - 1]);
    assert prefix + (Values(segs[i..j - 1]) + segs[j - 1].value) + suffix == prefix + Values(segs[i..j - 1]) + (segs[j - 1].value + suffix);
  }

  lemma FrontCovers(l: seq<Segment>, r: seq<Segment>, e: Ends, left: string, right: string)
    requires InRange(l, r, e) && MayContinue(e) && CoversLeft(l, r, e, left) && CoversRight(l, r, e, right)
    ensures var e' := TakeFront(l, r, e);
            InRange(l, r, e') && !e'.leftUsed && !e'.rightUsed && CoversLeft(l, r, e', left) && CoversRight(l, r, e', right)
  {
    MoveFront(e.prefix, l, e.ls, e.le + 1, e.suffix, left);
    MoveFront(e.prefix, r, e.rs, e.re + 1, e.suffix, right);
  }

  lemma BackMove(prefix: string, segs: seq<Segment>, i: nat, j: nat, suffix: string, text: string)
    requires i <= j < |segs| && Covers(prefix, Open(segs, i, j, false), suffix, text)
    ensures if i == j then Covers(prefix, Open(segs, i, j, true), segs[j].value + suffix, text)
            else Covers(prefix, Open(segs, i, j - 1, false), segs[j].value + suffix, text)
  {
    MoveBack(prefix, segs, i, j + 1, suffix, text);
  }

  lemma BackCovers(l: seq<Segment>, r: seq<Segment>, e: Ends, left: string, right: string)
    requires InRange(l, r, e) && !e.leftUsed && !e.rightUsed && CoversLeft(l, r, e, left) && CoversRight(l, r, e, right)
    ensures var e' := TakeBack(l, r, e);
            InRange(l, r, e') && CoversLeft(l, r, e', left) && CoversRight(l, r, e', right)
  {
    BackMove(e.prefix, l, e.ls, e.le, e.suffix, left);
    BackMove(e.prefix, r, e.rs, e.re, e.suffix, right);
  }

  /** The loop conserves both texts, also when it marks a last segment as used. */
  lemma {:induction false} MatchCovers(l: seq<Segment>, r: seq<Segment>, e: Ends, left: string, right: string)
    requires InRange(l, r, e) && CoversLeft(l, r, e, left) && CoversRight(l, r, e, right)
    ensures CoversLeft(l, r, Match(l, r, e), left) && CoversRight(l, r, Match(l, r, e), right)
    decreases (e.le - e.ls) + (e.re - e.rs)
  {
    if MayContinue(e) && Turn(l, r, e) != e {
      FrontCovers(l, r, e, left, right);
      BackCovers(l, r, TakeFront(l, r, e), left, right);
      MatchCovers(l, r, Turn(l, r, e), left, right);
    }
  }

  lemma StartCovers(left: string, right: string)
    requires Segmentize(left) != [] && Segmentize(right) != []
    ensures var l, r := Segmentize(left), Segmentize(right);
            CoversLeft(l, r, Start(l, r), left) && CoversRight(l, r, Start(l, r), right)
  {
    var l, r := Segmentize(left), Segmentize(right);
    SegmentsLossless(left);
    SegmentsLossless(right);
    assert l[0..|l|] == l && r[0..|r|] == r;
    assert "" + left + "" == left && "" + right + "" == right;
  }

  // ---------------------------------------------------------------------
  // The loops

  /** The common length is the longest possible. */
  lemma {:induction false} CommonPrefixLongest(a: string, b: string)
    ensures var k := CommonPrefix(a, b); k < |a| && k < |b| ==> a[k] != b[k]
  {
    if a != "" && b != "" && a[0] == b[0] {
      CommonPrefixLongest(a[1..], b[1..]);
    }
  }

  lemma {:induction false} CommonSuffixLongest(a: string, b: string)
    ensures var k := CommonSuffix(a, b); k < |a| && k < |b| ==> a[|a| - 1 - k] != b[|b| - 1 - k]
  {
    if a != "" && b != "" && a[|a| - 1] == b[|b| - 1] {
      CommonSuffixLongest(a[..|a| - 1], b[..|b| - 1]);
    }
  }

  method CommonPrefixLen(left: string, right: string) returns (k: nat)
    ensures k == CommonPrefix(left, right)
  {
    k := 0;
    assert left[0..] == left && right[0..] == right;
    while k < |left| && k < |right| && left[k] == right[k]
      invariant k <= |left| && k <= |right|
      invariant CommonPrefix(left, right) == k + CommonPrefix(left[k..], right[k..])
    {
      assert left[k..][1..] == left[k + 1..] && right[k..][1..] == right[k + 1..];
      k := k + 1;
    }
  }

  lemma SuffixStep(left: string, right: string, k: nat)
    requires k < |left| && k < |right| && left[|left| - 1 - k] == right[|right| - 1 - k]
    ensures CommonSuffix(left[..|left| - k], right[..|right| - k])
         == 1 + CommonSuffix(left[..|left| - k - 1], right[..|right| - k - 1])
  {
    var a, b := left[..|left| - k], right[..|right| - k];
    assert a[..|a| - 1] == left[..|left| - k - 1] && b[..|b| - 1] == right[..|right| - k - 1];
  }

  method CommonSuffixLen(left: string, right: string) returns (k: nat)
    ensures k == CommonSuffix(left, right)
  {
    k := 0;
    assert left[..|left|] == left && right[..|right|] == right;
    while k < |left| && k < |right| && left[|left| - 1 - k] == right[|right| - 1 - k]
      invariant k <= |left| && k <= |right|
      invariant CommonSuffix(left, right) == k + CommonSuffix(left[..|left| - k], right[..|right| - k])
    {
      SuffixStep(left, right, k);
      k := k + 1;
    }
  }

  lemma MatchStep(l: seq<Segment>, r: seq<Segment>, e: Ends)
    requires InRange(l, r, e) && MayContinue(e)
    ensures Match(l, r, e) == if Turn(l, r, e) == e then e else Match(l, r, Turn(l, r, e))
  {
  }

  /** The loop that takes equal segments from both ends. */
  method MatchEnds(l: seq<Segment>, r: seq<Segment>) returns (e: Ends)
    requires l != [] && r != []
    ensures e == Match(l, r, Start(l, r))
  {
    var leftStart: nat, leftEnd: nat := 0, |l| - 1;
    var rightStart: nat, rightEnd: nat := 0, |r| - 1;
    var prefix, suffix := "", "";
    var leftUsed, rightUsed := false, false;
    e := Start(l, r);
    while leftStart != leftEnd && rightStart != rightEnd
      invariant e == Ends(leftStart, leftEnd, rightStart, rightEnd, prefix, suffix, leftUsed, rightUsed)
      invariant InRange(l, r, e)
      invariant Match(l, r, Start(l, r)) == Match(l, r, e)
      decreases (e.le - e.ls) + (e.re - e.rs)
    {
      hide Match;
      var advanced := false;
      ghost var next := Turn(l, r, e);
      MatchStep(l, r, e);
      if l[leftStart] == r[rightStart] {
        prefix := prefix + l[leftStart].value;
        leftStart, rightStart := leftStart + 1, rightStart + 1;
        advanced := true;
      }
      if l[leftEnd] == r[rightEnd] {
        suffix := l[leftEnd].value + suffix;
        if leftStart != leftEnd {
          leftEnd := leftEnd - 1;
        } else {
          leftUsed := true;
        }
        if rightStart != rightEnd {
          rightEnd := rightEnd - 1;
        } else {
          rightUsed := true;
        }
        advanced := true;
      }
      if !advanced {
        assert next == e;
        break;
      }
      e := Ends(leftStart, leftEnd, rightStart, rightEnd, prefix, suffix, leftUsed, rightUsed);
      assert e == next;
    }
  }

  method Calculate(left: string, right: string) returns (d: Split)
    ensures d == CalculateDiffSplit(left, right)
  {
    var l := SegmentizeMarkers(left);
    var r := SegmentizeMarkers(right);
    if l == [] {
      return Split("", "", "", right);
    }
    if r == [] {
      return Split("", "", left, "");
    }
    var e := MatchEnds(l, r);
    e := LastSegments(l, r, e);
    var a, b := Values(Open(l, e.ls, e.le, e.leftUsed)), Values(Open(r, e.rs, e.re, e.rightUsed));
    var textBack := l[e.le].kind == Text && r[e.re].kind == Text;
    var textFront := r[e.rs].kind == Text && l[e.ls].kind == Text;
    d := TrimEnds(e.prefix, e.suffix, a, b, textFront, textBack);
    d := Correct(left, right, d);
  }

  method TrimEnds(prefix: string, suffix: string, a: string, b: string, textFront: bool, textBack: bool)
    returns (d: Split)
    ensures d == Trim(prefix, suffix, a, b, textFront, textBack)
  {
    var suffixLen, prefixLen := 0, 0;
    if textBack {
      suffixLen := CommonSuffixLen(a, b);
    }
    if textFront {
      prefixLen := CommonPrefixLen(a[..|a| - suffixLen], b[..|b| - suffixLen]);
    }
    d := Split(prefix + a[..prefixLen], a[|a| - suffixLen..] + suffix,
               a[prefixLen..|a| - suffixLen], b[prefixLen..|b| - suffixLen]);
  }
}
