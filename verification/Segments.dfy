/** Cutting rendered template text into markers, `<...>` or `[...]`, and the text between them. */
module Segments {

  datatype Kind = Text | Marker

  datatype Segment = Segment(kind: Kind, value: string)

  predicate Opener(c: char) {
    c == '<' || c == '['
  }

  predicate Closer(open: char, c: char) {
    (open == '<' && c == '>') || (open == '[' && c == ']')
  }

  /** The position of the first opener, or the length of the text. */
  function FirstOpener(t: string): (k: nat)
    ensures k <= |t|
  {
    if t == "" || Opener(t[0]) then 0 else 1 + FirstOpener(t[1..])
  }

  function FirstCloser(open: char, t: string): (k: nat)
    ensures k <= |t|
  {
    if t == "" || Closer(open, t[0]) then 0 else 1 + FirstCloser(open, t[1..])
  }

  /** What the two positions mean. */
  lemma {:induction false} FirstOpenerIs(t: string)
    ensures forall i :: 0 <= i < FirstOpener(t) ==> !Opener(t[i])
    ensures FirstOpener(t) < |t| ==> Opener(t[FirstOpener(t)])
  {
    if t != "" && !Opener(t[0]) {
      FirstOpenerIs(t[1..]);
    }
  }

  lemma {:induction false} FirstCloserIs(open: char, t: string)
    ensures forall i :: 0 <= i < FirstCloser(open, t) ==> !Closer(open, t[i])
    ensures FirstCloser(open, t) < |t| ==> Closer(open, t[FirstCloser(open, t)])
  {
    if t != "" && !Closer(open, t[0]) {
      FirstCloserIs(open, t[1..]);
    }
  }

  /** A marker runs from an opener to its first closer; an opener that is never closed makes the
      rest of the text plain. */
  function Segmentize(t: string): seq<Segment>
    decreases |t|
  {
    if t == "" then []
    else if Opener(t[0]) then
      var k := 1 + FirstCloser(t[0], t[1..]);
      if k == |t| then [Segment(Text, t)]
      else [Segment(Marker, t[..k + 1])] + Segmentize(t[k + 1..])
    else
      var k := FirstOpener(t);
      [Segment(Text, t[..k])] + Segmentize(t[k..])
  }

  function Values(segs: seq<Segment>): string {
    if segs == [] then "" else segs[0].value + Values(segs[1..])
  }

  lemma {:induction false} ValuesConcat(a: seq<Segment>, b: seq<Segment>)
    ensures Values(a + b) == Values(a) + Values(b)
  {
    if a == [] {
      assert a + b == b;
    } else {
      assert (a + b)[1..] == a[1..] + b;
      ValuesConcat(a[1..], b);
    }
  }

  lemma ValuesOne(s: Segment)
    ensures Values([s]) == s.value
  {
    assert [s][1..] == [];
  }

  /** No character behind the first one closes what it opens. */
  predicate Unclosed(v: string)
    requires v != ""
  {
    forall i :: 0 < i < |v| ==> !Closer(v[0], v[i])
  }

  /** A marker opens at its first character and closes at its last, and not before;
      text has no opener, unless it is the unclosed rest. */
  predicate ProperSegment(s: Segment, last: bool) {
    var v := s.value;
    && v != ""
    && match s.kind
       case Marker => |v| > 1 && Opener(v[0]) && Closer(v[0], v[|v| - 1]) && Unclosed(v[..|v| - 1])
       case Text => (forall i :: 0 <= i < |v| ==> !Opener(v[i])) || (last && Opener(v[0]) && Unclosed(v))
  }

  lemma FirstSegmentProper(t: string)
    requires t != ""
    ensures Segmentize(t) != [] && ProperSegment(Segmentize(t)[0], |Segmentize(t)| == 1)
  {
    if Opener(t[0]) {
      var k := 1 + FirstCloser(t[0], t[1..]);
      FirstCloserIs(t[0], t[1..]);
      assert forall i :: 0 < i < k ==> t[i] == t[1..][i - 1];
      if k < |t| {
        assert t[k] == t[1..][k - 1];
        assert t[..k + 1][..k] == t[..k];
      }
    } else {
      FirstOpenerIs(t);
    }
  }

  /** How much of the text the first segment takes. */
  function FirstCut(t: string): nat {
    if t == "" then 0
    else if !Opener(t[0]) then FirstOpener(t)
    else if 1 + FirstCloser(t[0], t[1..]) == |t| then |t| else 2 + FirstCloser(t[0], t[1..])
  }

  lemma OtherSegments(t: string)
    requires t != ""
    ensures 0 < FirstCut(t) <= |t| && Segmentize(t)[1..] == Segmentize(t[FirstCut(t)..])
  {
    if !Opener(t[0]) {
    } else {
      var k := 1 + FirstCloser(t[0], t[1..]);
      if k == |t| {
        assert t[k..] == "";
      }
    }
  }

  lemma FirstSegmentText(t: string)
    requires t != ""
    ensures Segmentize(t) != [] && FirstCut(t) <= |t| && Segmentize(t)[0].value == t[..FirstCut(t)]
  {
    if Opener(t[0]) && 1 + FirstCloser(t[0], t[1..]) == |t| {
      assert t[..|t|] == t;
    }
  }

  /** Nothing is lost: the segments put together are the text. */
  lemma {:induction false} SegmentsLossless(t: string)
    ensures Values(Segmentize(t)) == t
    decreases |t|
  {
    if t != "" {
      FirstSegmentText(t);
      OtherSegments(t);
      SegmentsLossless(t[FirstCut(t)..]);
      assert t[..FirstCut(t)] + t[FirstCut(t)..] == t;
    }
  }

  /** Every segment is a marker closed at its first closer, or text without openers. */
  lemma {:induction false} SegmentsProper(t: string, i: nat)
    requires i < |Segmentize(t)|
    ensures ProperSegment(Segmentize(t)[i], i == |Segmentize(t)| - 1)
    decreases |t|
  {
    if i == 0 {
      FirstSegmentProper(t);
    } else {
      OtherSegments(t);
      assert Segmentize(t)[i] == Segmentize(t)[1..][i - 1];
      SegmentsProper(t[FirstCut(t)..], i - 1);
    }
  }

  // ---------------------------------------------------------------------
  // The scanning loop

  lemma {:induction false} FirstOpenerAt(t: string, k: nat)
    requires k <= |t| && (forall i :: 0 <= i < k ==> !Opener(t[i])) && (k < |t| ==> Opener(t[k]))
    ensures FirstOpener(t) == k
    decreases k
  {
    if k > 0 {
      FirstOpenerAt(t[1..], k - 1);
    }
  }

  lemma {:induction false} FirstCloserAt(open: char, t: string, k: nat)
    requires k <= |t| && (forall i :: 0 <= i < k ==> !Closer(open, t[i])) && (k < |t| ==> Closer(open, t[k]))
    ensures FirstCloser(open, t) == k
    decreases k
  {
    if k > 0 {
      FirstCloserAt(open, t[1..], k - 1);
    }
  }

  lemma TextEnds(t: string, k: nat)
    requires 0 < k <= |t| && (forall i :: 0 <= i < k ==> !Opener(t[i])) && (k < |t| ==> Opener(t[k]))
    ensures Segmentize(t) == [Segment(Text, t[..k])] + Segmentize(t[k..])
  {
    FirstOpenerAt(t, k);
  }

  lemma MarkerCloser(t: string, k: nat)
    requires 0 < k < |t| && Closer(t[0], t[k]) && forall i :: 0 < i < k ==> !Closer(t[0], t[i])
    ensures FirstCloser(t[0], t[1..]) == k - 1
  {
    var open, u := t[0], t[1..];
    assert Closer(open, u[k - 1]);
    forall i | 0 <= i < k - 1 ensures !Closer(open, u[i]) {
      assert u[i] == t[i + 1];
    }
    FirstCloserAt(open, u, k - 1);
  }

  lemma MarkerEnds(t: string, k: nat)
    requires 0 < k < |t| && Opener(t[0]) && Closer(t[0], t[k])
    requires forall i :: 0 < i < k ==> !Closer(t[0], t[i])
    ensures Segmentize(t) == [Segment(Marker, t[..k + 1])] + Segmentize(t[k + 1..])
  {
    MarkerCloser(t, k);
  }

  lemma NeverClosed(t: string)
    requires t != "" && Opener(t[0]) && forall i :: 0 < i < |t| ==> !Closer(t[0], t[i])
    ensures Segmentize(t) == [Segment(Text, t)]
  {
    FirstCloserAt(t[0], t[1..], |t| - 1);
  }

  /** The segments found so far, and those of the text behind the border, are all segments. */
  predicate Done(text: string, border: nat, segs: seq<Segment>, whole: seq<Segment>) {
    border <= |text| && whole == segs + Segmentize(text[border..])
  }

  /** Moving the border past one more segment. */
  lemma DoneStep(text: string, border: nat, pos: nat, s: Segment, segs: seq<Segment>, whole: seq<Segment>)
    requires Done(text, border, segs, whole) && border <= pos <= |text|
    requires Segmentize(text[border..]) == [s] + Segmentize(text[pos..])
    ensures Done(text, pos, segs + [s], whole)
  {
    var rest := Segmentize(text[pos..]);
    assert segs + ([s] + rest) == segs + [s] + rest;
  }

  lemma TextStep(text: string, border: nat, pos: nat)
    requires border < pos <= |text| && (forall i :: border <= i < pos ==> !Opener(text[i]))
    requires pos < |text| ==> Opener(text[pos])
    ensures Segmentize(text[border..]) == [Segment(Text, text[border..pos])] + Segmentize(text[pos..])
  {
    var rest, k := text[border..], pos - border;
    TextEnds(rest, k);
    assert rest[..k] == text[border..pos] && rest[k..] == text[pos..];
  }

  lemma MarkerStep(text: string, border: nat, pos: nat)
    requires border < pos < |text| && Opener(text[border]) && Closer(text[border], text[pos])
    requires forall i :: border < i < pos ==> !Closer(text[border], text[i])
    ensures Segmentize(text[border..]) == [Segment(Marker, text[border..pos + 1])] + Segmentize(text[pos + 1..])
  {
    var rest, k := text[border..], pos - border;
    assert forall i :: 0 < i < k ==> rest[i] == text[border + i];
    MarkerEnds(rest, k);
    assert rest[..k + 1] == text[border..pos + 1] && rest[k + 1..] == text[pos + 1..];
  }

  /** Where the scan is: inside an unclosed marker that starts at the border, or in text behind it. */
  predicate Scanned(text: string, border: nat, pos: nat, inMarker: bool) {
    && border <= pos <= |text|
    && (inMarker ==> border < pos && Opener(text[border])
                     && forall i :: border < i < pos ==> !Closer(text[border], text[i]))
    && (!inMarker ==> forall i :: border <= i < pos ==> !Opener(text[i]))
  }

  /** What one character does to the segments and the border. */
  lemma ScanStep(text: string, border: nat, pos: nat, inMarker: bool, segs: seq<Segment>, whole: seq<Segment>)
    requires Scanned(text, border, pos, inMarker) && pos < |text| && Done(text, border, segs, whole)
    ensures !inMarker && Opener(text[pos]) ==>
              Done(text, pos, if border < pos then segs + [Segment(Text, text[border..pos])] else segs, whole)
    ensures inMarker && Closer(text[border], text[pos]) ==>
              Done(text, pos + 1, segs + [Segment(Marker, text[border..pos + 1])], whole)
  {
    if !inMarker && Opener(text[pos]) && border < pos {
      TextStep(text, border, pos);
      DoneStep(text, border, pos, Segment(Text, text[border..pos]), segs, whole);
    } else if inMarker && Closer(text[border], text[pos]) {
      MarkerStep(text, border, pos);
      DoneStep(text, border, pos + 1, Segment(Marker, text[border..pos + 1]), segs, whole);
    }
  }

  lemma LastStep(text: string, border: nat, inMarker: bool, segs: seq<Segment>, whole: seq<Segment>)
    requires Scanned(text, border, |text|, inMarker) && Done(text, border, segs, whole)
    ensures whole == if border < |text| then segs + [Segment(Text, text[border..])] else segs
  {
    if border == |text| {
      assert text[border..] == "";
    } else if inMarker {
      NeverClosed(text[border..]);
    } else {
      TextStep(text, border, |text|);
      assert text[border..|text|] == text[border..] && text[|text|..] == "";
    }
  }

  /** One pass with a border behind the last finished segment. */
  method SegmentizeMarkers(text: string) returns (segs: seq<Segment>)
    ensures segs == Segmentize(text)
  {
    segs := [];
    var inMarker, border := false, 0;
    ghost var whole := Segmentize(text);
    assert Done(text, 0, [], whole) by {
      assert text[0..] == text;
    }
    hide Done, Segmentize;
    for pos := 0 to |text|
      invariant Scanned(text, border, pos, inMarker)
      invariant Done(text, border, segs, whole)
    {
      ScanStep(text, border, pos, inMarker, segs, whole);
      if !inMarker && Opener(text[pos]) {
        if border < pos {
          segs := segs + [Segment(Text, text[border..pos])];
        }
        border, inMarker := pos, true;
      } else if inMarker && Closer(text[border], text[pos]) {
        segs := segs + [Segment(Marker, text[border..pos + 1])];
        border, inMarker := pos + 1, false;
      }
    }
    LastStep(text, border, inMarker, segs, whole);
    if border < |text| {
      segs := segs + [Segment(Text, text[border..])];
    }
  }
}
