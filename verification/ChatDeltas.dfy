/** When the deltas between two messages can be computed, what they are, and what a client has after them. */
module ChatDeltas {
  import opened Basics
  import opened ChatMapper
  import opened ChatDiff

  /** One text is the beginning of the other. */
  predicate Comparable(a: string, b: string) {
    a <= b || b <= a
  }

  /** The new text, unless it only takes some of the old one back. */
  function Longer(a: string, b: string): string {
    if a <= b then b else a
  }

  predicate TextsFit(p: Msg, n: Msg) {
    Comparable(p.reasoning, n.reasoning) && Comparable(p.content, n.content)
  }

  /** The name may be taken back altogether, or go on. */
  predicate NameFits(p: ToolCall, n: ToolCall) {
    n.name == "" || p.name <= n.name
  }

  function LastOld(p: Msg): ToolCall
    requires p.calls != []
  {
    p.calls[|p.calls| - 1]
  }

  function LastNew(p: Msg, n: Msg): ToolCall
    requires p.calls != [] && |p.calls| <= |n.calls|
  {
    n.calls[|p.calls| - 1]
  }

  /** What two messages must have in common. */
  predicate Diffable(p: Msg, n: Msg) {
    && TextsFit(p, n) && |p.calls| <= |n.calls|
    && (p.calls != [] ==>
         NameFits(LastOld(p), LastNew(p, n)) && Comparable(LastOld(p).arguments, LastNew(p, n).arguments))
  }

  /** A text that goes on is completed, one that is shortened gets nothing, and others are refused. */
  lemma StringDiffIs(a: string, b: string)
    ensures a <= b ==> StringDiff(a, b).Ok? && a + StringDiff(a, b).value == b
    ensures b <= a && a != b ==> StringDiff(a, b) == Ok("")
    ensures !Comparable(a, b) ==> StringDiff(a, b) == Err(NotAPrefix)
  {
    if a <= b {
      assert a + b[|a|..] == b;
    }
  }

  lemma TextDiffIs(a: string, b: string)
    ensures Comparable(a, b) ==> TextDiff(a, b).Ok? && a + TextDiff(a, b).value == Longer(a, b)
    ensures !Comparable(a, b) ==> TextDiff(a, b) == Err(NotAPrefix)
  {
    StringDiffIs(a, b);
    assert a + "" == a;
  }

  lemma CallDiffIs(i: nat, p: ToolCall, n: ToolCall)
    ensures CallDiff(i, p, n).Ok? <==> NameFits(p, n) && Comparable(p.arguments, n.arguments)
    ensures !NameFits(p, n) ==> CallDiff(i, p, n) == Err(NameMismatch)
    ensures NameFits(p, n) && !Comparable(p.arguments, n.arguments) ==> CallDiff(i, p, n) == Err(NotAPrefix)
  {
    StringDiffIs(p.arguments, n.arguments);
  }

  /** Which error is reported: texts first, then the number of calls, then the last call's name and its
      arguments; and deltas are computed exactly when there is none. */
  lemma DiffsSucceed(p: Msg, n: Msg)
    ensures Diffs(p, n).Ok? <==> Diffable(p, n)
    ensures !TextsFit(p, n) ==> Diffs(p, n) == Err(NotAPrefix)
    ensures TextsFit(p, n) && |n.calls| < |p.calls| ==> Diffs(p, n) == Err(FewerCalls)
    ensures TextsFit(p, n) && |p.calls| <= |n.calls| && p.calls != [] ==>
      && (!NameFits(LastOld(p), LastNew(p, n)) ==> Diffs(p, n) == Err(NameMismatch))
      && (NameFits(LastOld(p), LastNew(p, n)) && !Comparable(LastOld(p).arguments, LastNew(p, n).arguments) ==>
            Diffs(p, n) == Err(NotAPrefix))
  {
    TextDiffIs(p.reasoning, n.reasoning);
    TextDiffIs(p.content, n.content);
    if p.calls != [] && |p.calls| <= |n.calls| {
      CallDiffIs(|p.calls| - 1, LastOld(p), LastNew(p, n));
    }
  }

  // ---------------------------------------------------------------------
  // Which deltas there are

  /** The id or the name is another one: then both are sent. */
  predicate Renamed(p: ToolCall, n: ToolCall) {
    p.id != n.id || p.name != n.name
  }

  /** There is something to say about a call. */
  predicate Changed(p: ToolCall, n: ToolCall) {
    Renamed(p, n) || (p.arguments <= n.arguments && p.arguments != n.arguments)
  }

  predicate CallDelta(d: Diff, i: nat, p: ToolCall, n: ToolCall) {
    && d.reasoning == "" && d.content == "" && d.index == Some(i)
    && p.arguments + d.call.arguments == Longer(p.arguments, n.arguments)
    && d.call.name == (if Renamed(p, n) then n.name else "") && d.call.id == (if Renamed(p, n) then n.id else "")
  }

  lemma CallDeltaIs(i: nat, p: ToolCall, n: ToolCall)
    requires CallDiff(i, p, n).Ok?
    ensures var ds := CallDiff(i, p, n).value;
      |ds| == (if Changed(p, n) then 1 else 0) && (Changed(p, n) ==> CallDelta(ds[0], i, p, n))
  {
    StringDiffIs(p.arguments, n.arguments);
    assert p.arguments + "" == p.arguments;
  }

  lemma {:induction false} NewCallsAre(calls: seq<ToolCall>, from: nat)
    requires from <= |calls|
    ensures |NewCalls(calls, from)| == |calls| - from
    ensures forall i :: 0 <= i < |calls| - from ==> NewCalls(calls, from)[i] == Diff("", "", Some(from + i), calls[from + i])
    decreases |calls| - from
  {
    if from < |calls| {
      var all, rest := NewCalls(calls, from), NewCalls(calls, from + 1);
      NewCallsAre(calls, from + 1);
      forall i | 0 <= i < |calls| - from ensures all[i] == Diff("", "", Some(from + i), calls[from + i]) {
        if i > 0 {
          assert all[i] == rest[i - 1];
        }
      }
    }
  }

  function One(b: bool): nat {
    if b then 1 else 0
  }

  predicate ReasoningDelta(d: Diff, p: Msg, n: Msg) {
    d == Diff(d.reasoning, "", None, NEW_CALL) && p.reasoning + d.reasoning == Longer(p.reasoning, n.reasoning)
  }

  predicate ContentDelta(d: Diff, p: Msg, n: Msg) {
    d == Diff("", d.content, None, NEW_CALL) && p.content + d.content == Longer(p.content, n.content)
  }

  /** The deltas in four parts. */
  lemma DiffParts(p: Msg, n: Msg, ds: seq<Diff>) returns (a: seq<Diff>, b: seq<Diff>, c: seq<Diff>, d: seq<Diff>)
    requires Diffs(p, n) == Ok(ds)
    ensures ds == a + b + c + d && |p.calls| <= |n.calls|
    ensures |a| == One(p.reasoning != n.reasoning) && (a != [] ==> ReasoningDelta(a[0], p, n))
    ensures |b| == One(p.content != n.content) && (b != [] ==> ContentDelta(b[0], p, n))
    ensures |c| == One(p.calls != [] && Changed(LastOld(p), LastNew(p, n)))
    ensures c != [] ==> CallDelta(c[0], |p.calls| - 1, LastOld(p), LastNew(p, n))
    ensures d == NewCalls(n.calls, |p.calls|)
  {
    hide StringDiff, TextDiff, CallDiff, NewCalls, Longer, Changed, CallDelta;
    DiffsSucceed(p, n);
    TextDiffIs(p.reasoning, n.reasoning);
    TextDiffIs(p.content, n.content);
    a := ReasoningDiffs(p, n, TextDiff(p.reasoning, n.reasoning).value);
    b := ContentDiffs(p, n, TextDiff(p.content, n.content).value);
    c, d := LastDiffs(p, n).value, NewCalls(n.calls, |p.calls|);
    if p.calls != [] {
      CallDeltaIs(|p.calls| - 1, LastOld(p), LastNew(p, n));
    }
  }

  lemma Placed(a: seq<Diff>, b: seq<Diff>, c: seq<Diff>, d: seq<Diff>, ds: seq<Diff>, j: nat, k: nat)
    requires ds == a + b + c + d && j == |a| + |b| && k == j + |c|
    ensures |ds| == k + |d| && (a != [] ==> ds[0] == a[0]) && (b != [] ==> ds[|a|] == b[0]) && (c != [] ==> ds[j] == c[0])
    ensures forall m :: k <= m < |ds| ==> ds[m] == d[m - k]
  {
  }

  /** There is one delta for a changed reasoning, then one for a changed content, one for a changed last call,
      and one for every new call, which it gives whole. */
  lemma DeltasAre(p: Msg, n: Msg, ds: seq<Diff>, i: nat, j: nat, k: nat)
    requires Diffs(p, n) == Ok(ds)
    requires i == One(p.reasoning != n.reasoning) && j == i + One(p.content != n.content)
    requires k == j + One(p.calls != [] && |p.calls| <= |n.calls| && Changed(LastOld(p), LastNew(p, n)))
    ensures |p.calls| <= |n.calls| && |ds| == k + |n.calls| - |p.calls|
    ensures (i > 0 ==> ReasoningDelta(ds[0], p, n)) && (j > i ==> ContentDelta(ds[i], p, n))
    ensures k > j ==> CallDelta(ds[j], |p.calls| - 1, LastOld(p), LastNew(p, n))
    ensures forall m :: k <= m < |ds| ==> ds[m] == Diff("", "", Some(|p.calls| + m - k), n.calls[|p.calls| + m - k])
  {
    hide Diffs, NewCalls, Changed, ReasoningDelta, ContentDelta, CallDelta;
    var a, b, c, d := DiffParts(p, n, ds);
    NewCallsAre(n.calls, |p.calls|);
    Placed(a, b, c, d, ds, j, k);
  }

  // ---------------------------------------------------------------------
  // What a client has then

  /** The last call as a client has it. */
  function ClientCall(p: ToolCall, n: ToolCall): ToolCall {
    ToolCall(if n.name == "" then p.name else n.name, Longer(p.arguments, n.arguments), if n.id == "" then p.id else n.id)
  }

  /** Whatever was taken back the client keeps; it has all else as it is in the new message. */
  lemma ClientAfter(p: Msg, n: Msg)
    requires Diffable(p, n)
    ensures Diffs(p, n).Ok?
    ensures var k, m := |p.calls|, ApplyAll(p, Diffs(p, n).value);
      && m.content == Longer(p.content, n.content) && m.reasoning == Longer(p.reasoning, n.reasoning)
      && |m.calls| == |n.calls| && m.calls[k..] == n.calls[k..]
      && (k > 0 ==> m.calls[..k - 1] == p.calls[..k - 1] && m.calls[k - 1] == ClientCall(LastOld(p), LastNew(p, n)))
  {
    hide StringDiff, TextDiff, CallDiff, NewCalls, ApplyAll, Apply, Diffs, KnownCalls;
    DiffsSucceed(p, n);
    RebuiltMessage(p, n);
    KnownCallsExact(p, n);
    TextDiffIs(p.reasoning, n.reasoning);
    TextDiffIs(p.content, n.content);
    var k, known := |p.calls|, KnownCalls(p, n);
    if k > 0 {
      LastKnown(p, n, k);
      assert (known + n.calls[k..])[..k - 1] == known[..k - 1];
    }
    assert (known + n.calls[k..])[k..] == n.calls[k..];
  }

  lemma LastKnown(p: Msg, n: Msg, k: nat)
    requires Diffs(p, n).Ok? && k == |p.calls| > 0 && |p.calls| <= |n.calls|
    ensures |KnownCalls(p, n)| == k && KnownCalls(p, n)[k - 1] == ClientCall(LastOld(p), LastNew(p, n))
  {
    hide StringDiff, TextDiff, CallDiff, Longer;
    var r, c := TextDiff(p.reasoning, n.reasoning).value, TextDiff(p.content, n.content).value;
    var m := p.(reasoning := p.reasoning + r, content := p.content + c);
    KnownCallsExact(p, n);
    CallDeltaIs(k - 1, LastOld(p), LastNew(p, n));
    var last := LastDiffs(p, n).value;
    if last != [] {
      ApplyOne(m, last[0]);
      assert last == [last[0]];
      ApplyLast(m, last[0], k - 1, LastOld(p), LastNew(p, n));
    } else {
      NothingChanged(LastOld(p), LastNew(p, n));
    }
  }

  lemma ApplyLast(m: Msg, d: Diff, i: nat, p: ToolCall, n: ToolCall)
    requires |m.calls| == i + 1 && m.calls[i] == p && CallDelta(d, i, p, n)
    ensures Apply(m, d).calls == m.calls[i := ClientCall(p, n)]
  {
    hide Longer;
    assert Pad(m.calls, i) == m.calls;
  }

  lemma NothingChanged(p: ToolCall, n: ToolCall)
    requires !Changed(p, n)
    ensures ClientCall(p, n) == p
  {
  }
}
