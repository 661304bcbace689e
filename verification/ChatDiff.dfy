/** The deltas between two messages of one reply, and what a client makes of them. */
module ChatDiff {
  import opened Basics
  import opened ChatMapper

  datatype DiffError = NotAPrefix | FewerCalls | NameMismatch

  datatype Result<+T> = Ok(value: T) | Err(error: DiffError)

  /** What one delta adds; `index` says which call, if any, it is about. */
  datatype Diff = Diff(reasoning: string, content: string, index: Option<nat>, call: ToolCall)

  function StringDiff(last: string, current: string): Result<string> {
    if last == "" then Ok(current)
    else if !(last <= current) then
      if current <= last then Ok("") else Err(NotAPrefix)
    else Ok(current[|last|..])
  }

  function TextDiff(last: string, current: string): Result<string> {
    if last == current then Ok("") else StringDiff(last, current)
  }

  function CallDiff(i: nat, p: ToolCall, n: ToolCall): Result<seq<Diff>> {
    if p.name != n.name && p.name != "" && n.name != "" && !(p.name <= n.name) then Err(NameMismatch)
    else match StringDiff(p.arguments, n.arguments)
      case Err(e) => Err(e)
      case Ok(args) =>
        var renamed := p.id != n.id || p.name != n.name;
        if args == "" && !renamed then Ok([])
        else Ok([Diff("", "", Some(i),
                      ToolCall(if renamed then n.name else "", args, if renamed then n.id else ""))])
  }

  function NewCalls(calls: seq<ToolCall>, from: nat): seq<Diff>
    requires from <= |calls|
    decreases |calls| - from
  {
    if from == |calls| then []
    else [Diff("", "", Some(from), calls[from])] + NewCalls(calls, from + 1)
  }

  function ReasoningDiffs(p: Msg, n: Msg, delta: string): seq<Diff> {
    if p.reasoning == n.reasoning then [] else [Diff(delta, "", None, NEW_CALL)]
  }

  function ContentDiffs(p: Msg, n: Msg, delta: string): seq<Diff> {
    if p.content == n.content then [] else [Diff("", delta, None, NEW_CALL)]
  }

  function LastDiffs(p: Msg, n: Msg): Result<seq<Diff>>
    requires |p.calls| <= |n.calls|
  {
    if p.calls == [] then Ok([])
    else CallDiff(|p.calls| - 1, p.calls[|p.calls| - 1], n.calls[|p.calls| - 1])
  }

  function Diffs(p: Msg, n: Msg): Result<seq<Diff>> {
    match TextDiff(p.reasoning, n.reasoning)
    case Err(e) => Err(e)
    case Ok(r) =>
      match TextDiff(p.content, n.content)
      case Err(e) => Err(e)
      case Ok(c) =>
        if |n.calls| < |p.calls| then Err(FewerCalls)
        else match LastDiffs(p, n)
          case Err(e) => Err(e)
          case Ok(last) =>
            Ok(ReasoningDiffs(p, n, r) + ContentDiffs(p, n, c) + last + NewCalls(n.calls, |p.calls|))
  }

  /** The diff computation, in the order in which it reports errors. */
  method ComputeDiffs(p: Msg, n: Msg) returns (r: Result<seq<Diff>>)
    ensures r == Diffs(p, n)
  {
    var diffs: seq<Diff> := [];
    if p.reasoning != n.reasoning {
      var delta := StringDiff(p.reasoning, n.reasoning);
      if delta.Err? {
        return Err(delta.error);
      }
      diffs := diffs + [Diff(delta.value, "", None, NEW_CALL)];
    }
    if p.content != n.content {
      var delta := StringDiff(p.content, n.content);
      if delta.Err? {
        return Err(delta.error);
      }
      diffs := diffs + [Diff("", delta.value, None, NEW_CALL)];
    }
    ghost var r', c' := TextDiff(p.reasoning, n.reasoning).value, TextDiff(p.content, n.content).value;
    assert diffs == ReasoningDiffs(p, n, r') + ContentDiffs(p, n, c');
    if |n.calls| < |p.calls| {
      return Err(FewerCalls);
    }
    ghost var texts := diffs;
    if p.calls != [] {
      var idx := |p.calls| - 1;
      var last := CallDiff(idx, p.calls[idx], n.calls[idx]);
      if last.Err? {
        return Err(last.error);
      }
      diffs := diffs + last.value;
    }
    ghost var before := diffs;
    assert before == texts + LastDiffs(p, n).value;
    var idx := |p.calls|;
    assert diffs + NewCalls(n.calls, idx) == before + NewCalls(n.calls, |p.calls|);
    while idx < |n.calls|
      invariant |p.calls| <= idx <= |n.calls|
      invariant diffs + NewCalls(n.calls, idx) == before + NewCalls(n.calls, |p.calls|)
    {
      ghost var next := [Diff("", "", Some(idx), n.calls[idx])];
      assert diffs + (next + NewCalls(n.calls, idx + 1)) == diffs + next + NewCalls(n.calls, idx + 1);
      diffs := diffs + [Diff("", "", Some(idx), n.calls[idx])];
      idx := idx + 1;
    }
    assert diffs + NewCalls(n.calls, idx) == diffs;
    return Ok(diffs);
  }

  // ---------------------------------------------------------------------
  // The client

  function Pad(calls: seq<ToolCall>, i: nat): (r: seq<ToolCall>)
    ensures i < |r|
    decreases i + 1 - |calls|
  {
    if |calls| <= i then Pad(calls + [NEW_CALL], i) else calls
  }

  function ApplyCall(c: ToolCall, d: ToolCall): ToolCall {
    ToolCall(if d.name != "" then d.name else c.name, c.arguments + d.arguments, if d.id != "" then d.id else c.id)
  }

  /** How a client adds one delta to the message it has. */
  function Apply(m: Msg, d: Diff): Msg {
    var calls := match d.index
      case None => m.calls
      case Some(i) => var padded := Pad(m.calls, i); padded[i := ApplyCall(padded[i], d.call)];
    Msg(m.content + d.content, m.reasoning + d.reasoning, calls)
  }

  function ApplyAll(m: Msg, ds: seq<Diff>): Msg
    decreases |ds|
  {
    if ds == [] then m else ApplyAll(Apply(m, ds[0]), ds[1..])
  }

  lemma {:induction false} ApplyConcat(m: Msg, a: seq<Diff>, b: seq<Diff>)
    ensures ApplyAll(m, a + b) == ApplyAll(ApplyAll(m, a), b)
    decreases |a|
  {
    if a == [] {
      assert a + b == b;
    } else {
      assert (a + b)[1..] == a[1..] + b;
      ApplyConcat(Apply(m, a[0]), a[1..], b);
    }
  }

  lemma ApplyOne(m: Msg, d: Diff)
    ensures ApplyAll(m, [d]) == Apply(m, d)
  {
    assert [d][1..] == [];
  }

  lemma {:induction false} ApplyNew(m: Msg, calls: seq<ToolCall>, from: nat)
    requires |m.calls| == from <= |calls|
    ensures ApplyAll(m, NewCalls(calls, from)) == m.(calls := m.calls + calls[from..])
    decreases |calls| - from
  {
    if from == |calls| {
      assert m.calls + calls[from..] == m.calls;
    } else {
      var ds := NewCalls(calls, from);
      var m' := Apply(m, ds[0]);
      ApplyNewCall(m, ds[0].call);
      assert ds[1..] == NewCalls(calls, from + 1);
      ApplyNew(m', calls, from + 1);
      assert m.calls + [calls[from]] + calls[from + 1..] == m.calls + calls[from..];
    }
  }

  lemma ApplyNewCall(m: Msg, c: ToolCall)
    ensures Apply(m, Diff("", "", Some(|m.calls|), c)) == m.(calls := m.calls + [c])
  {
    var padded := Pad(m.calls, |m.calls|);
    assert Pad(m.calls + [NEW_CALL], |m.calls|) == m.calls + [NEW_CALL];
    assert padded == m.calls + [NEW_CALL];
    assert ApplyCall(NEW_CALL, c) == c by {
      assert "" + c.arguments == c.arguments;
    }
    assert padded[|m.calls| := c] == m.calls + [c];
    assert m.content + "" == m.content && m.reasoning + "" == m.reasoning;
  }

  // ---------------------------------------------------------------------
  // When deltas rebuild the message

  predicate CallExtends(p: ToolCall, n: ToolCall) {
    p.name <= n.name && p.arguments <= n.arguments && (n.id == p.id || n.id != "")
  }

  /** The later message continues the earlier one. */
  predicate Extends(p: Msg, n: Msg) {
    && p.content <= n.content && p.reasoning <= n.reasoning
    && |p.calls| <= |n.calls|
    && (forall i :: 0 <= i < |p.calls| - 1 ==> p.calls[i] == n.calls[i])
    && (p.calls != [] ==> CallExtends(p.calls[|p.calls| - 1], n.calls[|p.calls| - 1]))
  }

  lemma TextDiffExact(a: string, b: string)
    ensures TextDiff(a, b).Ok? && a + TextDiff(a, b).value == b <==> a <= b
  {
    if a == b {
      assert a + "" == a;
    } else if a <= b {
      assert a + b[|a|..] == b;
    }
  }

  lemma StringDiffExact(a: string, b: string)
    ensures StringDiff(a, b).Ok? && a + StringDiff(a, b).value == b <==> a <= b
  {
    if a <= b {
      assert a + b[|a|..] == b;
    } else {
      assert a + "" == a;
    }
  }

  /** What the deltas about the last known call make of it. */
  lemma LastCallExact(m: Msg, i: nat, n: ToolCall)
    requires |m.calls| == i + 1
    ensures var d := CallDiff(i, m.calls[i], n);
            d.Ok? ==>
              var r := ApplyAll(m, d.value);
              && r.content == m.content && r.reasoning == m.reasoning
              && |r.calls| == |m.calls| && r.calls[..i] == m.calls[..i]
              && (r.calls[i] == n <==> CallExtends(m.calls[i], n))
    ensures CallExtends(m.calls[i], n) ==> CallDiff(i, m.calls[i], n).Ok?
  {
    var p := m.calls[i];
    var d := CallDiff(i, p, n);
    StringDiffExact(p.arguments, n.arguments);
    if d.Ok? && d.value != [] {
      var x := d.value[0];
      ApplyOne(m, x);
      assert d.value == [x];
      assert Pad(m.calls, i) == m.calls;
      assert Apply(m, x) == Msg(m.content + "", m.reasoning + "", m.calls[i := ApplyCall(p, x.call)]);
    } else if d.Ok? {
      assert p.arguments + "" == p.arguments;
    }
  }

  /** The text part of the deltas. */
  lemma TextPart(p: Msg, n: Msg, r: string, c: string)
    requires TextDiff(p.reasoning, n.reasoning) == Ok(r) && TextDiff(p.content, n.content) == Ok(c)
    ensures ApplyAll(p, ReasoningDiffs(p, n, r) + ContentDiffs(p, n, c))
         == p.(reasoning := p.reasoning + r, content := p.content + c)
  {
    var a, b := ReasoningDiffs(p, n, r), ContentDiffs(p, n, c);
    ApplyConcat(p, a, b);
    var m := ApplyAll(p, a);
    assert p.reasoning + "" == p.reasoning && p.content + "" == p.content;
    if a != [] {
      ApplyOne(p, a[0]);
    }
    assert m == p.(reasoning := p.reasoning + r);
    if b != [] {
      ApplyOne(m, b[0]);
      assert m.reasoning + "" == m.reasoning;
    }
  }

  lemma ApplyParts(p: Msg, texts: seq<Diff>, last: seq<Diff>, added: seq<Diff>)
    ensures ApplyAll(p, texts + last + added) == ApplyAll(ApplyAll(ApplyAll(p, texts), last), added)
  {
    ApplyConcat(p, texts + last, added);
    ApplyConcat(p, texts, last);
  }

  lemma CallsRebuilt(p: seq<ToolCall>, r: seq<ToolCall>, n: seq<ToolCall>)
    requires |p| == |r| <= |n|
    requires p != [] ==> r[..|p| - 1] == p[..|p| - 1]
    ensures r + n[|p|..] == n
       <==> (forall i :: 0 <= i < |p| - 1 ==> p[i] == n[i]) && (p != [] ==> r[|p| - 1] == n[|p| - 1])
  {
    var s := r + n[|p|..];
    assert forall i :: 0 <= i < |p| ==> s[i] == r[i];
    assert p != [] ==> forall i :: 0 <= i < |p| - 1 ==> r[..|p| - 1][i] == r[i] && p[..|p| - 1][i] == p[i];
    if (forall i :: 0 <= i < |p| - 1 ==> p[i] == n[i]) && (p != [] ==> r[|p| - 1] == n[|p| - 1]) {
      forall i | 0 <= i < |n| ensures s[i] == n[i] {
        if i < |p| - 1 {
          assert p[i] == n[i] && r[i] == p[i];
        }
      }
    }
  }

  function KnownCalls(p: Msg, n: Msg): seq<ToolCall>
    requires Diffs(p, n).Ok?
  {
    var r, c := TextDiff(p.reasoning, n.reasoning).value, TextDiff(p.content, n.content).value;
    ApplyAll(p.(reasoning := p.reasoning + r, content := p.content + c), LastDiffs(p, n).value).calls
  }

  lemma KnownCallsExact(p: Msg, n: Msg)
    requires Diffs(p, n).Ok?
    ensures var k, known := |p.calls|, KnownCalls(p, n);
            && |known| == k
            && (k > 0 ==> known[..k - 1] == p.calls[..k - 1])
            && (k > 0 ==> (known[k - 1] == n.calls[k - 1] <==> CallExtends(p.calls[k - 1], n.calls[k - 1])))
    ensures var r, c := TextDiff(p.reasoning, n.reasoning).value, TextDiff(p.content, n.content).value;
            var m := p.(reasoning := p.reasoning + r, content := p.content + c);
            ApplyAll(m, LastDiffs(p, n).value) == m.(calls := KnownCalls(p, n))
  {
    var r, c := TextDiff(p.reasoning, n.reasoning).value, TextDiff(p.content, n.content).value;
    var m := p.(reasoning := p.reasoning + r, content := p.content + c);
    var k := |p.calls|;
    if k > 0 {
      LastCallExact(m, k - 1, n.calls[k - 1]);
    }
  }

  /** What all deltas together make of the earlier message. */
  lemma RebuiltMessage(p: Msg, n: Msg)
    requires Diffs(p, n).Ok?
    ensures ApplyAll(p, Diffs(p, n).value)
         == Msg(p.content + TextDiff(p.content, n.content).value,
                p.reasoning + TextDiff(p.reasoning, n.reasoning).value,
                KnownCalls(p, n) + n.calls[|p.calls|..])
  {
    var r, c := TextDiff(p.reasoning, n.reasoning).value, TextDiff(p.content, n.content).value;
    var last, k := LastDiffs(p, n).value, |p.calls|;
    var texts := ReasoningDiffs(p, n, r) + ContentDiffs(p, n, c);
    TextPart(p, n, r, c);
    ApplyParts(p, texts, last, NewCalls(n.calls, k));
    KnownCallsExact(p, n);
    var m := p.(reasoning := p.reasoning + r, content := p.content + c);
    ApplyNew(m.(calls := KnownCalls(p, n)), n.calls, k);
  }

  lemma Rebuilt(p: Msg, n: Msg)
    requires Diffs(p, n).Ok?
    ensures ApplyAll(p, Diffs(p, n).value) == n <==> Extends(p, n)
  {
    RebuiltMessage(p, n);
    KnownCallsExact(p, n);
    CallsRebuilt(p.calls, KnownCalls(p, n), n.calls);
    TextDiffExact(p.reasoning, n.reasoning);
    TextDiffExact(p.content, n.content);
  }

  lemma ExtendsSucceeds(p: Msg, n: Msg)
    requires Extends(p, n)
    ensures Diffs(p, n).Ok?
  {
    TextDiffExact(p.reasoning, n.reasoning);
    TextDiffExact(p.content, n.content);
    if p.calls != [] {
      var k := |p.calls| - 1;
      StringDiffExact(p.calls[k].arguments, n.calls[k].arguments);
    }
  }

  /** The deltas can be computed and rebuild the later message exactly when it continues the earlier one. */
  lemma DiffsExact(p: Msg, n: Msg)
    ensures Diffs(p, n).Ok? && ApplyAll(p, Diffs(p, n).value) == n <==> Extends(p, n)
  {
    if Diffs(p, n).Ok? {
      Rebuilt(p, n);
    } else if Extends(p, n) {
      ExtendsSucceeds(p, n);
    }
  }
}
