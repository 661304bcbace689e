/** Mapped messages only grow while the reply is being received. */
module ChatGrowth {
  import opened Basics
  import opened JsonText
  import opened PythonLiterals
  import opened ChatMapper

  // ---------------------------------------------------------------------
  // Growth

  predicate CallGrows(a: ToolCall, b: ToolCall) {
    a.name <= b.name && a.arguments <= b.arguments
  }

  /** All calls but the last are frozen and the last one only gets longer. */
  predicate CallsGrow(a: seq<ToolCall>, b: seq<ToolCall>) {
    && |a| <= |b|
    && (forall i :: 0 <= i < |a| - 1 ==> a[i] == b[i])
    && (a != [] ==> CallGrows(a[|a| - 1], b[|a| - 1]))
  }

  predicate Grows(a: Msg, b: Msg) {
    a.content <= b.content && a.reasoning <= b.reasoning && CallsGrow(a.calls, b.calls)
  }

  lemma CallsGrowTransitive(a: seq<ToolCall>, b: seq<ToolCall>, c: seq<ToolCall>)
    requires CallsGrow(a, b) && CallsGrow(b, c)
    ensures CallsGrow(a, c)
  {
    if a != [] {
      var n := |a| - 1;
      assert CallGrows(a[n], b[n]);
      assert CallGrows(b[n], c[n]);
    }
  }

  lemma GrowsTransitive(a: Msg, b: Msg, c: Msg)
    requires Grows(a, b) && Grows(b, c)
    ensures Grows(a, c)
  {
    CallsGrowTransitive(a.calls, b.calls, c.calls);
  }

  lemma AppendedCallsGrow(a: seq<ToolCall>, c: ToolCall)
    ensures CallsGrow(a, a + [c])
  {
  }

  lemma LastCallGrows(a: seq<ToolCall>, c: ToolCall)
    requires a != [] && CallGrows(a[|a| - 1], c)
    ensures CallsGrow(a, a[|a| - 1 := c])
  {
  }

  /** Blanking a whitespace-only text keeps prefixes. */
  lemma BlankPrefix(a: string, b: string)
    requires a <= b
    ensures (if Blank(a) then "" else a) <= (if Blank(b) then "" else b)
  {
    if Blank(b) {
      forall i | 0 <= i < |a| ensures a[i] == ' ' || a[i] == '\n' || a[i] == '\r' || a[i] == '\t' {
        assert a[i] == b[i];
      }
    }
  }

  /** The visible part of a valid state. */
  lemma FinishGrows(a: State, b: State)
    requires Valid(a) && Valid(b)
    requires a.msg.content <= b.msg.content && a.msg.reasoning <= b.msg.reasoning
    requires CallsGrow(a.msg.calls, b.msg.calls)
    ensures Grows(Finish(a), Finish(b))
  {
    BlankPrefix(a.msg.reasoning, b.msg.reasoning);
  }

  // ---------------------------------------------------------------------
  // Which node sequences can be streamed

  /** Where a reader of the tags stands: outside calls, inside a call that may have its name and
      may have been given arguments, or behind a call that was closed without a name. */
  datatype Phase = Idle | InCall(named: bool, written: bool) | Discarded

  /** None marks a node that must not come here: a second or an empty name in a call, a whole
      argument object for a visible call that already has arguments, or any use of a discarded call. */
  function NextPhase(ph: Phase, node: Node): Option<Phase> {
    match node.tag
    case ToolOpen => Some(InCall(false, false))
    case ToolName =>
      (match ph
       case Idle => Some(Idle)
       case InCall(false, w) => if TrimTrailing(node.text) == "" then None else Some(InCall(true, w))
       case _ => None)
    case ToolArgs =>
      if !JsonArgs(node.text) then Some(ph)
      else (match ph
            case Idle => Some(Idle)
            case InCall(n, w) => if n && w then None else Some(InCall(n, true))
            case Discarded => None)
    case ToolId => if ph == Discarded then None else Some(ph)
    case ToolClose =>
      (match ph
       case Idle => Some(Idle)
       case InCall(n, _) => Some(if n then InCall(true, true) else Discarded)
       case Discarded => None)
    case ArgName => Written(ph)
    case ArgValue => Written(ph)
    case ArgStringValue => Written(ph)
    case _ => Some(ph)
  }

  function Written(ph: Phase): Option<Phase> {
    match ph
    case Idle => Some(Idle)
    case InCall(n, _) => Some(InCall(n, true))
    case Discarded => None
  }

  function PhaseAfter(nodes: seq<Node>): Option<Phase> {
    if nodes == [] then Some(Idle)
    else match PhaseAfter(nodes[..|nodes| - 1])
         case None => None
         case Some(ph) => NextPhase(ph, nodes[|nodes| - 1])
  }

  predicate Streamable(nodes: seq<Node>) {
    PhaseAfter(nodes).Some?
  }

  /** The mapper's state as the phase promises it. */
  predicate InPhase(ph: Phase, st: State) {
    && Valid(st)
    && match ph
       case Idle => st.current == NoTool
       case InCall(false, w) =>
         && st.pending.Some? && st.pending.value.arguments == ""
         && (!w ==> st.buffer == "" && !st.quotePending)
       case InCall(true, w) =>
         && st.current.Listed? && Call(st).name != "" && Call(st).arguments != "" && st.buffer == ""
         && (!w ==> Call(st).arguments == "{" && !st.quotePending)
       case Discarded => Dangling(st) && !st.quotePending
  }

  // ---------------------------------------------------------------------
  // Every node of a streamable sequence keeps its phase and grows the message

  lemma PlainNode(ph: Phase, st: State, node: Node)
    requires InPhase(ph, st)
    requires node.tag.Reasoning? || node.tag.Content? || node.tag.ToolOpen? || node.tag.ArgOpen? || node.tag.OtherTag?
    ensures InPhase(NextPhase(ph, node).value, MapNode(st, node))
    ensures Grows(Finish(st), Finish(MapNode(st, node)))
  {
    FinishGrows(st, MapNode(st, node));
  }

  /** A node that changes nothing but the current call, which stays listed and grows. */
  lemma ListedGrows(st: State, next: State, c: ToolCall)
    requires Valid(st) && st.current.Listed? && CallGrows(Call(st), c)
    requires Valid(next) && next.msg == SetCall(st, c).msg
    ensures Grows(Finish(st), Finish(next))
  {
    LastCallGrows(st.msg.calls, c);
    FinishGrows(st, next);
  }

  lemma NameNode(ph: Phase, st: State, node: Node)
    requires InPhase(ph, st) && node.tag.ToolName? && NextPhase(ph, node).Some?
    ensures InPhase(NextPhase(ph, node).value, MapNode(st, node))
    ensures Grows(Finish(st), Finish(MapNode(st, node)))
  {
    if ph.InCall? {
      var next := MapNode(st, node);
      var c := ToolCall(TrimTrailing(node.text), NamedArguments(Call(st), st.buffer), Call(st).id);
      assert next.msg.calls == st.msg.calls + [c];
      AppendedCallsGrow(st.msg.calls, c);
      FinishGrows(st, next);
    }
  }

  lemma CloseNode(ph: Phase, st: State, node: Node)
    requires InPhase(ph, st) && node.tag.ToolClose? && NextPhase(ph, node).Some?
    ensures InPhase(NextPhase(ph, node).value, MapNode(st, node))
    ensures Grows(Finish(st), Finish(MapNode(st, node)))
  {
    if ph.InCall? && ph.named {
      ListedGrows(st, MapNode(st, node), ClosedCall(st));
    } else if ph.InCall? {
      FinishGrows(st, MapNode(st, node));
    }
  }

  /** Nodes that set the argument text or the id of the current call. */
  lemma ArgumentNode(ph: Phase, st: State, node: Node)
    requires InPhase(ph, st) && NextPhase(ph, node).Some? && ph.InCall? && !ph.named
    requires node.tag.ToolId? || node.tag.ToolArgs? || node.tag.ArgName? || node.tag.ArgValue?
          || node.tag.ArgStringValue? || node.tag.ArgClose?
    ensures InPhase(NextPhase(ph, node).value, MapNode(st, node))
    ensures Grows(Finish(st), Finish(MapNode(st, node)))
  {
    hide Grows, Normalize, Quote, StringText, TrimName, TrimTrailing;
    FinishGrows(st, MapNode(st, node));
  }

  /** The text a node leaves in a named call. */
  function ListedText(st: State, node: Node): string
    requires HasCall(st)
  {
    match node.tag
    case ToolArgs => if JsonArgs(node.text) then TrimTrailing(node.text) else Call(st).arguments
    case ArgName =>
      Call(st).arguments + ((if st.argCount > 0 then "," else "") + Quote(TrimName(node.text)) + ":")
    case ArgValue => Call(st).arguments + (if node.text == "" then "" else Normalize(node.text))
    case ArgStringValue => Call(st).arguments + StringText(st.quotePending, node.text)
    case ArgClose => if st.quotePending then Call(st).arguments + "\"" else Call(st).arguments
    case _ => Call(st).arguments
  }

  function ListedCall(st: State, node: Node): ToolCall
    requires HasCall(st)
  {
    Call(st).(arguments := ListedText(st, node),
              id := if node.tag.ToolId? then StripQuotes(TrimTrailing(node.text)) else Call(st).id)
  }

  predicate ArgumentTag(tag: Tag) {
    tag.ToolId? || tag.ToolArgs? || tag.ArgName? || tag.ArgValue? || tag.ArgStringValue? || tag.ArgClose?
  }

  lemma ListedEffect(st: State, node: Node)
    requires Valid(st) && st.current.Listed? && Call(st).name != "" && Call(st).arguments != ""
    requires ArgumentTag(node.tag)
    ensures var next := MapNode(st, node);
            && next.msg == SetCall(st, ListedCall(st, node)).msg
            && next.current == st.current && next.pending == st.pending && next.buffer == st.buffer
            && next.quotePending == (if node.tag.ArgStringValue? then true else if node.tag.ArgClose? then false else st.quotePending)
  {
    var calls := st.msg.calls;
    assert calls[st.current.idx := Call(st)] == calls;
  }

  lemma ListedNode(ph: Phase, st: State, node: Node)
    requires InPhase(ph, st) && NextPhase(ph, node).Some? && ph.InCall? && ph.named
    requires ArgumentTag(node.tag)
    ensures InPhase(NextPhase(ph, node).value, MapNode(st, node))
    ensures Grows(Finish(st), Finish(MapNode(st, node)))
  {
    ListedEffect(st, node);
    ListedGrows(st, MapNode(st, node), ListedCall(st, node));
  }

  lemma NodeGrows(ph: Phase, st: State, node: Node)
    requires InPhase(ph, st) && NextPhase(ph, node).Some?
    ensures InPhase(NextPhase(ph, node).value, MapNode(st, node))
    ensures Grows(Finish(st), Finish(MapNode(st, node)))
  {
    if node.tag.ToolName? {
      NameNode(ph, st, node);
    } else if node.tag.ToolClose? {
      CloseNode(ph, st, node);
    } else if !ArgumentTag(node.tag) {
      PlainNode(ph, st, node);
    } else if !ph.InCall? {
      assert MapNode(st, node) == st;
      FinishGrows(st, st);
    } else if ph.named {
      ListedNode(ph, st, node);
    } else {
      ArgumentNode(ph, st, node);
    }
  }

  lemma {:induction false} RunInPhase(nodes: seq<Node>)
    requires Streamable(nodes)
    ensures InPhase(PhaseAfter(nodes).value, Run(nodes))
  {
    if nodes != [] {
      var n := |nodes| - 1;
      RunInPhase(nodes[..n]);
      NodeGrows(PhaseAfter(nodes[..n]).value, Run(nodes[..n]), nodes[n]);
    }
  }

  lemma {:induction false} StreamablePrefix(nodes: seq<Node>, k: nat)
    requires Streamable(nodes) && k <= |nodes|
    ensures Streamable(nodes[..k])
    decreases |nodes|
  {
    if k < |nodes| {
      var n := |nodes| - 1;
      StreamablePrefix(nodes[..n], k);
      assert nodes[..n][..k] == nodes[..k];
    } else {
      assert nodes[..k] == nodes;
    }
  }

  /** A streamable sequence never uses a discarded call, where the source has no defined behaviour. */
  lemma NeverDangling(nodes: seq<Node>, k: nat)
    requires Streamable(nodes) && k < |nodes|
    ensures UsesCall(Run(nodes[..k]), nodes[k]) ==> !Dangling(Run(nodes[..k]))
  {
    StreamablePrefix(nodes, k + 1);
    assert nodes[..k + 1][..k] == nodes[..k];
    RunInPhase(nodes[..k]);
  }
}
