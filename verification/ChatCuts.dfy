/** Messages mapped from a reply that is cut short, inside its last node or between nodes. */
module ChatCuts {
  import opened Basics
  import opened JsonText
  import opened PythonLiterals
  import opened PythonCuts
  import opened ChatMapper
  import opened ChatGrowth

  // ---------------------------------------------------------------------
  // Nodes that overwrite

  /** The three nodes that replace visible text instead of adding to it, when the new text
      does not continue the old: a second name, a whole argument object, and the close of a
      call that was listed under an empty name. */
  predicate Clobbers(st: State, node: Node) {
    && st.current.Listed? && HasCall(st)
    && match node.tag
       case ToolName =>
         !(Call(st).name <= TrimTrailing(node.text)) || (st.buffer != "" && !(Call(st).arguments <= st.buffer))
       case ToolArgs =>
         JsonArgs(node.text) && Call(st).name != "" && !(Call(st).arguments <= TrimTrailing(node.text))
       case ToolClose =>
         Call(st).name == "" && st.buffer != "" && !(Call(st).arguments <= CloseText(st.buffer, st.quotePending))
       case _ => false
  }

  lemma SettingLastCall(st: State, next: State, c: ToolCall)
    requires Valid(st) && st.current.Listed?
    requires Valid(next) && next.msg == SetCall(st, c).msg
    ensures Grows(Finish(st), Finish(next)) <==> CallGrows(Call(st), c)
  {
    if CallGrows(Call(st), c) {
      ListedGrows(st, next, c);
    }
  }

  lemma NameExactly(st: State, node: Node)
    requires Valid(st) && st.current.Listed? && node.tag.ToolName?
    ensures Grows(Finish(st), Finish(MapNode(st, node))) <==> !Clobbers(st, node)
  {
    MapNodeValid(st, node);
    var c := ToolCall(TrimTrailing(node.text), NamedArguments(Call(st), st.buffer), Call(st).id);
    SettingLastCall(st, MapNode(st, node), c);
  }

  lemma CloseExactly(st: State, node: Node)
    requires Valid(st) && st.current.Listed? && node.tag.ToolClose?
    ensures Grows(Finish(st), Finish(MapNode(st, node))) <==> !Clobbers(st, node)
  {
    MapNodeValid(st, node);
    SettingLastCall(st, MapNode(st, node), ClosedCall(st));
  }

  lemma ArgumentExactly(st: State, node: Node)
    requires Valid(st) && st.current.Listed? && ArgumentTag(node.tag)
    ensures Grows(Finish(st), Finish(MapNode(st, node))) <==> !Clobbers(st, node)
  {
    var next := MapNode(st, node);
    MapNodeValid(st, node);
    if next.msg == st.msg {
      FinishGrows(st, next);
    } else {
      SettingLastCall(st, next, next.msg.calls[st.current.idx]);
    }
  }

  lemma HiddenExactly(st: State, node: Node)
    requires Valid(st) && !(st.current.Listed? && (ArgumentTag(node.tag) || node.tag.ToolName? || node.tag.ToolClose?))
    ensures Grows(Finish(st), Finish(MapNode(st, node))) && !Clobbers(st, node)
  {
    MapNodeValid(st, node);
    FinishGrows(st, MapNode(st, node));
  }

  /** From any state the mapper can be in, a node makes the message grow exactly when it is not
      one of the three overwriting nodes with a text that does not continue the old one. */
  lemma NodeGrowsExactly(st: State, node: Node)
    requires Valid(st)
    ensures Grows(Finish(st), Finish(MapNode(st, node))) <==> !Clobbers(st, node)
  {
    if !st.current.Listed? {
      HiddenExactly(st, node);
    } else if node.tag.ToolName? {
      NameExactly(st, node);
    } else if node.tag.ToolClose? {
      CloseExactly(st, node);
    } else if ArgumentTag(node.tag) {
      ArgumentExactly(st, node);
    } else {
      HiddenExactly(st, node);
    }
  }

  // ---------------------------------------------------------------------
  // Whole replies

  /** No node replaces visible text. */
  predicate NeverClobbers(nodes: seq<Node>) {
    forall k :: 0 <= k < |nodes| ==> !Clobbers(Run(nodes[..k]), nodes[k])
  }

  /** No node uses a call that was discarded, where the source has no defined behaviour. */
  predicate NeverDangles(nodes: seq<Node>) {
    forall k :: 0 <= k < |nodes| && UsesCall(Run(nodes[..k]), nodes[k]) ==> !Dangling(Run(nodes[..k]))
  }

  ghost predicate PrefixesGrow(nodes: seq<Node>) {
    forall i, j :: 0 <= i <= j <= |nodes| ==> Grows(FromAst(nodes[..i]), FromAst(nodes[..j]))
  }

  lemma LastNodeGrows(nodes: seq<Node>, k: nat)
    requires k < |nodes|
    ensures Grows(FromAst(nodes[..k]), FromAst(nodes[..k + 1])) <==> !Clobbers(Run(nodes[..k]), nodes[k])
  {
    RunValid(nodes[..k]);
    NodeGrowsExactly(Run(nodes[..k]), nodes[k]);
    assert nodes[..k + 1][..k] == nodes[..k];
  }

  lemma GrowsItself(m: Msg)
    ensures Grows(m, m)
  {
  }

  lemma {:induction false} PrefixGrowsFrom(nodes: seq<Node>, i: nat, j: nat)
    requires NeverClobbers(nodes) && i <= j <= |nodes|
    ensures Grows(FromAst(nodes[..i]), FromAst(nodes[..j]))
    decreases j
  {
    if i == j {
      GrowsItself(FromAst(nodes[..i]));
    } else {
      PrefixGrowsFrom(nodes, i, j - 1);
      LastNodeGrows(nodes, j - 1);
      GrowsTransitive(FromAst(nodes[..i]), FromAst(nodes[..j - 1]), FromAst(nodes[..j]));
    }
  }

  /** The message of every prefix of a reply grows into that of every longer prefix exactly when no
      node of the reply replaces visible text. */
  lemma PrefixesGrowExactly(nodes: seq<Node>)
    ensures PrefixesGrow(nodes) <==> NeverClobbers(nodes)
  {
    if NeverClobbers(nodes) {
      forall i, j | 0 <= i <= j <= |nodes| ensures Grows(FromAst(nodes[..i]), FromAst(nodes[..j])) {
        PrefixGrowsFrom(nodes, i, j);
      }
    }
    if PrefixesGrow(nodes) {
      forall k | 0 <= k < |nodes| ensures !Clobbers(Run(nodes[..k]), nodes[k]) {
        LastNodeGrows(nodes, k);
      }
    }
  }

  /** The tags alone are enough: a streamable reply replaces nothing and uses no discarded call. */
  lemma StreamableSteady(nodes: seq<Node>)
    requires Streamable(nodes)
    ensures NeverClobbers(nodes) && NeverDangles(nodes)
  {
    forall k | 0 <= k < |nodes| ensures !Clobbers(Run(nodes[..k]), nodes[k]) {
      StreamableNode(nodes, k);
    }
    forall k | 0 <= k < |nodes| && UsesCall(Run(nodes[..k]), nodes[k]) ensures !Dangling(Run(nodes[..k])) {
      NeverDangling(nodes, k);
    }
  }

  lemma StreamableNode(nodes: seq<Node>, k: nat)
    requires Streamable(nodes) && k < |nodes|
    ensures !Clobbers(Run(nodes[..k]), nodes[k])
  {
    StreamablePrefix(nodes, k + 1);
    assert nodes[..k + 1][..k] == nodes[..k];
    RunInPhase(nodes[..k]);
    NodeGrows(PhaseAfter(nodes[..k]).value, Run(nodes[..k]), nodes[k]);
    NodeGrowsExactly(Run(nodes[..k]), nodes[k]);
  }

  // ---------------------------------------------------------------------
  // Cutting the last node

  function CutNode(node: Node, k: nat): Node
    requires k <= |node.text|
  {
    node.(text := node.text[..k])
  }

  /** The nodes whose text is streamed. */
  predicate CutTag(tag: Tag) {
    tag.Content? || tag.Reasoning? || tag.ToolArgs? || tag.ArgStringValue? || tag.ArgValue?
  }

  /** The node writes into a call the client can see. */
  predicate Visible(st: State) {
    st.current.Listed? && HasCall(st) && Call(st).name != ""
  }

  /** When the message of the cut node grows into that of the whole node: always for text and for calls
      the client does not see; for an argument object unless the cut leaves none and the whole one
      replaces what is there; for a string value unless the cut empties the continuation of an open
      string; for a Python or JSON value at a clean cut. */
  ghost predicate Cuttable(st: State, node: Node, k: nat)
    requires k <= |node.text|
  {
    && CutTag(node.tag)
    && (Visible(st) ==>
          match node.tag
          case ToolArgs => JsonArgs(node.text[..k]) || !Clobbers(st, node)
          case ArgStringValue => !(st.quotePending && k == 0 && node.text != "")
          case ArgValue => CleanCut(node.text, k)
          case _ => true)
  }

  lemma CutPhase(ph: Phase, node: Node, k: nat)
    requires NextPhase(ph, node).Some? && k <= |node.text| && CutTag(node.tag)
    ensures NextPhase(ph, CutNode(node, k)).Some?
  {
    if node.tag.ToolArgs? {
      TrimTrailingPrefix(node.text[..k], node.text);
    }
  }

  /** Two string values after the same text: one is a prefix of the other unless the shorter one is
      an empty continuation, which closes the string it continues. */
  lemma StringCut(args: string, quotePending: bool, text: string, k: nat)
    requires k <= |text|
    ensures args + StringText(quotePending, text[..k]) <= args + StringText(quotePending, text)
       <==> !(quotePending && k == 0 && text != "")
  {
    var a, b := StringText(quotePending, text[..k]), StringText(quotePending, text);
    SamePrefix(args, a, b);
    EscapePrefix(text[..k], text);
    if text == "" {
      assert text[..k] == text;
    } else if k == 0 {
      assert Escape(text)[0] == EscapeChar(text[0])[0] != '"';
      assert a == "\"" && (quotePending ==> b[0] == Escape(text)[0]);
    } else {
      SamePrefix(if quotePending then "" else "\"", Escape(text[..k]), Escape(text));
    }
  }

  lemma ValueCut(args: string, text: string, k: nat)
    requires k <= |text|
    ensures (args + (if text[..k] == "" then "" else Normalize(text[..k]))
               <= args + (if text == "" then "" else Normalize(text)))
       <==> CleanCut(text, k)
  {
    CutExact(text, k);
    assert Normalize("") == "";
    SamePrefix(args, Normalize(text[..k]), Normalize(text));
  }

  /** The arguments of a listed call are never empty. */
  predicate Begun(st: State) {
    Valid(st) && (st.current.Listed? ==> Call(st).arguments != "")
  }

  lemma MapNodeBegun(st: State, node: Node)
    requires Begun(st)
    ensures Begun(MapNode(st, node))
  {
    MapNodeValid(st, node);
    if st.current.Listed? && node.tag.ToolClose? {
      ClosedNotEmpty(st);
    }
  }

  lemma ClosedNotEmpty(st: State)
    requires Begun(st) && st.current.Listed?
    ensures ClosedCall(st).arguments != ""
  {
  }

  lemma {:induction false} RunBegun(nodes: seq<Node>)
    ensures Begun(Run(nodes))
  {
    if nodes != [] {
      RunBegun(nodes[..|nodes| - 1]);
      MapNodeBegun(Run(nodes[..|nodes| - 1]), nodes[|nodes| - 1]);
    }
  }

  /** Two nodes that set the visible call one way or the other. */
  lemma TwoEffects(st: State, cut: Node, node: Node)
    requires Begun(st) && Visible(st) && ArgumentTag(node.tag) && cut.tag == node.tag
    ensures Grows(Finish(MapNode(st, cut)), Finish(MapNode(st, node)))
       <==> CallGrows(ListedCall(st, cut), ListedCall(st, node))
  {
    var a, b := MapNode(st, cut), MapNode(st, node);
    MapNodeValid(st, cut);
    MapNodeValid(st, node);
    ListedEffect(st, cut);
    ListedEffect(st, node);
    assert b.msg == SetCall(a, ListedCall(st, node)).msg by {
      var i := st.current.idx;
      assert st.msg.calls[i := ListedCall(st, cut)][i := ListedCall(st, node)] == st.msg.calls[i := ListedCall(st, node)];
    }
    SettingLastCall(a, b, ListedCall(st, node));
  }

  lemma ObjectCutExactly(st: State, node: Node, k: nat)
    requires Begun(st) && Visible(st) && node.tag.ToolArgs? && k <= |node.text|
    ensures Grows(Finish(MapNode(st, CutNode(node, k))), Finish(MapNode(st, node))) <==> Cuttable(st, node, k)
  {
    TrimTrailingPrefix(node.text[..k], node.text);
    TwoEffects(st, CutNode(node, k), node);
  }

  lemma ValueCutExactly(st: State, node: Node, k: nat)
    requires Begun(st) && Visible(st) && (node.tag.ArgStringValue? || node.tag.ArgValue?) && k <= |node.text|
    ensures Grows(Finish(MapNode(st, CutNode(node, k))), Finish(MapNode(st, node))) <==> Cuttable(st, node, k)
  {
    TwoEffects(st, CutNode(node, k), node);
    if node.tag.ArgValue? {
      ValueCut(Call(st).arguments, node.text, k);
    } else {
      StringCut(Call(st).arguments, st.quotePending, node.text, k);
    }
  }

  lemma TextCut(st: State, node: Node, k: nat)
    requires Valid(st) && (node.tag.Content? || node.tag.Reasoning?) && k <= |node.text|
    ensures Grows(Finish(MapNode(st, CutNode(node, k))), Finish(MapNode(st, node)))
  {
    FinishGrows(MapNode(st, CutNode(node, k)), MapNode(st, node));
  }

  lemma HiddenCut(st: State, node: Node, k: nat)
    requires Valid(st) && !Visible(st) && CutTag(node.tag) && ArgumentTag(node.tag) && k <= |node.text|
    ensures Grows(Finish(MapNode(st, CutNode(node, k))), Finish(MapNode(st, node)))
  {
    HiddenCalls(st, node);
    HiddenCalls(st, CutNode(node, k));
    FinishGrows(MapNode(st, CutNode(node, k)), MapNode(st, node));
  }

  lemma HiddenCalls(st: State, node: Node)
    requires Valid(st) && !Visible(st) && CutTag(node.tag) && ArgumentTag(node.tag)
    ensures Valid(MapNode(st, node)) && MapNode(st, node).msg == st.msg
  {
    MapNodeValid(st, node);
  }

  /** From any state the mapper can be in, the message of a streamed node cut short grows into that of
      the whole node exactly when the node is cuttable there. */
  lemma CutGrowsExactly(st: State, node: Node, k: nat)
    requires Begun(st) && CutTag(node.tag) && k <= |node.text|
    ensures Grows(Finish(MapNode(st, CutNode(node, k))), Finish(MapNode(st, node))) <==> Cuttable(st, node, k)
  {
    if node.tag.Content? || node.tag.Reasoning? {
      TextCut(st, node, k);
    } else if !Visible(st) {
      HiddenCut(st, node, k);
    } else if node.tag.ToolArgs? {
      ObjectCutExactly(st, node, k);
    } else {
      ValueCutExactly(st, node, k);
    }
  }

  // ---------------------------------------------------------------------
  // Snapshots of a reply

  /** `a` is `b` without its last nodes, and perhaps with the last node it keeps cut short. */
  ghost predicate CutShort(a: seq<Node>, b: seq<Node>) {
    || a <= b
    || exists n, k :: CutInside(a, b, n, k)
  }

  ghost predicate CutInside(a: seq<Node>, b: seq<Node>, n: nat, k: nat) {
    && n < |b| && k <= |b[n].text|
    && Cuttable(Run(b[..n]), b[n], k)
    && a == b[..n] + [CutNode(b[n], k)]
  }

  /** An earlier snapshot of a reply that replaces nothing grows into the later one. */
  lemma SnapshotGrows(a: seq<Node>, b: seq<Node>)
    requires NeverClobbers(b) && CutShort(a, b)
    ensures Grows(FromAst(a), FromAst(b))
  {
    if a <= b {
      PrefixGrowsFrom(b, |a|, |b|);
      assert b[..|a|] == a && b[..|b|] == b;
    } else {
      var n, k :| CutInside(a, b, n, k);
      CutSnapshotGrows(a, b, n, k);
    }
  }

  lemma CutSnapshotGrows(a: seq<Node>, b: seq<Node>, n: nat, k: nat)
    requires NeverClobbers(b) && CutInside(a, b, n, k)
    ensures Grows(FromAst(a), FromAst(b))
  {
    hide Grows, MapNode, CutNode;
    var head, whole := b[..n], b[..n + 1];
    RunBegun(head);
    CutGrowsExactly(Run(head), b[n], k);
    assert whole[..n] == head && a[..n] == head;
    assert FromAst(whole) == Finish(MapNode(Run(head), b[n]));
    assert FromAst(a) == Finish(MapNode(Run(head), CutNode(b[n], k)));
    PrefixGrowsFrom(b, n + 1, |b|);
    assert b[..|b|] == b;
    GrowsTransitive(FromAst(a), FromAst(whole), FromAst(b));
  }

  /** Cutting a streamable reply leaves a streamable one. */
  lemma StreamableCut(a: seq<Node>, b: seq<Node>)
    requires Streamable(b) && CutShort(a, b)
    ensures Streamable(a)
  {
    if a <= b {
      StreamablePrefix(b, |a|);
      assert b[..|a|] == a;
    } else {
      var n: nat, k: nat :| CutInside(a, b, n, k);
      StreamablePrefix(b, n + 1);
      assert b[..n + 1][..n] == b[..n] && a[..n] == b[..n];
      CutPhase(PhaseAfter(b[..n]).value, b[n], k);
    }
  }

  // ---------------------------------------------------------------------
  // Replies that do not stream

  lemma RunOne(nodes: seq<Node>, node: Node)
    ensures Run(nodes + [node]) == MapNode(Run(nodes), node)
  {
    assert (nodes + [node])[..|nodes|] == nodes;
  }

  /** The state of a call that has just been named. */
  function NamedState(name: string, args: string, buffer: string, quote: bool, count: nat): State {
    State(Msg("", "", [ToolCall(name, args, "")]), None, Listed(0), count, quote, buffer)
  }

  lemma NamedRun(f: string)
    requires TrimTrailing(f) == f
    ensures Run([Node(ToolOpen, ""), Node(ToolName, f)]) == NamedState(f, "{", "", false, 0)
  {
    RunOne([], Node(ToolOpen, ""));
    RunOne([Node(ToolOpen, "")], Node(ToolName, f));
    assert [] + [Node(ToolOpen, "")] == [Node(ToolOpen, "")];
    assert [Node(ToolOpen, "")] + [Node(ToolName, f)] == [Node(ToolOpen, ""), Node(ToolName, f)];
  }

  /** A reply of which the last node replaces what the client has seen, without using a discarded call. */
  ghost predicate Overwrites(front: seq<Node>, last: Node) {
    && Clobbers(Run(front), last)
    && !Grows(FromAst(front), FromAst(front + [last]))
    && !Dangling(Run(front))
  }

  lemma OverwritesFrom(front: seq<Node>, last: Node)
    requires Clobbers(Run(front), last)
    ensures Overwrites(front, last)
  {
    RunValid(front);
    NodeGrowsExactly(Run(front), last);
    RunOne(front, last);
  }

  /** A second argument object: open, name `f`, object `{a`, object `{b`. */
  lemma SecondObjectOverwrites(front: seq<Node>)
    requires front == [Node(ToolOpen, ""), Node(ToolName, "f")] + [Node(ToolArgs, "{a")]
    ensures Overwrites(front, Node(ToolArgs, "{b"))
  {
    NamedRun("f");
    RunOne([Node(ToolOpen, ""), Node(ToolName, "f")], Node(ToolArgs, "{a"));
    assert Run(front) == NamedState("f", "{a", "", false, 0);
    OverwritesFrom(front, Node(ToolArgs, "{b"));
  }

  /** A second name: open, name `f`, name `g`. */
  lemma SecondNameOverwrites(front: seq<Node>)
    requires front == [Node(ToolOpen, ""), Node(ToolName, "f")]
    ensures Overwrites(front, Node(ToolName, "g"))
  {
    NamedRun("f");
    OverwritesFrom(front, Node(ToolName, "g"));
  }

  /** A call listed under an empty name: open, empty name, value `1`, close. */
  lemma NamelessCloseOverwrites(front: seq<Node>)
    requires front == [Node(ToolOpen, ""), Node(ToolName, "")] + [Node(ArgValue, "1")]
    ensures Overwrites(front, Node(ToolClose, ""))
  {
    NamedRun("");
    RunOne([Node(ToolOpen, ""), Node(ToolName, "")], Node(ArgValue, "1"));
    assert Normalize("1") == "1" by {
      assert "1"[1..] == "";
    }
    assert "" + "1" == "1";
    assert Run(front) == NamedState("", "{", "1", false, 0);
    assert CloseText("1", false) == "1" by {
      assert BraceDepth("1") == 0 by { assert "1"[1..] == "" && "1"[..0] == ""; }
      assert "1" + "" == "1";
    }
    OverwritesFrom(front, Node(ToolClose, ""));
  }

  /** A string that continues in a second node and is cut at that node loses text:
      the cut closes the string and the next snapshot opens it again. */
  lemma ContinuedStringShrinks(front: seq<Node>)
    requires front == [Node(ToolOpen, ""), Node(ToolName, "f")] + [Node(ArgStringValue, "ab")]
    ensures !Grows(FromAst(front + [Node(ArgStringValue, "")]), FromAst(front + [Node(ArgStringValue, "c")]))
  {
    NamedRun("f");
    RunOne([Node(ToolOpen, ""), Node(ToolName, "f")], Node(ArgStringValue, "ab"));
    var st, last := Run(front), Node(ArgStringValue, "c");
    assert st.quotePending && Visible(st);
    RunBegun(front);
    ValueCutExactly(st, last, 0);
    assert CutNode(last, 0) == Node(ArgStringValue, "");
    RunOne(front, last);
    RunOne(front, Node(ArgStringValue, ""));
  }
}
