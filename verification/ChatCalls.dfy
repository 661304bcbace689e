/** Calls whose arguments come as one object, calls that never get a name, and what closing a call adds. */
module ChatCalls {
  import opened Basics
  import opened JsonText
  import opened JsonValue
  import opened ChatMapper
  import opened TaggedCalls

  // ---------------------------------------------------------------------
  // Trimming

  const SPACES := " \t\n\U{0B}\U{0C}\r"

  predicate Spaces(s: string) {
    forall i :: 0 <= i < |s| ==> s[i] in SPACES
  }

  lemma SpaceExactly(c: char)
    ensures IsSpace(c) <==> c in SPACES
  {
    assert SPACES == [' ', '\t', '\n', '\U{0B}', '\U{0C}', '\r'];
  }

  /** All spaces at the end go, and nothing else. */
  lemma {:induction false} TrimmedEnd(core: string, blanks: string)
    requires Spaces(blanks) && (core == "" || core[|core| - 1] !in SPACES)
    ensures TrimTrailing(core + blanks) == core
    decreases |blanks|
  {
    var s := core + blanks;
    if blanks == "" {
      assert s == core;
      if core != "" {
        SpaceExactly(core[|core| - 1]);
      }
    } else {
      var n := |blanks| - 1;
      SpaceExactly(blanks[n]);
      assert s[..|s| - 1] == core + blanks[..n];
      TrimmedEnd(core, blanks[..n]);
    }
  }

  /** Of a name one space in front goes, and all spaces at the end. */
  lemma TrimmedName(lead: string, core: string, blanks: string)
    requires Spaces(blanks) && (core == "" || core[|core| - 1] !in SPACES)
    requires |lead| == 1 && lead[0] in SPACES
    ensures TrimName(lead + core + blanks) == core
    ensures core != "" && core[0] !in SPACES ==> TrimName(core + blanks) == core
  {
    var s := lead + core + blanks;
    SpaceExactly(lead[0]);
    assert s[1..] == core + blanks;
    TrimmedEnd(core, blanks);
    if core != "" {
      SpaceExactly(core[0]);
    }
  }

  /** The id of a call: spaces at the end go, then one pair of quotes around it. */
  function IdText(s: string): string {
    StripQuotes(TrimTrailing(s))
  }

  lemma QuotedId(id: string, blanks: string)
    requires Spaces(blanks)
    ensures IdText("\"" + id + "\"" + blanks) == id
    ensures id != "" && id[|id| - 1] !in SPACES && id[0] != '"' ==> IdText(id + blanks) == id
  {
    var quoted := "\"" + id + "\"";
    assert quoted[|quoted| - 1] == '"' && '"' !in SPACES && quoted[1..|quoted| - 1] == id;
    TrimmedEnd(quoted, blanks);
    if id != "" && id[|id| - 1] !in SPACES {
      TrimmedEnd(id, blanks);
    }
  }

  // ---------------------------------------------------------------------
  // One object

  /** Nodes of a call that gets its arguments as one object; their order does not matter. */
  predicate ObjectNodes(nodes: seq<Node>) {
    forall i :: 0 <= i < |nodes| ==>
      && (nodes[i].tag in {ToolId, ToolName, ToolArgs, OtherTag})
      && (nodes[i].tag == ToolName ==> TrimTrailing(nodes[i].text) != "")
  }

  /** What the last node says that says something. */
  function LastName(nodes: seq<Node>): string {
    if nodes == [] then ""
    else if nodes[|nodes| - 1].tag == ToolName then TrimTrailing(nodes[|nodes| - 1].text)
    else LastName(nodes[..|nodes| - 1])
  }

  function LastId(nodes: seq<Node>): string {
    if nodes == [] then ""
    else if nodes[|nodes| - 1].tag == ToolId then IdText(nodes[|nodes| - 1].text)
    else LastId(nodes[..|nodes| - 1])
  }

  /** The last argument text that starts with a brace; other texts are ignored. */
  function LastObject(nodes: seq<Node>): string {
    if nodes == [] then ""
    else
      var n := |nodes| - 1;
      var text := TrimTrailing(nodes[n].text);
      if nodes[n].tag == ToolArgs && text != "" && text[0] == '{' then text else LastObject(nodes[..n])
  }

  /** The call in the making: still waiting for its name, or listed. */
  predicate Making(st: State, before: Msg, name: string, id: string, obj: string) {
    && !st.quotePending
    && if name == "" then
         && st.pending == Some(ToolCall("", "", id)) && st.current == Pending && st.msg == before && st.buffer == obj
       else
         && st.pending.None? && st.current == Listed(|before.calls|) && st.buffer == ""
         && st.msg == before.(calls := before.calls + [ToolCall(name, if obj == "" then "{" else obj, id)])
  }

  lemma MakingName(st: State, before: Msg, name: string, id: string, obj: string, text: string)
    requires Making(st, before, name, id, obj) && TrimTrailing(text) != ""
    ensures Making(MapNode(st, Node(ToolName, text)), before, TrimTrailing(text), id, obj)
  {
    if name != "" {
      Replaced(before.calls, Call(st), ToolCall(TrimTrailing(text), if obj == "" then "{" else obj, id));
    }
  }

  lemma MakingId(st: State, before: Msg, name: string, id: string, obj: string, text: string)
    requires Making(st, before, name, id, obj)
    ensures Making(MapNode(st, Node(ToolId, text)), before, name, IdText(text), obj)
  {
    if name != "" {
      Replaced(before.calls, Call(st), Call(st).(id := IdText(text)));
    }
  }

  lemma MakingArgs(st: State, before: Msg, name: string, id: string, obj: string, text: string)
    requires Making(st, before, name, id, obj)
    ensures Making(MapNode(st, Node(ToolArgs, text)), before, name, id,
                   if JsonArgs(text) then TrimTrailing(text) else obj)
  {
    if name != "" && JsonArgs(text) {
      Replaced(before.calls, Call(st), Call(st).(arguments := TrimTrailing(text)));
    }
  }

  lemma Replaced(calls: seq<ToolCall>, c: ToolCall, d: ToolCall)
    ensures (calls + [c])[|calls| := d] == calls + [d]
  {
  }

  lemma {:induction false} MakingNodes(st: State, before: Msg, nodes: seq<Node>)
    requires Making(st, before, "", "", "") && ObjectNodes(nodes)
    ensures Making(RunFrom(st, nodes), before, LastName(nodes), LastId(nodes), LastObject(nodes))
    decreases |nodes|
  {
    hide Making, MapNode, RunFrom, TrimTrailing, IdText;
    if nodes == [] {
      RunFromNone(st);
    } else {
      var n := |nodes| - 1;
      var front, last := nodes[..n], nodes[n];
      var mid := RunFrom(st, front);
      assert nodes == front + [last];
      RunFromConcat(st, front, [last]);
      RunFromOne(mid, last);
      MakingNodes(st, before, front);
      match last.tag
      case ToolName => MakingName(mid, before, LastName(front), LastId(front), LastObject(front), last.text);
      case ToolId => MakingId(mid, before, LastName(front), LastId(front), LastObject(front), last.text);
      case ToolArgs => MakingArgs(mid, before, LastName(front), LastId(front), LastObject(front), last.text);
      case OtherTag => OtherKeeps(mid, last);
    }
  }

  lemma RunFromNone(st: State)
    ensures RunFrom(st, []) == st
  {
  }

  lemma OtherKeeps(st: State, node: Node)
    requires node.tag == OtherTag
    ensures MapNode(st, node) == st
  {
  }

  lemma MakingClosed(st: State, before: Msg, name: string, id: string, obj: string, close: string)
    requires Making(st, before, name, id, obj) && name != ""
    ensures MapNode(st, Node(ToolClose, close)).msg
         == before.(calls := before.calls + [ToolCall(name, CloseText(if obj == "" then "{" else obj, false), id)])
  {
    Replaced(before.calls, Call(st), Call(st).(arguments := CloseText(Call(st).arguments, false)));
  }

  /** From any state, a call whose arguments come as one object is listed with its last name, its last id and its
      last object, closed, in whatever order these come. */
  lemma ObjectCall(st: State, open: string, nodes: seq<Node>, close: string)
    requires ObjectNodes(nodes) && LastName(nodes) != ""
    ensures RunFrom(st, [Node(ToolOpen, open)] + nodes + [Node(ToolClose, close)]).msg
         == st.msg.(calls := st.msg.calls
              + [ToolCall(LastName(nodes), CloseText(if LastObject(nodes) == "" then "{" else LastObject(nodes), false), LastId(nodes))])
  {
    hide CloseText, MapNode, RunFrom, LastName, LastId, LastObject, ObjectNodes;
    var s1 := OpenedCall(st, open);
    RunFromConcat(st, [Node(ToolOpen, open)] + nodes, [Node(ToolClose, close)]);
    RunFromConcat(st, [Node(ToolOpen, open)], nodes);
    RunFromOne(st, Node(ToolOpen, open));
    MakingNodes(s1, st.msg, nodes);
    RunFromOne(RunFrom(s1, nodes), Node(ToolClose, close));
    MakingClosed(RunFrom(s1, nodes), st.msg, LastName(nodes), LastId(nodes), LastObject(nodes), close);
  }

  lemma OpenedCall(st: State, open: string) returns (s: State)
    ensures s == MapNode(st, Node(ToolOpen, open)) && Making(s, st.msg, "", "", "")
  {
    s := MapNode(st, Node(ToolOpen, open));
  }

  /** A complete object stays as it is. */
  lemma ClosedObject(ms: seq<Member>)
    requires WellFormed(Obj(ms))
    ensures CloseText(Serialize(Obj(ms)), false) == Serialize(Obj(ms))
  {
    var text := Serialize(Obj(ms));
    SerializeBalanced(0, Obj(ms));
    assert Braces(0) == "" && text + "" == text;
  }

  lemma ThreeNodes(id: Node, name: Node, args: Node, nodes: seq<Node>)
    requires id.tag == ToolId && name.tag == ToolName && args.tag == ToolArgs && JsonArgs(args.text)
    requires nodes in {[id, name, args], [id, args, name], [name, id, args], [name, args, id], [args, id, name], [args, name, id]}
    ensures LastName(nodes) == TrimTrailing(name.text) && LastId(nodes) == IdText(id.text)
    ensures LastObject(nodes) == TrimTrailing(args.text)
  {
    hide TrimTrailing, IdText;
    assert nodes[..2][..1] == [nodes[0]] && nodes[..2] == [nodes[0], nodes[1]] && [nodes[0]][..0] == [];
    assert LastName(nodes[..2]) == if nodes[1].tag == ToolName then TrimTrailing(nodes[1].text) else LastName([nodes[0]]);
    assert LastId(nodes[..2]) == if nodes[1].tag == ToolId then IdText(nodes[1].text) else LastId([nodes[0]]);
    assert LastObject(nodes[..2])
        == if nodes[1].tag == ToolArgs then TrimTrailing(nodes[1].text) else LastObject([nodes[0]]);
  }

  /** So a call of an id, a name and an object, in any order and with spaces behind each, is listed as just that. */
  lemma ObjectCallIs(
    st: State, open: string, nodes: seq<Node>, close: string, id: string, name: string, ms: seq<Member>, a: string, b: string, c: string)
    requires Spaces(a) && Spaces(b) && Spaces(c) && WellFormed(Obj(ms)) && name != "" && name[|name| - 1] !in SPACES
    requires var i, n, o := Node(ToolId, "\"" + id + "\"" + a), Node(ToolName, name + b), Node(ToolArgs, Serialize(Obj(ms)) + c);
      nodes in {[i, n, o], [i, o, n], [n, i, o], [n, o, i], [o, i, n], [o, n, i]}
    ensures RunFrom(st, [Node(ToolOpen, open)] + nodes + [Node(ToolClose, close)]).msg
         == st.msg.(calls := st.msg.calls + [ToolCall(name, Serialize(Obj(ms)), id)])
  {
    hide RunFrom, CloseText, IdText, TrimTrailing, LastName, LastId, LastObject, Spaces, WellFormed;
    var i, n, o := Node(ToolId, "\"" + id + "\"" + a), Node(ToolName, name + b), Node(ToolArgs, Serialize(Obj(ms)) + c);
    ObjectText(ms);
    QuotedId(id, a);
    TrimmedEnd(name, b);
    TrimmedEnd(Serialize(Obj(ms)), c);
    ThreeNodes(i, n, o, nodes);
    ObjectCall(st, open, nodes, close);
    ClosedObject(ms);
  }

  lemma ObjectText(ms: seq<Member>)
    ensures var t := Serialize(Obj(ms)); t != "" && t[0] == '{' && t[|t| - 1] == '}' && '}' !in SPACES
  {
  }

  // ---------------------------------------------------------------------
  // Calls without a name

  predicate NamelessNodes(nodes: seq<Node>) {
    forall i :: 0 <= i < |nodes| ==>
      nodes[i].tag in {ToolId, ToolArgs, ArgOpen, ArgClose, ArgName, ArgValue, ArgStringValue, OtherTag}
  }

  predicate Nameless(st: State, before: Msg) {
    st.msg == before && st.current == Pending && st.pending.Some? && st.pending.value.name == ""
  }

  lemma NamelessNode(st: State, before: Msg, node: Node)
    requires Nameless(st, before) && NamelessNodes([node])
    ensures Nameless(MapNode(st, node), before)
  {
    assert [node][0] == node;
  }

  lemma {:induction false} NamelessRun(st: State, before: Msg, nodes: seq<Node>)
    requires Nameless(st, before) && NamelessNodes(nodes)
    ensures Nameless(RunFrom(st, nodes), before)
    decreases |nodes|
  {
    hide Nameless, MapNode;
    if nodes != [] {
      NamelessNode(st, before, nodes[0]);
      NamelessRun(MapNode(st, nodes[0]), before, nodes[1..]);
    }
  }

  lemma NamelessClosed(st: State, before: Msg, close: string)
    requires Nameless(st, before)
    ensures MapNode(st, Node(ToolClose, close)).msg == before
  {
  }

  /** A call that never gets a name leaves no trace in the message. */
  lemma NamelessDiscarded(st: State, open: string, nodes: seq<Node>, close: string)
    requires NamelessNodes(nodes)
    ensures RunFrom(st, [Node(ToolOpen, open)] + nodes + [Node(ToolClose, close)]).msg == st.msg
  {
    hide MapNode, RunFrom, NamelessNodes;
    RunFromConcat(st, [Node(ToolOpen, open)] + nodes, [Node(ToolClose, close)]);
    RunFromConcat(st, [Node(ToolOpen, open)], nodes);
    RunFromOne(st, Node(ToolOpen, open));
    OpenedNameless(st, open);
    var s1 := MapNode(st, Node(ToolOpen, open));
    NamelessRun(s1, st.msg, nodes);
    RunFromOne(RunFrom(s1, nodes), Node(ToolClose, close));
    NamelessClosed(RunFrom(s1, nodes), st.msg, close);
  }

  lemma OpenedNameless(st: State, open: string)
    ensures Nameless(MapNode(st, Node(ToolOpen, open)), st.msg)
  {
  }

  // ---------------------------------------------------------------------
  // The buffer

  /** Text waits in the buffer only for a call without a name. */
  predicate Waiting(st: State) {
    HasCall(st) && Call(st).name != "" ==> st.buffer == ""
  }

  lemma NodeWaiting(st: State, node: Node)
    requires Valid(st) && Waiting(st)
    ensures Waiting(MapNode(st, node))
    ensures node.tag == ToolClose && HasCall(st) ==> MapNode(st, node).buffer == "" && !MapNode(st, node).quotePending
  {
  }

  /** After any nodes no named call has text left in the buffer, and closing a call leaves none there, and no string
      open. */
  lemma {:induction false} BufferEmptied(nodes: seq<Node>)
    ensures Waiting(Run(nodes))
    ensures nodes != [] && nodes[|nodes| - 1].tag == ToolClose && HasCall(Run(nodes[..|nodes| - 1])) ==>
      Run(nodes).buffer == "" && !Run(nodes).quotePending
  {
    if nodes != [] {
      var front := nodes[..|nodes| - 1];
      BufferEmptied(front);
      RunValid(front);
      NodeWaiting(Run(front), nodes[|nodes| - 1]);
    }
  }

  // ---------------------------------------------------------------------
  // Closing braces

  lemma {:induction false} BracesClose(s: Scan, n: int)
    requires s.escaped ==> s.inString
    ensures ScanText(s, Braces(n)).depth == if s.inString || n <= 0 then s.depth else s.depth - n
    decreases if n <= 0 then 0 else n
  {
    if n > 0 {
      assert Braces(n)[0] == '}';
      assert Braces(n)[1..] == Braces(n - 1);
      BracesClose(ScanChar(s, '}'), n - 1);
    }
  }

  /** Closing a call takes the depth of its arguments down to 0 where it is above, unless they end inside a string. */
  lemma CloseTextDepth(args: string, quotePending: bool, quoted: string)
    requires quoted == if quotePending then args + "\"" else args
    ensures quoted <= CloseText(args, quotePending)
    ensures BraceDepth(CloseText(args, quotePending)) ==
      if BraceDepth(quoted) > 0 && !ScanText(START, quoted).inString then 0 else BraceDepth(quoted)
  {
    var n := BraceDepth(quoted);
    ScanConcat(START, quoted, Braces(n));
    ScanEscapes(START, quoted);
    BracesClose(ScanText(START, quoted), n);
  }

  /** A string that is still open when its call is closed is closed with it, as its own closing node would have done. */
  lemma StringClosedWithCall(st: State, arg: string, close: string)
    requires Valid(st) && HasCall(st) && (Call(st).name != "" || st.pending.Some?)
    ensures MapNode(MapNode(st, Node(ArgClose, arg)), Node(ToolClose, close)).msg == MapNode(st, Node(ToolClose, close)).msg
  {
    hide BraceDepth, Braces;
    if st.quotePending && st.current.Listed? {
      UpdatedTwice(st.msg.calls, st.current.idx, MapNode(st, Node(ArgClose, arg)).msg.calls[st.current.idx], ClosedCall(st));
    }
  }

  lemma UpdatedTwice(calls: seq<ToolCall>, i: nat, c: ToolCall, d: ToolCall)
    requires i < |calls|
    ensures calls[i := c][i := d] == calls[i := d]
  {
  }
}
