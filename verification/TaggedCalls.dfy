/** Calls whose arguments come as separate name and value nodes: the text they are mapped to. */
module TaggedCalls {
  import opened Basics
  import opened JsonText
  import opened JsonValue
  import opened PythonLiterals
  import opened ChatMapper
  import PythonValues

  /** A value as it is parsed: the text of a string, or a literal that is rewritten. */
  datatype Value = Text(text: string) | Literal(text: string)

  /** One argument as it is parsed; the texts of its opening and closing markers do not matter. */
  datatype Argument = Argument(open: string, name: string, value: Value, close: string)

  function ValueNode(v: Value): Node {
    Node(if v.Text? then ArgStringValue else ArgValue, v.text)
  }

  function ArgNodes(a: Argument): seq<Node> {
    [Node(ArgOpen, a.open), Node(ArgName, a.name), ValueNode(a.value), Node(ArgClose, a.close)]
  }

  function AllArgNodes(args: seq<Argument>): seq<Node> {
    if args == [] then [] else AllArgNodes(args[..|args| - 1]) + ArgNodes(args[|args| - 1])
  }

  function LiteralText(s: string): string {
    if s == "" then "" else Normalize(s)
  }

  function ValueText(v: Value): string {
    if v.Text? then Quote(v.text) else LiteralText(v.text)
  }

  /** What one argument adds to the object. */
  function Entry(a: Argument): string {
    Quote(TrimName(a.name)) + ":" + ValueText(a.value)
  }

  /** The arguments behind the opening brace. */
  function Body(args: seq<Argument>): string {
    if args == [] then ""
    else Body(args[..|args| - 1]) + ((if |args| > 1 then "," else "") + Entry(args[|args| - 1]))
  }

  function RunFrom(st: State, nodes: seq<Node>): State
    decreases |nodes|
  {
    if nodes == [] then st else RunFrom(MapNode(st, nodes[0]), nodes[1..])
  }

  lemma {:induction false} RunFromConcat(st: State, a: seq<Node>, b: seq<Node>)
    ensures RunFrom(st, a + b) == RunFrom(RunFrom(st, a), b)
    decreases |a|
  {
    if a == [] {
      assert a + b == b;
    } else {
      assert (a + b)[1..] == a[1..] + b;
      RunFromConcat(MapNode(st, a[0]), a[1..], b);
    }
  }

  lemma RunFromOne(st: State, node: Node)
    ensures RunFrom(st, [node]) == MapNode(st, node)
  {
    assert [node][1..] == [];
  }

  /** Running a sequence from its start is running its parts one after the other. */
  lemma {:induction false} RunIsRunFrom(nodes: seq<Node>)
    ensures Run(nodes) == RunFrom(START_STATE, nodes)
  {
    if nodes != [] {
      var n := |nodes| - 1;
      RunIsRunFrom(nodes[..n]);
      RunFromConcat(START_STATE, nodes[..n], [nodes[n]]);
      RunFromOne(Run(nodes[..n]), nodes[n]);
      assert nodes[..n] + [nodes[n]] == nodes;
    }
  }

  // ---------------------------------------------------------------------
  // The text behind the opening brace, whether or not the call has its name yet

  datatype Draft = Draft(text: string, count: nat, quote: bool)

  const NO_DRAFT := Draft("", 0, false)

  function DraftNode(d: Draft, node: Node): Draft {
    match node.tag
    case ArgOpen => d.(quote := false)
    case ArgName =>
      Draft(d.text + ((if d.count > 0 then "," else "") + Quote(TrimName(node.text)) + ":"), d.count + 1, d.quote)
    case ArgStringValue => Draft(d.text + StringText(d.quote, node.text), d.count, true)
    case ArgValue => d.(text := d.text + LiteralText(node.text))
    case ArgClose => if d.quote then Draft(d.text + "\"", d.count, false) else d
    case _ => d
  }

  function DraftNodes(d: Draft, nodes: seq<Node>): Draft
    decreases |nodes|
  {
    if nodes == [] then d else DraftNodes(DraftNode(d, nodes[0]), nodes[1..])
  }

  lemma {:induction false} DraftConcat(d: Draft, a: seq<Node>, b: seq<Node>)
    ensures DraftNodes(d, a + b) == DraftNodes(DraftNodes(d, a), b)
    decreases |a|
  {
    if a == [] {
      assert a + b == b;
    } else {
      assert (a + b)[1..] == a[1..] + b;
      DraftConcat(DraftNode(d, a[0]), a[1..], b);
    }
  }

  /** Argument nodes in an order in which a value never comes before the first name. */
  predicate Proper(d: Draft, nodes: seq<Node>)
    decreases |nodes|
  {
    nodes != [] ==>
      && (match nodes[0].tag
          case ArgOpen => true
          case ArgName => true
          case ArgStringValue => d.count > 0
          case ArgValue => d.count > 0
          case ArgClose => true
          case _ => false)
      && Proper(DraftNode(d, nodes[0]), nodes[1..])
  }

  lemma {:induction false} ProperConcat(d: Draft, a: seq<Node>, b: seq<Node>)
    ensures Proper(d, a + b) <==> Proper(d, a) && Proper(DraftNodes(d, a), b)
    decreases |a|
  {
    if a == [] {
      assert a + b == b;
    } else {
      assert (a + b)[1..] == a[1..] + b;
      ProperConcat(DraftNode(d, a[0]), a[1..], b);
    }
  }

  /** The mapper holds `before` and a call in the making: under its name, or in the buffer. */
  predicate Building(st: State, before: Msg, name: Option<string>, d: Draft) {
    && st.argCount == d.count && st.quotePending == d.quote
    && (d.count == 0 ==> d.text == "" && !d.quote)
    && match name
       case Some(n) =>
         && n != "" && st.pending.None? && st.buffer == ""
         && st.current == Listed(|before.calls|)
         && st.msg == before.(calls := before.calls + [ToolCall(n, "{" + d.text, "")])
       case None =>
         && st.pending == Some(NEW_CALL) && st.current == Pending && st.msg == before
         && st.buffer == (if d.count == 0 then "" else "{" + d.text)
  }

  lemma BuildNamed(st: State, before: Msg, name: string, d: Draft, node: Node)
    requires Building(st, before, Some(name), d) && Proper(d, [node])
    ensures Building(MapNode(st, node), before, Some(name), DraftNode(d, node))
  {
    var i, d' := |before.calls|, DraftNode(d, node);
    var added := d'.text[|d.text|..];
    assert d'.text == d.text + added;
    assert "{" + d.text + added == "{" + d'.text;
    assert before.calls + [ToolCall(name, "{" + d'.text, "")]
        == (before.calls + [ToolCall(name, "{" + d.text, "")])[i := ToolCall(name, "{" + d'.text, "")];
    assert Call(st) == ToolCall(name, "{" + d.text, "");
  }

  /** What a name does to the buffer of a call that waits for its own. */
  lemma WaitingName(st: State, node: Node, entry: string)
    requires st.pending == Some(NEW_CALL) && st.current == Pending && node.tag == ArgName
    requires entry == (if st.argCount > 0 then "," else "") + Quote(TrimName(node.text)) + ":"
    ensures MapNode(st, node) ==
      st.(buffer := (if st.buffer == "" then "{" else st.buffer) + entry, argCount := st.argCount + 1)
  {
  }

  lemma WaitingValue(st: State, node: Node, added: string)
    requires st.pending == Some(NEW_CALL) && st.current == Pending && node.tag == ArgStringValue
    requires added == StringText(st.quotePending, node.text)
    ensures MapNode(st, node) == st.(buffer := st.buffer + added, quotePending := true)
  {
  }

  lemma WaitingLiteral(st: State, node: Node, added: string)
    requires st.pending == Some(NEW_CALL) && st.current == Pending && node.tag == ArgValue
    requires added == LiteralText(node.text)
    ensures MapNode(st, node) == st.(buffer := st.buffer + added)
  {
  }

  lemma WaitingMark(st: State, node: Node)
    requires st.pending == Some(NEW_CALL) && st.current == Pending && (node.tag == ArgOpen || node.tag == ArgClose)
    ensures MapNode(st, node) == if node.tag == ArgClose && st.quotePending
      then st.(buffer := st.buffer + "\"", quotePending := false) else st.(quotePending := false)
  {
  }

  lemma EntryAdded(st: State, before: Msg, d: Draft, entry: string)
    requires Building(st, before, None, d)
    ensures Building(st.(buffer := (if st.buffer == "" then "{" else st.buffer) + entry, argCount := st.argCount + 1),
                     before, None, Draft(d.text + entry, d.count + 1, d.quote))
  {
    assert "{" + d.text + entry == "{" + (d.text + entry);
  }

  lemma BuildWaitingName(st: State, before: Msg, d: Draft, node: Node, entry: string)
    requires Building(st, before, None, d) && node.tag == ArgName
    requires entry == (if d.count > 0 then "," else "") + Quote(TrimName(node.text)) + ":"
    ensures Building(MapNode(st, node), before, None, DraftNode(d, node))
  {
    WaitingName(st, node, entry);
    EntryAdded(st, before, d, entry);
    assert DraftNode(d, node) == Draft(d.text + entry, d.count + 1, d.quote);
  }

  lemma TextAdded(st: State, before: Msg, d: Draft, added: string)
    requires Building(st, before, None, d) && d.count > 0
    ensures Building(st.(buffer := st.buffer + added, quotePending := true), before, None, Draft(d.text + added, d.count, true))
  {
    assert "{" + d.text + added == "{" + (d.text + added);
  }

  lemma BuildWaitingText(st: State, before: Msg, d: Draft, node: Node, added: string)
    requires Building(st, before, None, d) && node.tag == ArgStringValue && d.count > 0
    requires added == StringText(d.quote, node.text)
    ensures Building(MapNode(st, node), before, None, DraftNode(d, node))
  {
    WaitingValue(st, node, added);
    TextAdded(st, before, d, added);
    assert DraftNode(d, node) == Draft(d.text + added, d.count, true);
  }

  lemma BuildWaitingLiteral(st: State, before: Msg, d: Draft, node: Node, added: string)
    requires Building(st, before, None, d) && node.tag == ArgValue && d.count > 0 && added == LiteralText(node.text)
    ensures Building(MapNode(st, node), before, None, DraftNode(d, node))
  {
    hide LiteralText;
    WaitingLiteral(st, node, added);
    LiteralAdded(st, before, d, added);
  }

  lemma LiteralAdded(st: State, before: Msg, d: Draft, added: string)
    requires Building(st, before, None, d) && d.count > 0
    ensures Building(st.(buffer := st.buffer + added), before, None, Draft(d.text + added, d.count, d.quote))
  {
    assert "{" + d.text + added == "{" + (d.text + added);
  }

  lemma BuildWaitingMark(st: State, before: Msg, d: Draft, node: Node)
    requires Building(st, before, None, d) && (node.tag == ArgOpen || node.tag == ArgClose)
    ensures Building(MapNode(st, node), before, None, DraftNode(d, node))
  {
    WaitingMark(st, node);
    assert "{" + d.text + "\"" == "{" + (d.text + "\"");
  }

  lemma BuildUnnamed(st: State, before: Msg, d: Draft, node: Node)
    requires Building(st, before, None, d) && Proper(d, [node])
    ensures Building(MapNode(st, node), before, None, DraftNode(d, node))
  {
    match node.tag
    case ArgName => BuildWaitingName(st, before, d, node, (if d.count > 0 then "," else "") + Quote(TrimName(node.text)) + ":");
    case ArgStringValue => BuildWaitingText(st, before, d, node, StringText(d.quote, node.text));
    case ArgValue => BuildWaitingLiteral(st, before, d, node, LiteralText(node.text));
    case _ => BuildWaitingMark(st, before, d, node);
  }

  lemma {:induction false} BuildNodes(st: State, before: Msg, name: Option<string>, d: Draft, nodes: seq<Node>)
    requires Building(st, before, name, d) && Proper(d, nodes)
    ensures Building(RunFrom(st, nodes), before, name, DraftNodes(d, nodes))
    decreases |nodes|
  {
    if nodes != [] {
      assert [nodes[0]][1..] == [];
      assert Proper(d, [nodes[0]]);
      match name {
        case Some(n) => BuildNamed(st, before, n, d, nodes[0]);
        case None => BuildUnnamed(st, before, d, nodes[0]);
      }
      BuildNodes(MapNode(st, nodes[0]), before, name, DraftNode(d, nodes[0]), nodes[1..]);
    }
  }

  /** Naming the call moves the draft from the buffer into the message and changes nothing in it. */
  lemma NameDraft(st: State, before: Msg, d: Draft, text: string)
    requires Building(st, before, None, d) && TrimTrailing(text) != ""
    ensures Building(MapNode(st, Node(ToolName, text)), before, Some(TrimTrailing(text)), d)
  {
    assert "{" + "" == "{";
  }

  // ---------------------------------------------------------------------
  // The draft of whole arguments

  lemma FourNodes(d: Draft, a: Node, b: Node, c: Node, e: Node)
    ensures DraftNodes(d, [a, b, c, e]) == DraftNode(DraftNode(DraftNode(DraftNode(d, a), b), c), e)
  {
    DraftConcat(d, [a, b], [c, e]);
    assert [a, b] + [c, e] == [a, b, c, e];
    TwoNodes(d, a, b);
    TwoNodes(DraftNode(DraftNode(d, a), b), c, e);
  }

  lemma TwoNodes(d: Draft, a: Node, b: Node)
    ensures DraftNodes(d, [a, b]) == DraftNode(DraftNode(d, a), b)
  {
    var d1 := DraftNode(d, a);
    assert [a, b][1..] == [b] && [b][1..] == [];
    assert DraftNodes(d1, [b]) == DraftNodes(DraftNode(d1, b), []);
  }

  lemma ArgumentProper(d: Draft, a: Argument)
    ensures Proper(d, ArgNodes(a))
  {
    var n := ArgNodes(a);
    assert n[1..][1..] == n[2..] && n[2..][1..] == n[3..] && n[3..][1..] == [];
    var d2 := DraftNode(DraftNode(d, n[0]), n[1]);
    assert Proper(DraftNode(d2, n[2]), n[3..]);
    assert Proper(d2, n[2..]);
    assert Proper(DraftNode(d, n[0]), n[1..]);
  }

  lemma StringDraft(d: Draft, text: string, close: string)
    requires !d.quote
    ensures DraftNode(DraftNode(d, Node(ArgStringValue, text)), Node(ArgClose, close)) == d.(text := d.text + Quote(text))
  {
    assert StringText(false, text) == "\"" + Escape(text);
    Regroup(d.text, "\"" + Escape(text), "\"");
  }

  lemma Regroup(a: string, b: string, c: string)
    ensures a + (b + c) == a + b + c
  {
  }

  lemma ValueDraft(d: Draft, v: Value, close: string)
    requires !d.quote
    ensures DraftNode(DraftNode(d, ValueNode(v)), Node(ArgClose, close)) == d.(text := d.text + ValueText(v))
  {
    hide Quote, LiteralText;
    if v.Text? {
      StringDraft(d, v.text, close);
    }
  }

  lemma NameOfDraft(d: Draft, open: string, name: string, added: string)
    requires !d.quote && added == (if d.count > 0 then "," else "") + Quote(TrimName(name)) + ":"
    ensures DraftNode(DraftNode(d, Node(ArgOpen, open)), Node(ArgName, name)) == Draft(d.text + added, d.count + 1, false)
  {
    hide Quote, TrimName;
  }

  lemma OneArgument(d: Draft, a: Argument)
    requires !d.quote
    ensures DraftNodes(d, ArgNodes(a))
         == Draft(d.text + ((if d.count > 0 then "," else "") + Entry(a)), d.count + 1, false)
  {
    hide Quote, ValueText, TrimName, DraftNode, DraftNodes;
    var n := ArgNodes(a);
    var comma, key := if d.count > 0 then "," else "", Quote(TrimName(a.name));
    FourNodes(d, n[0], n[1], n[2], n[3]);
    NameOfDraft(d, a.open, a.name, comma + key + ":");
    ValueDraft(Draft(d.text + (comma + key + ":"), d.count + 1, false), a.value, a.close);
    EntryText(d.text, comma, key, ValueText(a.value));
  }

  lemma EntryText(text: string, comma: string, key: string, value: string)
    ensures text + (comma + key + ":") + value == text + (comma + (key + ":" + value))
  {
  }

  lemma {:induction false} AllArguments(args: seq<Argument>)
    ensures Proper(NO_DRAFT, AllArgNodes(args))
    ensures DraftNodes(NO_DRAFT, AllArgNodes(args)) == Draft(Body(args), |args|, false)
  {
    hide Entry, ArgNodes, DraftNode;
    if args != [] {
      var n := |args| - 1;
      var head := AllArgNodes(args[..n]);
      AllArguments(args[..n]);
      var d := DraftNodes(NO_DRAFT, head);
      OneArgument(d, args[n]);
      ArgumentProper(d, args[n]);
      DraftConcat(NO_DRAFT, head, ArgNodes(args[n]));
      ProperConcat(NO_DRAFT, head, ArgNodes(args[n]));
    }
  }

  // ---------------------------------------------------------------------
  // Closing

  lemma CloseDraft(st: State, before: Msg, name: string, body: string, count: nat, text: string)
    requires Building(st, before, Some(name), Draft(body, count, false))
    ensures MapNode(st, Node(ToolClose, text)).msg
         == before.(calls := before.calls + [ToolCall(name, CloseText("{" + body, false), "")])
  {
    var i, args := |before.calls|, "{" + body;
    var c := ToolCall(name, args, "");
    assert Call(st) == c;
    assert (before.calls + [c])[i := ToolCall(name, CloseText(args, false), "")]
        == before.calls + [ToolCall(name, CloseText(args, false), "")];
  }

  /** A call with its name at position `p` among its argument nodes. */
  function CallNodes(open: string, name: string, args: seq<Argument>, p: nat, close: string): seq<Node>
    requires p <= |AllArgNodes(args)|
  {
    [Node(ToolOpen, open)] + AllArgNodes(args)[..p] + [Node(ToolName, name)] + AllArgNodes(args)[p..] + [Node(ToolClose, close)]
  }

  lemma FiveParts(st: State, a: seq<Node>, b: seq<Node>, c: seq<Node>, d: seq<Node>, e: seq<Node>)
    ensures RunFrom(st, a + b + c + d + e) == RunFrom(RunFrom(RunFrom(RunFrom(RunFrom(st, a), b), c), d), e)
  {
    RunFromConcat(st, a + b + c + d, e);
    RunFromConcat(st, a + b + c, d);
    RunFromConcat(st, a + b, c);
    RunFromConcat(st, a, b);
  }

  /** The two halves of the argument nodes, around the name. */
  lemma ArgumentHalves(args: seq<Argument>, a: seq<Node>, b: seq<Node>)
    requires a + b == AllArgNodes(args)
    ensures Proper(NO_DRAFT, a) && Proper(DraftNodes(NO_DRAFT, a), b)
    ensures DraftNodes(DraftNodes(NO_DRAFT, a), b) == Draft(Body(args), |args|, false)
  {
    AllArguments(args);
    ProperConcat(NO_DRAFT, a, b);
    DraftConcat(NO_DRAFT, a, b);
  }

  lemma OpenDraft(st: State, open: string)
    ensures RunFrom(st, [Node(ToolOpen, open)]) == MapNode(st, Node(ToolOpen, open))
    ensures Building(MapNode(st, Node(ToolOpen, open)), st.msg, None, NO_DRAFT)
  {
    RunFromOne(st, Node(ToolOpen, open));
  }

  /** From the name on, the draft is finished and closed. */
  lemma FinishDraft(st: State, before: Msg, name: string, d: Draft, nodes: seq<Node>, close: string, body: string, count: nat)
    requires Building(st, before, None, d) && TrimTrailing(name) != "" && Proper(d, nodes)
    requires DraftNodes(d, nodes) == Draft(body, count, false)
    ensures RunFrom(RunFrom(RunFrom(st, [Node(ToolName, name)]), nodes), [Node(ToolClose, close)]).msg
         == before.(calls := before.calls + [ToolCall(TrimTrailing(name), CloseText("{" + body, false), "")])
  {
    hide Building, MapNode, CloseText, Proper, DraftNodes, RunFrom;
    var n, c := TrimTrailing(name), Node(ToolClose, close);
    RunFromOne(st, Node(ToolName, name));
    NameDraft(st, before, d, name);
    var s3 := MapNode(st, Node(ToolName, name));
    BuildNodes(s3, before, Some(n), d, nodes);
    RunFromOne(RunFrom(s3, nodes), c);
    CloseDraft(RunFrom(s3, nodes), before, n, body, count, close);
  }

  /** From any state of the mapper, wherever the name comes and whatever the values, the call is listed with its
      arguments in one object, to which closing adds a brace for each left open. */
  lemma ArgumentsClosed(st: State, open: string, name: string, args: seq<Argument>, p: nat, close: string)
    requires p <= |AllArgNodes(args)| && TrimTrailing(name) != ""
    ensures RunFrom(st, CallNodes(open, name, args, p, close)).msg
         == st.msg.(calls := st.msg.calls + [ToolCall(TrimTrailing(name), CloseText("{" + Body(args), false), "")])
  {
    hide Building, MapNode, CloseText, Proper, DraftNodes, RunFrom, Body, AllArgNodes;
    var nodes := AllArgNodes(args);
    FiveParts(st, [Node(ToolOpen, open)], nodes[..p], [Node(ToolName, name)], nodes[p..], [Node(ToolClose, close)]);
    assert nodes == nodes[..p] + nodes[p..];
    ArgumentHalves(args, nodes[..p], nodes[p..]);
    OpenDraft(st, open);
    var s1 := MapNode(st, Node(ToolOpen, open));
    BuildNodes(s1, st.msg, None, NO_DRAFT, nodes[..p]);
    FinishDraft(RunFrom(s1, nodes[..p]), st.msg, name, DraftNodes(NO_DRAFT, nodes[..p]), nodes[p..], close, Body(args), |args|);
  }

  // ---------------------------------------------------------------------
  // How many braces are added

  /** The braces that the literals leave open, counted outside their own strings. */
  function LeftOpen(args: seq<Argument>): int {
    if args == [] then 0
    else
      var v := args[|args| - 1].value;
      LeftOpen(args[..|args| - 1]) + if v.Text? then 0 else PyText(PY_START, v.text).depth
  }

  /** No literal ends inside a string of its own. */
  predicate OutsideStrings(args: seq<Argument>) {
    forall i :: 0 <= i < |args| && args[i].value.Literal? ==> PyText(PY_START, args[i].value.text).mode == Outside
  }

  lemma ScanLiteral(d: int, s: string)
    requires PyText(PY_START, s).mode == Outside
    ensures ScanText(Scan(d, false, false), LiteralText(s)) == Scan(d + PyText(PY_START, s).depth, false, false)
  {
    if s != "" {
      NormalizeBraces(s);
      ScanEscapes(START, Normalize(s));
      ScanShift(START, d, Normalize(s));
    }
  }

  lemma ScanValue(d: int, v: Value)
    requires v.Literal? ==> PyText(PY_START, v.text).mode == Outside
    ensures ScanText(Scan(d, false, false), ValueText(v))
         == Scan(d + if v.Text? then 0 else PyText(PY_START, v.text).depth, false, false)
  {
    if v.Text? {
      ScanQuote(d, v.text);
    } else {
      ScanLiteral(d, v.text);
    }
  }

  lemma ScanThen(s: Scan, a: string, r: Scan, b: string, r': Scan)
    requires ScanText(s, a) == r && ScanText(r, b) == r'
    ensures ScanText(s, a + b) == r'
  {
    ScanConcat(s, a, b);
  }

  lemma ScanEntry(d: int, a: Argument, comma: string, d': int)
    requires comma == "" || comma == ","
    requires a.value.Literal? ==> PyText(PY_START, a.value.text).mode == Outside
    requires d' == d + if a.value.Text? then 0 else PyText(PY_START, a.value.text).depth
    ensures ScanText(Scan(d, false, false), comma + Entry(a)) == Scan(d', false, false)
  {
    hide Quote, ValueText;
    var s, key := Scan(d, false, false), Quote(TrimName(a.name));
    ScanQuote(d, TrimName(a.name));
    ScanOne(d, ':');
    ScanThen(s, key, s, ":", s);
    ScanValue(d, a.value);
    ScanThen(s, key + ":", s, ValueText(a.value), Scan(d', false, false));
    ScanComma(d, comma);
    ScanThen(s, comma, s, Entry(a), Scan(d', false, false));
  }

  lemma ScanComma(d: int, comma: string)
    requires comma == "" || comma == ","
    ensures ScanText(Scan(d, false, false), comma) == Scan(d, false, false)
  {
    if comma == "," {
      ScanOne(d, ',');
    }
  }

  lemma {:induction false} ScanBody(d: int, args: seq<Argument>)
    requires OutsideStrings(args)
    ensures ScanText(Scan(d, false, false), Body(args)) == Scan(d + LeftOpen(args), false, false)
    decreases |args|
  {
    hide ScanText, Entry, PyText;
    if args == [] {
      ScanComma(d, "");
    } else {
      var n, comma := |args| - 1, if |args| > 1 then "," else "";
      ScanBody(d, args[..n]);
      ScanEntry(d + LeftOpen(args[..n]), args[n], comma, d + LeftOpen(args));
      ScanThen(Scan(d, false, false), Body(args[..n]), Scan(d + LeftOpen(args[..n]), false, false),
               comma + Entry(args[n]), Scan(d + LeftOpen(args), false, false));
    }
  }

  /** Closing adds one brace and one for each that the rewritten literals leave open. */
  lemma BracesAdded(args: seq<Argument>)
    requires OutsideStrings(args)
    ensures CloseText("{" + Body(args), false) == "{" + Body(args) + Braces(1 + LeftOpen(args))
  {
    hide Body, LeftOpen, PyText;
    ScanOne(0, '{');
    ScanBody(1, args);
    ScanThen(START, "{", Scan(1, false, false), Body(args), Scan(1 + LeftOpen(args), false, false));
  }

  /** So a call whose literals end outside their strings is listed with exactly that many braces. */
  lemma TaggedCallBraces(st: State, open: string, name: string, args: seq<Argument>, p: nat, close: string)
    requires p <= |AllArgNodes(args)| && TrimTrailing(name) != "" && OutsideStrings(args)
    ensures RunFrom(st, CallNodes(open, name, args, p, close)).msg
         == st.msg.(calls := st.msg.calls
              + [ToolCall(TrimTrailing(name), "{" + Body(args) + Braces(1 + LeftOpen(args)), "")])
  {
    hide RunFrom, CallNodes, CloseText, Braces, Body;
    ArgumentsClosed(st, open, name, args, p, close);
    BracesAdded(args);
  }

  // ---------------------------------------------------------------------
  // Values that stand for JSON

  /** The argument stands for the member: a string for itself, a literal for what it is rewritten to. */
  predicate Spells(a: Argument, m: Member) {
    && m.key == TrimName(a.name)
    && match a.value
       case Text(s) => m.value == Str(s)
       case Literal(s) => WellFormed(m.value) && LiteralText(s) == Serialize(m.value)
  }

  predicate AllSpell(args: seq<Argument>, ms: seq<Member>) {
    |args| == |ms| && forall i :: 0 <= i < |args| ==> Spells(args[i], ms[i])
  }

  /** The members that string arguments stand for. */
  function Members(args: seq<Argument>): (ms: seq<Member>)
    ensures |ms| == |args|
  {
    seq(|args|, i requires 0 <= i < |args| => Member(TrimName(args[i].name), Str(args[i].value.text)))
  }

  /** Strings stand for members whatever characters they contain. */
  lemma StringsSpell(args: seq<Argument>)
    requires forall i :: 0 <= i < |args| ==> args[i].value.Text?
    ensures AllSpell(args, Members(args))
  {
  }

  /** A literal in Python notation stands for its value. */
  lemma PythonSpells(a: Argument, style: PythonValues.Style, v: Json)
    requires PythonValues.Readable(v)
    requires a.value == Literal(PythonValues.Print(PythonValues.PythonNotation(style, ""), v))
    ensures Spells(a, Member(TrimName(a.name), v))
  {
    hide PythonValues.Print, Serialize, Normalize;
    PythonValues.PythonReadsBack(style, v);
    PythonValues.ReadableWellFormed(v);
    EmptyLiteral();
  }

  lemma EmptyLiteral()
    ensures Normalize("") == ""
  {
  }

  lemma EntrySpelled(a: Argument, m: Member)
    requires Spells(a, m)
    ensures Entry(a) == SerializeMember(m) && WellFormed(m.value)
  {
  }

  lemma {:induction false} BodySpelled(args: seq<Argument>, ms: seq<Member>)
    requires AllSpell(args, ms)
    ensures Body(args) == SerializeMembers(ms) && forall i :: 0 <= i < |ms| ==> WellFormed(ms[i].value)
    decreases |args|
  {
    hide Entry, SerializeMember, Spells, WellFormed;
    forall i | 0 <= i < |ms| ensures WellFormed(ms[i].value) {
      EntrySpelled(args[i], ms[i]);
    }
    if args != [] {
      var n := |args| - 1;
      BodySpelled(args[..n], ms[..n]);
      EntrySpelled(args[n], ms[n]);
      Regroup(SerializeMembers(ms[..n]), ",", SerializeMember(ms[n]));
    }
  }

  /** An open object whose strings are closed needs exactly one brace. */
  lemma OneBrace(ms: seq<Member>)
    requires forall i :: 0 <= i < |ms| ==> WellFormed(ms[i].value)
    ensures CloseText("{" + SerializeMembers(ms), false) == Serialize(Obj(ms))
  {
    var body := SerializeMembers(ms);
    ScanOne(0, '{');
    ScanConcat(START, "{", body);
    MembersBalanced(1, ms);
    assert Braces(1) == "}" + Braces(0) == "}";
  }

  lemma ClosedSpelled(args: seq<Argument>, ms: seq<Member>)
    requires AllSpell(args, ms)
    ensures CloseText("{" + Body(args), false) == Serialize(Obj(ms))
  {
    hide CloseText, Body, Serialize;
    BodySpelled(args, ms);
    OneBrace(ms);
  }

  /** From any state of the mapper, and wherever the name comes, the call is listed with exactly the
      serialised object of its trimmed argument names and its values. */
  lemma TaggedCall(st: State, open: string, name: string, args: seq<Argument>, p: nat, close: string, ms: seq<Member>)
    requires p <= |AllArgNodes(args)| && TrimTrailing(name) != "" && AllSpell(args, ms)
    ensures RunFrom(st, CallNodes(open, name, args, p, close)).msg
         == st.msg.(calls := st.msg.calls + [ToolCall(TrimTrailing(name), Serialize(Obj(ms)), "")])
  {
    hide RunFrom, CallNodes, CloseText, Body, Serialize;
    ArgumentsClosed(st, open, name, args, p, close);
    ClosedSpelled(args, ms);
  }

  /** A JSON reader gets the argument names and values back, whatever characters they contain. */
  lemma TaggedCallReadsBack(st: State, open: string, name: string, args: seq<Argument>, p: nat, close: string, ms: seq<Member>)
    requires p <= |AllArgNodes(args)| && TrimTrailing(name) != "" && AllSpell(args, ms)
    ensures var calls := RunFrom(st, CallNodes(open, name, args, p, close)).msg.calls;
            && |calls| == |st.msg.calls| + 1
            && ReadValue(calls[|calls| - 1].arguments) == Some((Obj(ms), ""))
  {
    hide RunFrom, CallNodes, AllSpell;
    TaggedCall(st, open, name, args, p, close, ms);
    var v := Obj(ms);
    BodySpelled(args, ms);
    ReadSerialized(v, "");
    assert Serialize(v) + "" == Serialize(v);
  }

  // ---------------------------------------------------------------------
  // Whole replies

  /** A tagged call: its name comes behind `place` of the argument nodes. */
  datatype Tagged = Tagged(open: string, name: string, args: seq<Argument>, place: nat, close: string)

  predicate Named(c: Tagged) {
    c.place <= |AllArgNodes(c.args)| && TrimTrailing(c.name) != ""
  }

  predicate AllNamed(cs: seq<Tagged>) {
    forall i :: 0 <= i < |cs| ==> Named(cs[i])
  }

  function CallsNodes(cs: seq<Tagged>): seq<Node>
    requires AllNamed(cs)
  {
    if cs == [] then []
    else
      var c := cs[|cs| - 1];
      CallsNodes(cs[..|cs| - 1]) + CallNodes(c.open, c.name, c.args, c.place, c.close)
  }

  /** What a client is to see of the calls. */
  function Shown(cs: seq<Tagged>): (r: seq<ToolCall>)
    ensures |r| == |cs|
  {
    seq(|cs|, i requires 0 <= i < |cs| =>
      ToolCall(TrimTrailing(cs[i].name), CloseText("{" + Body(cs[i].args), false), ""))
  }

  lemma RunThen(head: seq<Node>, tail: seq<Node>)
    ensures Run(head + tail) == RunFrom(Run(head), tail)
  {
    RunIsRunFrom(head + tail);
    RunIsRunFrom(head);
    RunFromConcat(START_STATE, head, tail);
  }

  lemma {:induction false} CallsListed(head: seq<Node>, cs: seq<Tagged>)
    requires AllNamed(cs)
    ensures Run(head + CallsNodes(cs)).msg == Run(head).msg.(calls := Run(head).msg.calls + Shown(cs))
    decreases |cs|
  {
    hide RunFrom, Run, CallNodes, CloseText, Body, TrimTrailing, AllArgNodes;
    if cs == [] {
      assert head + CallsNodes(cs) == head;
    } else {
      var n, c := |cs| - 1, cs[|cs| - 1];
      var front, last := CallsNodes(cs[..n]), CallNodes(c.open, c.name, c.args, c.place, c.close);
      CallsListed(head, cs[..n]);
      assert Named(c);
      ArgumentsClosed(Run(head + front), c.open, c.name, c.args, c.place, c.close);
      RunThen(head + front, last);
      assert head + front + last == head + CallsNodes(cs);
      assert Shown(cs) == Shown(cs[..n]) + [ToolCall(TrimTrailing(c.name), CloseText("{" + Body(c.args), false), "")];
    }
  }

  /** Tagged calls behind anything else add to the reply's message exactly themselves, in order, each with
      its arguments in one closed object. */
  lemma TaggedReply(head: seq<Node>, cs: seq<Tagged>)
    requires AllNamed(cs)
    ensures FromAst(head + CallsNodes(cs)) == FromAst(head).(calls := FromAst(head).calls + Shown(cs))
  {
    CallsListed(head, cs);
    FlushIsDead(head);
    FlushIsDead(head + CallsNodes(cs));
  }

  /** The calls with the objects their arguments stand for. */
  function Serialized(cs: seq<Tagged>, objects: seq<seq<Member>>): (r: seq<ToolCall>)
    requires |cs| == |objects|
    ensures |r| == |cs|
  {
    seq(|cs|, i requires 0 <= i < |cs| => ToolCall(TrimTrailing(cs[i].name), Serialize(Obj(objects[i])), ""))
  }

  /** Where the arguments stand for members, these are the serialised objects. */
  lemma SpelledReply(head: seq<Node>, cs: seq<Tagged>, objects: seq<seq<Member>>)
    requires AllNamed(cs) && |objects| == |cs| && forall i :: 0 <= i < |cs| ==> AllSpell(cs[i].args, objects[i])
    ensures FromAst(head + CallsNodes(cs)) == FromAst(head).(calls := FromAst(head).calls + Serialized(cs, objects))
  {
    hide FromAst, CallsNodes, AllSpell, AllNamed, CloseText, Body, Serialize;
    TaggedReply(head, cs);
    forall i | 0 <= i < |cs| ensures Shown(cs)[i] == Serialized(cs, objects)[i] {
      ClosedSpelled(cs[i].args, objects[i]);
    }
    assert Shown(cs) == Serialized(cs, objects);
  }
}
