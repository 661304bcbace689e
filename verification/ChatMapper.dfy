/** The mapper that turns the nodes of a parsed reply, in pre-order, into a chat message. */
module ChatMapper {
  import opened Basics
  import opened JsonText
  import opened PythonLiterals

  datatype ToolCall = ToolCall(name: string, arguments: string, id: string)

  datatype Msg = Msg(content: string, reasoning: string, calls: seq<ToolCall>)

  const EMPTY_MSG := Msg("", "", [])
  const NEW_CALL := ToolCall("", "", "")

  datatype Tag =
    | Reasoning | Content | ToolOpen | ToolClose | ToolName | ToolId | ToolArgs
    | ArgOpen | ArgClose | ArgName | ArgValue | ArgStringValue | OtherTag

  datatype Node = Node(tag: Tag, text: string)

  /** The tool call that argument nodes belong to: none yet, the one still waiting for its name,
      or a call already in the message. */
  datatype Current = NoTool | Pending | Listed(idx: nat)

  datatype State = State(
    msg: Msg,
    pending: Option<ToolCall>,
    current: Current,
    argCount: nat,
    quotePending: bool,
    buffer: string)

  const START_STATE := State(EMPTY_MSG, None, NoTool, 0, false, "")

  // ---------------------------------------------------------------------
  // Trimming

  function TrimTrailing(s: string): string {
    if s != "" && IsSpace(s[|s| - 1]) then TrimTrailing(s[..|s| - 1]) else s
  }

  /** Argument names lose at most one leading space and all trailing ones. */
  function TrimName(s: string): string {
    TrimTrailing(if s != "" && IsSpace(s[0]) then s[1..] else s)
  }

  /** Trimming a text cut short gives a prefix of the trimmed text. */
  lemma {:induction false} TrimTrailingPrefix(s: string, t: string)
    requires s <= t
    ensures TrimTrailing(s) <= TrimTrailing(t)
    decreases |t|
  {
    if s == t {
    } else if t != "" && IsSpace(t[|t| - 1]) {
      TrimTrailingPrefix(s, t[..|t| - 1]);
    } else {
      TrimTrailingShortens(s);
    }
  }

  lemma {:induction false} TrimTrailingShortens(s: string)
    ensures TrimTrailing(s) <= s
  {
    if s != "" && IsSpace(s[|s| - 1]) {
      TrimTrailingShortens(s[..|s| - 1]);
    }
  }

  function StripQuotes(s: string): string {
    if |s| >= 2 && s[0] == '"' && s[|s| - 1] == '"' then s[1..|s| - 1] else s
  }

  // ---------------------------------------------------------------------
  // The current call

  /** The pointers of the mapper are where the source can leave them. */
  predicate Valid(st: State) {
    && (st.pending.Some? ==> st.current == Pending && st.pending.value.name == "")
    && (st.current.Listed? ==> st.pending.None? && st.current.idx + 1 == |st.msg.calls|)
  }

  /** There is a current call and it is alive. */
  predicate HasCall(st: State) {
    match st.current
    case NoTool => false
    case Pending => st.pending.Some?
    case Listed(i) => i < |st.msg.calls|
  }

  /** The current call was discarded and not replaced: the source would read freed storage. */
  predicate Dangling(st: State) {
    st.current == Pending && st.pending.None?
  }

  function Call(st: State): ToolCall
    requires HasCall(st)
  {
    match st.current
    case Pending => st.pending.value
    case Listed(i) => st.msg.calls[i]
  }

  function SetCall(st: State, c: ToolCall): State
    requires HasCall(st)
  {
    match st.current
    case Pending => st.(pending := Some(c))
    case Listed(i) => st.(msg := st.msg.(calls := st.msg.calls[i := c]))
  }

  /** Where argument text goes: the buffer until the call has a name. */
  function Target(st: State): string
    requires HasCall(st)
  {
    if Call(st).name != "" then Call(st).arguments else st.buffer
  }

  function SetTarget(st: State, text: string): State
    requires HasCall(st)
  {
    if Call(st).name != "" then SetCall(st, Call(st).(arguments := text)) else st.(buffer := text)
  }

  // ---------------------------------------------------------------------
  // One node

  function OpenCall(st: State): State {
    st.(pending := Some(NEW_CALL), current := Pending, argCount := 0, buffer := "", quotePending := false)
  }

  function NamedArguments(c: ToolCall, buffer: string): string {
    if buffer != "" then buffer else if c.arguments == "" then "{" else c.arguments
  }

  /** A named call becomes visible in the message at once. */
  function NameCall(st: State, text: string): State
    requires HasCall(st)
  {
    var c := ToolCall(TrimTrailing(text), NamedArguments(Call(st), st.buffer), Call(st).id);
    if st.pending.Some? then
      st.(msg := st.msg.(calls := st.msg.calls + [c]), pending := None, current := Listed(|st.msg.calls|), buffer := "")
    else SetCall(st, c).(buffer := "")
  }

  predicate JsonArgs(text: string) {
    var t := TrimTrailing(text);
    t != "" && t[0] == '{'
  }

  function NameArgument(st: State, text: string): State
    requires HasCall(st)
  {
    var entry := (if st.argCount > 0 then "," else "") + Quote(TrimName(text)) + ":";
    SetTarget(st, (if Target(st) == "" then "{" else Target(st)) + entry).(argCount := st.argCount + 1)
  }

  function StringText(quotePending: bool, text: string): string {
    if text == "" then "\"" else (if quotePending then "" else "\"") + Escape(text)
  }

  function Braces(n: int): string {
    if n <= 0 then "" else "}" + Braces(n - 1)
  }

  /** The pending quote, then one brace for every brace left open. */
  function CloseText(args: string, quotePending: bool): string {
    var quoted := if quotePending then args + "\"" else args;
    quoted + Braces(BraceDepth(quoted))
  }

  function ClosedCall(st: State): ToolCall
    requires HasCall(st)
  {
    var c := Call(st);
    var args := if c.name == "" && st.buffer != "" then st.buffer else c.arguments;
    c.(arguments := CloseText(args, st.quotePending))
  }

  /** A call still without a name is discarded. */
  function CloseCall(st: State): State
    requires HasCall(st)
  {
    var c := ClosedCall(st);
    var buffer := if c.name == "" then "" else st.buffer;
    if st.pending.Some? then
      st.(msg := if c.name != "" then st.msg.(calls := st.msg.calls + [c]) else st.msg,
          pending := None, buffer := buffer, quotePending := false)
    else SetCall(st, c).(buffer := buffer, quotePending := false)
  }

  /** Nodes that read or write the current call, as opposed to its pointer only. */
  predicate UsesCall(st: State, node: Node) {
    match node.tag
    case ToolId => true
    case ToolName => true
    case ToolArgs => JsonArgs(node.text)
    case ArgName => true
    case ArgValue => true
    case ArgStringValue => true
    case ArgClose => st.quotePending
    case ToolClose => true
    case _ => false
  }

  function UseCall(st: State, node: Node): State
    requires HasCall(st)
  {
    match node.tag
    case ToolId => SetCall(st, Call(st).(id := StripQuotes(TrimTrailing(node.text))))
    case ToolName => NameCall(st, node.text)
    case ToolArgs => SetTarget(st, TrimTrailing(node.text))
    case ArgName => NameArgument(st, node.text)
    case ArgValue => SetTarget(st, Target(st) + if node.text == "" then "" else Normalize(node.text))
    case ArgStringValue =>
      SetTarget(st, Target(st) + StringText(st.quotePending, node.text)).(quotePending := true)
    case ArgClose => SetTarget(st, Target(st) + "\"").(quotePending := false)
    case ToolClose => CloseCall(st)
    case _ => st
  }

  /** What one node does to the mapper. A node that would use a dangling call has no defined
      effect in the source; here it has none, and `Streamable` keeps such runs out. */
  function MapNode(st: State, node: Node): State {
    match node.tag
    case Reasoning => st.(msg := st.msg.(reasoning := st.msg.reasoning + node.text))
    case Content => st.(msg := st.msg.(content := st.msg.content + node.text))
    case ToolOpen => OpenCall(st)
    case ArgOpen => st.(quotePending := false)
    case _ => if UsesCall(st, node) && HasCall(st) then UseCall(st, node) else st
  }

  function Run(nodes: seq<Node>): State {
    if nodes == [] then START_STATE else MapNode(Run(nodes[..|nodes| - 1]), nodes[|nodes| - 1])
  }

  // ---------------------------------------------------------------------
  // The finished message

  predicate Blank(s: string) {
    forall i :: 0 <= i < |s| ==> s[i] == ' ' || s[i] == '\n' || s[i] == '\r' || s[i] == '\t'
  }

  function FlushedCall(st: State): ToolCall
    requires st.pending.Some?
  {
    var c := st.pending.value;
    var args := if st.buffer != "" then st.buffer else c.arguments;
    c.(arguments := if st.quotePending && args != "" then args + "\"" else args)
  }

  function Finish(st: State): Msg {
    var calls := if st.pending.Some? && st.pending.value.name != ""
                 then st.msg.calls + [FlushedCall(st)] else st.msg.calls;
    st.msg.(calls := calls, reasoning := if Blank(st.msg.reasoning) then "" else st.msg.reasoning)
  }

  function FromAst(nodes: seq<Node>): Msg {
    Finish(Run(nodes))
  }

  // ---------------------------------------------------------------------
  // What every node keeps

  lemma MapNodeValid(st: State, node: Node)
    requires Valid(st)
    ensures Valid(MapNode(st, node))
  {
  }

  lemma {:induction false} RunValid(nodes: seq<Node>)
    ensures Valid(Run(nodes))
  {
    if nodes != [] {
      RunValid(nodes[..|nodes| - 1]);
      MapNodeValid(Run(nodes[..|nodes| - 1]), nodes[|nodes| - 1]);
    }
  }

  /** The flush of a named pending call at the end of a parse never happens:
      naming a call lists it at once. */
  lemma FlushIsDead(nodes: seq<Node>)
    ensures FromAst(nodes).calls == Run(nodes).msg.calls
  {
    RunValid(nodes);
  }

  // ---------------------------------------------------------------------
  // The mapper object

  /** The loop that closes open braces. */
  method CloseBraces(args: string) returns (r: string)
    ensures r == args + Braces(BraceDepth(args))
  {
    r := args;
    var d := CountBraces(args);
    while d > 0
      invariant r + Braces(d) == args + Braces(BraceDepth(args))
    {
      assert r + Braces(d) == r + "}" + Braces(d - 1);
      r := r + "}";
      d := d - 1;
    }
    assert r + Braces(d) == r;
  }

  class Mapper {
    var result: Msg
    var pendingToolCall: Option<ToolCall>
    var currentTool: Current
    var argCount: nat
    var closingQuotePending: bool
    var argsBuffer: string

    function View(): State
      reads this
    {
      State(result, pendingToolCall, currentTool, argCount, closingQuotePending, argsBuffer)
    }

    constructor ()
      ensures View() == START_STATE
    {
      result := EMPTY_MSG;
      pendingToolCall := None;
      currentTool := NoTool;
      argCount := 0;
      closingQuotePending := false;
      argsBuffer := "";
    }

    /** Writes through the current-tool pointer. */
    method Store(c: ToolCall)
      requires HasCall(View())
      modifies this
      ensures View() == SetCall(old(View()), c)
    {
      match currentTool
      case Pending => pendingToolCall := Some(c);
      case Listed(i) => result := result.(calls := result.calls[i := c]);
    }

    method StoreTarget(text: string)
      requires HasCall(View())
      modifies this
      ensures View() == SetTarget(old(View()), text)
    {
      if Call(View()).name != "" {
        Store(Call(View()).(arguments := text));
      } else {
        argsBuffer := text;
      }
    }

    method Name(text: string)
      requires HasCall(View())
      modifies this
      ensures View() == NameCall(old(View()), text)
    {
      var c := Call(View()).(name := TrimTrailing(text));
      if argsBuffer != "" {
        c := c.(arguments := argsBuffer);
        argsBuffer := "";
      } else if c.arguments == "" {
        c := c.(arguments := "{");
      }
      if pendingToolCall.Some? {
        result := result.(calls := result.calls + [c]);
        pendingToolCall := None;
        currentTool := Listed(|result.calls| - 1);
      } else {
        Store(c);
      }
    }

    method Close()
      requires HasCall(View())
      modifies this
      ensures View() == CloseCall(old(View()))
    {
      var c := Call(View());
      if c.name == "" && argsBuffer != "" {
        c := c.(arguments := argsBuffer);
        argsBuffer := "";
      }
      if closingQuotePending {
        c := c.(arguments := c.arguments + "\"");
        closingQuotePending := false;
      }
      var args := CloseBraces(c.arguments);
      c := c.(arguments := args);
      assert c == ClosedCall(old(View()));
      if pendingToolCall.Some? {
        if c.name != "" {
          result := result.(calls := result.calls + [c]);
        }
        pendingToolCall := None;
      } else {
        Store(c);
      }
    }

    /** Handles one node. The precondition is the source's: a discarded call must not be used. */
    method Map(node: Node)
      requires Valid(View())
      requires UsesCall(View(), node) ==> !Dangling(View())
      modifies this
      ensures View() == MapNode(old(View()), node) && Valid(View())
    {
      ghost var before := View();
      MapNodeValid(before, node);
      match node.tag {
        case Reasoning => result := result.(reasoning := result.reasoning + node.text);
        case Content => result := result.(content := result.content + node.text);
        case ToolOpen =>
          pendingToolCall, currentTool, argCount := Some(NEW_CALL), Pending, 0;
          argsBuffer, closingQuotePending := "", false;
        case ArgOpen => closingQuotePending := false;
        case OtherTag =>
        case _ =>
          if currentTool != NoTool && UsesCall(View(), node) {
            Use(node);
          }
      }
    }

    method Use(node: Node)
      requires HasCall(View()) && UsesCall(View(), node)
      modifies this
      ensures View() == UseCall(old(View()), node)
    {
      match node.tag {
        case ToolId => Store(Call(View()).(id := StripQuotes(TrimTrailing(node.text))));
        case ToolName => Name(node.text);
        case ToolArgs => StoreTarget(TrimTrailing(node.text));
        case ArgName =>
          var entry := (if argCount > 0 then "," else "") + Quote(TrimName(node.text)) + ":";
          argCount := argCount + 1;
          StoreTarget((if Target(View()) == "" then "{" else Target(View())) + entry);
        case ArgValue =>
          var value := "";
          if node.text != "" {
            value := NormalizeQuotes(node.text);
          }
          StoreTarget(Target(View()) + value);
        case ArgStringValue =>
          var value := StringText(closingQuotePending, node.text);
          closingQuotePending := true;
          StoreTarget(Target(View()) + value);
        case ArgClose =>
          closingQuotePending := false;
          StoreTarget(Target(View()) + "\"");
        case ToolClose => Close();
        case _ =>
      }
    }
  }
}
