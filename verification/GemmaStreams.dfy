/** What is printed for a Gemma 4 value while it is being received lacks nothing but the marks that close it. */
module GemmaStreams {
  import opened JsonText
  import opened JsonValue
  import opened Gemma4

  /** The tree with every node complete. */
  function Closed(t: Tree): Tree
    decreases t
  {
    Tree(t.rule, t.text, false, seq(|t.children|, i requires 0 <= i < |t.children| => Closed(t.children[i])))
  }

  function AllClosed(ts: seq<Tree>): (r: seq<Tree>)
    ensures |r| == |ts| && forall i :: 0 <= i < |ts| ==> r[i] == Closed(ts[i])
  {
    seq(|ts|, i requires 0 <= i < |ts| => Closed(ts[i]))
  }

  predicate Complete(t: Tree)
    decreases t
  {
    !t.partial && forall i :: 0 <= i < |t.children| ==> Complete(t.children[i])
  }

  /** A tree that is being received: a complete node has complete children, a partial one may have a partial last
      child. Strings and keys have their text in a child of its own, values have one child. */
  predicate Streamed(t: Tree)
    decreases t, 1
  {
    && (!t.partial ==> Complete(t))
    && StreamedAll(t.children)
    && (t.rule == StringRule ==> |t.children| <= 1 && (t.children != [] ==> t.children[0].rule == StringContentRule))
    && (t.rule == DictKeyRule ==> |t.children| <= 1 && (t.children != [] ==> t.children[0].rule == DictKeyNameRule))
    && (t.rule == ValueRule ==> |t.children| <= 1)
  }

  predicate StreamedAll(ts: seq<Tree>)
    decreases ts, 0
  {
    && (forall i :: 0 <= i < |ts| - 1 ==> Complete(ts[i]))
    && (ts != [] ==> Streamed(ts[|ts| - 1]))
  }

  /** The marks that are still to come, innermost first. */
  function Closers(t: Tree): string
    decreases t, 1
  {
    if t.text == "" then ""
    else match t.rule
      case StringRule => if t.partial && t.children != [] then "\"" else ""
      case ArrayRule => LastClosers(t.children) + if t.partial then "]" else ""
      case DictKeyRule => if t.partial then "\":" else ""
      case DictKvRule => LastClosers(t.children)
      case DictRule => LastClosers(t.children) + if t.partial then "}" else ""
      case ValueRule => LastClosers(t.children)
      case _ => ""
  }

  function LastClosers(ts: seq<Tree>): string
    decreases ts, 0
  {
    if ts == [] then "" else Closers(ts[|ts| - 1])
  }

  lemma {:induction false} CompleteClosed(t: Tree)
    requires Complete(t)
    ensures Closed(t) == t
    decreases t
  {
    forall i | 0 <= i < |t.children| ensures Closed(t.children[i]) == t.children[i] {
      CompleteClosed(t.children[i]);
    }
    assert Closed(t).children == t.children;
  }

  lemma ClosedFront(ts: seq<Tree>, n: nat)
    requires |ts| == n + 1 && forall i :: 0 <= i < n ==> Complete(ts[i])
    ensures AllClosed(ts)[..n] == ts[..n] && AllClosed(ts)[n] == Closed(ts[n])
  {
    forall i | 0 <= i < n ensures AllClosed(ts)[i] == ts[i] {
      CompleteClosed(ts[i]);
    }
  }

  lemma Appended(a: string, b: string, c: string)
    ensures a + (b + c) == a + b + c
  {
  }

  lemma {:induction false} JoinedCloses(ts: seq<Tree>)
    requires StreamedAll(ts)
    ensures Joined(AllClosed(ts)) == Joined(ts) + LastClosers(ts)
    decreases ts, 0
  {
    hide ToJson, Closers, Complete, Streamed, Closed;
    if ts != [] {
      var n := |ts| - 1;
      ClosedFront(ts, n);
      PrintsClosed(ts[n]);
      if n > 0 {
        Appended(Joined(ts[..n]) + ",", ToJson(ts[n]), Closers(ts[n]));
      }
    }
  }

  lemma {:induction false} ConcatenatedCloses(ts: seq<Tree>)
    requires StreamedAll(ts)
    ensures Concatenated(AllClosed(ts)) == Concatenated(ts) + LastClosers(ts)
    decreases ts, 0
  {
    hide ToJson, Closers, Complete, Streamed, Closed;
    if ts != [] {
      var n := |ts| - 1;
      ClosedFront(ts, n);
      PrintsClosed(ts[n]);
      Appended(Concatenated(ts[..n]), ToJson(ts[n]), Closers(ts[n]));
    }
  }

  lemma ClosedIs(t: Tree, c: Tree)
    requires c == Closed(t)
    ensures c == Tree(t.rule, t.text, false, AllClosed(t.children))
  {
    assert c.children == AllClosed(t.children);
  }

  /** The text of a leaf does not depend on whether it is complete. */
  lemma LeafCloses(t: Tree)
    requires t.rule == StringContentRule || t.rule == DictKeyNameRule
    ensures ToJson(Closed(t)) == ToJson(t)
  {
  }

  lemma StringCloses(t: Tree, c: Tree)
    requires Streamed(t) && c == Closed(t) && t.text != "" && t.rule == StringRule
    ensures ToJson(c) == ToJson(t) + Closers(t)
  {
    ClosedIs(t, c);
    if t.children != [] {
      LeafCloses(t.children[0]);
      assert ToJson(t) == "\"" + ToJson(t.children[0]) + (if t.partial then "" else "\"");
    }
  }

  lemma KeyCloses(t: Tree, c: Tree)
    requires Streamed(t) && c == Closed(t) && t.text != "" && t.rule == DictKeyRule
    ensures ToJson(c) == ToJson(t) + Closers(t)
  {
    ClosedIs(t, c);
    var name := if t.children == [] then "" else Escape(ToJson(t.children[0]));
    if t.children != [] {
      LeafCloses(t.children[0]);
    }
    assert ToJson(t) == "\"" + name + (if t.partial then "" else "\":");
    assert ToJson(c) == "\"" + name + "\":";
  }

  lemma Wrapped(open: string, body: string, more: string, end: string, partial: bool)
    requires !partial ==> more == ""
    ensures open + (body + more) + end
         == open + body + (if partial then "" else end) + (more + if partial then end else "")
  {
    assert body + "" == body;
  }

  lemma ListCloses(t: Tree, c: Tree)
    requires t.text != "" && (t.rule == ArrayRule || t.rule == DictRule)
    requires c == Tree(t.rule, t.text, false, c.children) && Joined(c.children) == Joined(t.children) + LastClosers(t.children)
    requires !t.partial ==> LastClosers(t.children) == ""
    ensures ToJson(c) == ToJson(t) + Closers(t)
  {
    hide Joined, LastClosers;
    if t.rule == ArrayRule {
      Wrapped("[", Joined(t.children), LastClosers(t.children), "]", t.partial);
    } else {
      Wrapped("{", Joined(t.children), LastClosers(t.children), "}", t.partial);
    }
  }

  lemma {:induction false} CompleteHasNone(t: Tree)
    requires Complete(t)
    ensures Closers(t) == ""
    decreases t
  {
    if t.children != [] {
      CompleteHasNone(t.children[|t.children| - 1]);
    }
  }

  lemma LastHasNone(t: Tree)
    requires Streamed(t) && !t.partial
    ensures LastClosers(t.children) == ""
  {
    if t.children != [] {
      CompleteHasNone(t.children[|t.children| - 1]);
    }
  }

  /** Completing a tree that is being received adds exactly its closing marks to what is printed. */
  lemma {:induction false} PrintsClosed(t: Tree)
    requires Streamed(t)
    ensures ToJson(Closed(t)) == ToJson(t) + Closers(t)
    decreases t, 1
  {
    var c := Closed(t);
    ClosedIs(t, c);
    if t.text != "" {
      match t.rule
      case StringRule => StringCloses(t, c);
      case DictKeyRule => KeyCloses(t, c);
      case ArrayRule =>
        JoinedCloses(t.children);
        LastIfComplete(t);
        ListCloses(t, c);
      case DictRule =>
        JoinedCloses(t.children);
        LastIfComplete(t);
        ListCloses(t, c);
      case DictKvRule => ConcatenatedCloses(t.children);
      case ValueRule =>
        if t.children != [] {
          PrintsClosed(t.children[0]);
        }
      case _ =>
    }
  }

  lemma LastIfComplete(t: Tree)
    requires Streamed(t)
    ensures !t.partial ==> LastClosers(t.children) == ""
  {
    if !t.partial {
      LastHasNone(t);
    }
  }

  predicate Closing(s: string) {
    forall i :: 0 <= i < |s| ==> s[i] == '"' || s[i] == ':' || s[i] == ']' || s[i] == '}'
  }

  lemma ClosingBoth(a: string, b: string)
    requires Closing(a) && Closing(b)
    ensures Closing(a + b)
  {
  }

  /** These are quotes, colons behind them, and brackets. */
  lemma {:induction false} ClosersClose(t: Tree)
    ensures Closing(Closers(t))
    decreases t
  {
    hide Closing;
    ClosingMarks();
    var last := LastClosers(t.children);
    if t.children != [] {
      ClosersClose(t.children[|t.children| - 1]);
    }
    ClosingBoth(last, if t.partial then "]" else "");
    ClosingBoth(last, if t.partial then "}" else "");
  }

  lemma ClosingMarks()
    ensures Closing("") && Closing("\"") && Closing("\":") && Closing("]") && Closing("}")
  {
  }

  /** So while a value is being received its text and the closing marks are, once they make up a tree of the value,
      the value's serialisation. */
  lemma StreamedText(t: Tree, v: Json)
    requires Streamed(t) && Parses(Closed(t), v) && Missing(Closed(t)) == 0
    ensures ToJson(t) + Closers(t) == Serialize(v)
  {
    PrintsClosed(t);
    PrintsExactly(Closed(t), v);
  }

  // ---------------------------------------------------------------------
  // Every value has a tree

  function Leaf(rule: Rule, text: string): Tree {
    Tree(rule, text, false, [])
  }

  function Node(rule: Rule, children: seq<Tree>): Tree {
    Tree(rule, " ", false, children)
  }

  function KeyTree(name: string): Tree {
    Node(DictKeyRule, [Leaf(DictKeyNameRule, name)])
  }

  function TreeOf(v: Json): Tree
    decreases v
  {
    match v
    case Token(text) => Node(ValueRule, [Leaf(NumberRule, text)])
    case Str(s) => Node(ValueRule, [Node(StringRule, [Leaf(StringContentRule, s)])])
    case Arr(vs) => Node(ValueRule, [Node(ArrayRule, seq(|vs|, i requires 0 <= i < |vs| => TreeOf(vs[i])))])
    case Obj(ms) => Node(ValueRule, [Node(DictRule, seq(|ms|, i requires 0 <= i < |ms| =>
        Node(DictKvRule, [KeyTree(ms[i].key), TreeOf(ms[i].value)])))])
  }

  lemma {:induction false} NoneMissing(ts: seq<Tree>)
    requires forall i :: 0 <= i < |ts| ==> Missing(ts[i]) == 0
    ensures MissingIn(ts) == 0
  {
    if ts != [] {
      NoneMissing(ts[..|ts| - 1]);
    }
  }

  /** A complete tree that prints the value whole. */
  ghost predicate Whole(t: Tree, v: Json) {
    Parses(t, v) && Complete(t) && Missing(t) == 0
  }

  lemma PairWhole(name: string, t: Tree, m: Member, v: Json)
    requires m.key == name && m.value == v && Whole(t, v)
    ensures var p := Node(DictKvRule, [KeyTree(name), t]); ParsesMember(p, m) && Complete(p) && Missing(p) == 0
  {
    hide Parses;
    var ts := [KeyTree(name), t];
    assert Complete(ts[0]);
    assert forall i :: 0 <= i < 2 ==> Missing(ts[i]) == 0;
    NoneMissing(ts);
  }

  lemma LeavesWhole(v: Json)
    requires WellFormed(v) && (v.Token? || v.Str?)
    ensures Whole(TreeOf(v), v)
  {
    var t := TreeOf(v).children[0];
    assert v.Str? ==> Complete(t.children[0]);
  }

  lemma ItemsWhole(ts: seq<Tree>, vs: seq<Json>)
    requires |ts| == |vs| && forall i :: 0 <= i < |vs| ==> Whole(ts[i], vs[i])
    ensures Whole(Node(ValueRule, [Node(ArrayRule, ts)]), Arr(vs))
  {
    NoneMissing(ts);
    assert Complete(Node(ArrayRule, ts));
  }

  lemma MembersWhole(ts: seq<Tree>, ms: seq<Member>)
    requires |ts| == |ms| && forall i :: 0 <= i < |ms| ==> ParsesMember(ts[i], ms[i]) && Complete(ts[i]) && Missing(ts[i]) == 0
    ensures Whole(Node(ValueRule, [Node(DictRule, ts)]), Obj(ms))
  {
    NoneMissing(ts);
    assert Complete(Node(DictRule, ts));
  }

  /** For every value there is a complete tree that prints it whole. */
  lemma {:induction false} TreeIsWhole(v: Json)
    requires WellFormed(v)
    ensures Whole(TreeOf(v), v)
    decreases v
  {
    hide Whole, ParsesMember, Complete, Missing;
    match v
    case Arr(vs) =>
      var ts := TreeOf(v).children[0].children;
      forall i | 0 <= i < |vs| ensures Whole(ts[i], vs[i]) {
        TreeIsWhole(vs[i]);
      }
      ItemsWhole(ts, vs);
    case Obj(ms) =>
      var ts := TreeOf(v).children[0].children;
      forall i | 0 <= i < |ms| ensures ParsesMember(ts[i], ms[i]) && Complete(ts[i]) && Missing(ts[i]) == 0 {
        TreeIsWhole(ms[i].value);
        PairWhole(ms[i].key, TreeOf(ms[i].value), ms[i], ms[i].value);
      }
      MembersWhole(ts, ms);
    case _ =>
      LeavesWhole(v);
  }
}
