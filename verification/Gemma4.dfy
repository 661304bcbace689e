/** Gemma 4 tool arguments: printing a parsed value tree, complete or still being received, as JSON. */
module Gemma4 {
  import opened Basics
  import opened JsonText
  import opened JsonValue

  datatype Rule =
    | NumberRule | BoolRule | NullRule | StringContentRule | StringRule | ArrayRule
    | DictKeyNameRule | DictKeyRule | DictKvRule | DictRule | ValueRule | OtherRule

  datatype Tree = Tree(rule: Rule, text: string, partial: bool, children: seq<Tree>)

  // ---------------------------------------------------------------------
  // Printing

  function ToJson(t: Tree): string
    decreases t, 1
  {
    if t.text == "" then ""
    else match t.rule
      case NumberRule => t.text
      case BoolRule => t.text
      case NullRule => t.text
      case StringContentRule => Escape(t.text)
      case StringRule =>
        if t.children == [] then "\""
        else "\"" + ToJson(t.children[0]) + (if t.partial then "" else "\"")
      case ArrayRule => "[" + Joined(t.children) + (if t.partial then "" else "]")
      case DictKeyNameRule => t.text
      case DictKeyRule =>
        "\"" + (if t.children == [] then "" else Escape(ToJson(t.children[0]))) + (if t.partial then "" else "\":")
      case DictKvRule => Concatenated(t.children)
      case DictRule => "{" + Joined(t.children) + (if t.partial then "" else "}")
      case ValueRule => if t.children == [] then "" else ToJson(t.children[0])
      case OtherRule => ""
  }

  /** The printed children with a comma between each two. */
  function Joined(ts: seq<Tree>): string
    decreases ts, 0
  {
    if ts == [] then ""
    else if |ts| == 1 then ToJson(ts[0])
    else Joined(ts[..|ts| - 1]) + "," + ToJson(ts[|ts| - 1])
  }

  function Concatenated(ts: seq<Tree>): string
    decreases ts, 0
  {
    if ts == [] then "" else Concatenated(ts[..|ts| - 1]) + ToJson(ts[|ts| - 1])
  }

  /** The printer, child by child. */
  method Print(t: Tree) returns (json: string)
    ensures json == ToJson(t)
    decreases t
  {
    if t.text == "" {
      return "";
    }
    match t.rule
    case NumberRule => json := t.text;
    case BoolRule => json := t.text;
    case NullRule => json := t.text;
    case StringContentRule => json := Escape(t.text);
    case StringRule =>
      json := "\"";
      if t.children != [] {
        var inner := Print(t.children[0]);
        json := json + inner;
        if !t.partial {
          json := json + "\"";
        }
      }
    case ArrayRule =>
      var items := PrintJoined(t);
      json := "[" + items;
      if !t.partial {
        json := json + "]";
      }
    case DictKeyNameRule => json := t.text;
    case DictKeyRule =>
      json := "\"";
      if t.children != [] {
        var inner := Print(t.children[0]);
        json := json + Escape(inner);
      }
      if !t.partial {
        json := json + "\":";
      }
    case DictKvRule =>
      json := "";
      for i := 0 to |t.children|
        invariant json == Concatenated(t.children[..i])
      {
        var child := Print(t.children[i]);
        json := json + child;
        assert t.children[..i + 1][..i] == t.children[..i];
      }
      assert t.children[..|t.children|] == t.children;
    case DictRule =>
      var items := PrintJoined(t);
      json := "{" + items;
      if !t.partial {
        json := json + "}";
      }
    case ValueRule =>
      json := "";
      if t.children != [] {
        json := Print(t.children[0]);
      }
    case OtherRule => json := "";
  }

  method PrintJoined(t: Tree) returns (json: string)
    ensures json == Joined(t.children)
    decreases t, 0
  {
    json := "";
    var addComma := false;
    for i := 0 to |t.children|
      invariant json == Joined(t.children[..i])
      invariant addComma == (i > 0)
    {
      if addComma {
        json := json + ",";
      }
      addComma := true;
      var child := Print(t.children[i]);
      json := json + child;
      assert t.children[..i + 1][..i] == t.children[..i];
    }
    assert t.children[..|t.children|] == t.children;
  }

  // ---------------------------------------------------------------------
  // Complete trees

  /** `t` is a complete tree of the value `v`. In the trees that the grammar builds, a string node has
      its content child, for an empty string too; here it may be missing. */
  ghost predicate Parses(t: Tree, v: Json)
    decreases t, 1
  {
    && t.rule == ValueRule && t.text != "" && |t.children| == 1
    && var c := t.children[0];
       && c.text != "" && !c.partial
       && match v
          case Token(text) => (c.rule == NumberRule || c.rule == BoolRule || c.rule == NullRule) && c.text == text
          case Str(s) =>
            c.rule == StringRule
            && if c.children == [] then s == ""
               else c.children[0].rule == StringContentRule && c.children[0].text == s
          case Arr(vs) => c.rule == ArrayRule && ParsesItems(c.children, vs)
          case Obj(ms) => c.rule == DictRule && ParsesMembers(c.children, ms)
  }

  ghost predicate ParsesItems(ts: seq<Tree>, vs: seq<Json>)
    decreases ts, 0
  {
    |ts| == |vs| && forall i :: 0 <= i < |ts| ==> Parses(ts[i], vs[i])
  }

  /** A key, whose name is kept as it is written, and a value. */
  ghost predicate ParsesMember(t: Tree, m: Member)
    decreases t, 0
  {
    && t.rule == DictKvRule && t.text != "" && |t.children| == 2
    && IsKey(t.children[0], m.key)
    && Parses(t.children[1], m.value)
  }

  predicate IsKey(k: Tree, name: string) {
    && k.rule == DictKeyRule && k.text != "" && !k.partial && |k.children| == 1
    && k.children[0].rule == DictKeyNameRule && k.children[0].text == name
  }

  ghost predicate ParsesMembers(ts: seq<Tree>, ms: seq<Member>)
    decreases ts, 0
  {
    |ts| == |ms| && forall i :: 0 <= i < |ts| ==> ParsesMember(ts[i], ms[i])
  }

  /** The number of string nodes without their content child. */
  function Missing(t: Tree): nat
    decreases t, 1
  {
    match t.rule
    case StringRule => if t.children == [] then 1 else 0
    case ArrayRule => MissingIn(t.children)
    case DictKvRule => MissingIn(t.children)
    case DictRule => MissingIn(t.children)
    case ValueRule => if t.children == [] then 0 else Missing(t.children[0])
    case _ => 0
  }

  function MissingIn(ts: seq<Tree>): nat
    decreases ts, 0
  {
    if ts == [] then 0 else MissingIn(ts[..|ts| - 1]) + Missing(ts[|ts| - 1])
  }

  /** What is printed is the serialisation of the value, but for one quote for each missing node. */
  predicate ShortBy(printed: string, whole: string, missing: nat) {
    |printed| + missing == |whole| && (missing == 0 ==> printed == whole)
  }

  lemma ShortTogether(a: string, x: string, m: nat, sep: string, b: string, y: string, n: nat)
    requires ShortBy(a, x, m) && ShortBy(b, y, n)
    ensures ShortBy(a + sep + b, x + sep + y, m + n)
  {
  }

  lemma ShortBetween(open: string, a: string, x: string, m: nat, end: string)
    requires ShortBy(a, x, m)
    ensures ShortBy(open + a + end, open + x + end, m)
  {
  }

  lemma {:induction false} PrintsShort(t: Tree, v: Json)
    requires Parses(t, v)
    ensures ShortBy(ToJson(t), Serialize(v), Missing(t))
    decreases t, 1
  {
    var c := t.children[0];
    assert ToJson(t) == ToJson(c) && Missing(t) == Missing(c);
    match v
    case Token(_) =>
    case Str(s) =>
      if c.children != [] {
        assert ToJson(c.children[0]) == Escape(s);
      }
    case Arr(vs) =>
      PrintsItems(c.children, vs);
      ShortBetween("[", Joined(c.children), SerializeItems(vs), MissingIn(c.children), "]");
    case Obj(ms) =>
      PrintsMembers(c.children, ms);
      ShortBetween("{", Joined(c.children), SerializeMembers(ms), MissingIn(c.children), "}");
  }

  lemma {:induction false} PrintsItems(ts: seq<Tree>, vs: seq<Json>)
    requires ParsesItems(ts, vs)
    ensures ShortBy(Joined(ts), SerializeItems(vs), MissingIn(ts))
    decreases ts, 0
  {
    if ts != [] {
      var n := |ts| - 1;
      PrintsShort(ts[n], vs[n]);
      if n > 0 {
        PrintsItems(ts[..n], vs[..n]);
        ShortTogether(
          Joined(ts[..n]), SerializeItems(vs[..n]), MissingIn(ts[..n]), ",",
          ToJson(ts[n]), Serialize(vs[n]), Missing(ts[n]));
      }
    }
  }

  lemma PrintsKey(k: Tree, name: string)
    requires IsKey(k, name)
    ensures ToJson(k) == Quote(name) + ":"
  {
    assert ToJson(k.children[0]) == name;
    assert "\"" + Escape(name) + "\":" == Quote(name) + ":";
  }

  lemma {:induction false} PrintsMember(t: Tree, m: Member)
    requires ParsesMember(t, m)
    ensures ShortBy(ToJson(t), SerializeMember(m), Missing(t))
    decreases t, 0
  {
    var ts := t.children;
    PrintsKey(ts[0], m.key);
    PrintsShort(ts[1], m.value);
    assert ts[..1][..0] == [];
    assert Concatenated(ts[..1]) == "" + ToJson(ts[0]);
    assert Concatenated(ts) == Concatenated(ts[..1]) + ToJson(ts[1]);
    assert MissingIn(ts[..1]) == 0;
  }

  lemma {:induction false} PrintsMembers(ts: seq<Tree>, ms: seq<Member>)
    requires ParsesMembers(ts, ms)
    ensures ShortBy(Joined(ts), SerializeMembers(ms), MissingIn(ts))
    decreases ts, 0
  {
    if ts != [] {
      var n := |ts| - 1;
      PrintsMember(ts[n], ms[n]);
      if n > 0 {
        PrintsMembers(ts[..n], ms[..n]);
        ShortTogether(
          Joined(ts[..n]), SerializeMembers(ms[..n]), MissingIn(ts[..n]), ",",
          ToJson(ts[n]), SerializeMember(ms[n]), Missing(ts[n]));
      }
    }
  }

  /** A complete tree is printed as the serialisation of its value if and only if every string node has
      its content child; otherwise a quote is missing for each that has none. */
  lemma PrintsExactly(t: Tree, v: Json)
    requires Parses(t, v)
    ensures ToJson(t) == Serialize(v) <==> Missing(t) == 0
    ensures |ToJson(t)| == |Serialize(v)| - Missing(t)
  {
    PrintsShort(t, v);
  }

  /** A complete tree is printed as JSON text that a reader turns back into its value,
      with every brace closed. */
  lemma CompleteTree(t: Tree, v: Json)
    requires Parses(t, v) && Missing(t) == 0 && WellFormed(v)
    ensures ReadValue(ToJson(t)) == Some((v, ""))
    ensures BraceDepth(ToJson(t)) == 0
  {
    PrintsExactly(t, v);
    ReadSerialized(v, "");
    assert Serialize(v) + "" == Serialize(v);
    SerializeBalanced(0, v);
  }

  // ---------------------------------------------------------------------
  // Trees still being received

  /** `t` continues `s`: a partial node may get more text and more children, and only the last
      child it has may itself be partial. */
  predicate Continues(s: Tree, t: Tree)
    decreases s
  {
    || s == t
    || (&& s.partial
        && s.rule == t.rule && s.text <= t.text
        && |s.children| <= |t.children|
        && (forall i :: 0 <= i < |s.children| - 1 ==> s.children[i] == t.children[i])
        && (s.children != [] ==> Continues(s.children[|s.children| - 1], t.children[|s.children| - 1])))
  }

  lemma {:induction false} JoinedPrefix(ts: seq<Tree>, k: nat)
    requires 0 < k <= |ts|
    ensures Joined(ts[..k]) <= Joined(ts)
    decreases |ts|
  {
    if k < |ts| {
      var n := |ts| - 1;
      JoinedPrefix(ts[..n], k);
      assert ts[..n][..k] == ts[..k];
    } else {
      assert ts[..k] == ts;
    }
  }

  lemma {:induction false} ConcatenatedPrefix(ts: seq<Tree>, k: nat)
    requires k <= |ts|
    ensures Concatenated(ts[..k]) <= Concatenated(ts)
    decreases |ts|
  {
    if k < |ts| {
      var n := |ts| - 1;
      ConcatenatedPrefix(ts[..n], k);
      assert ts[..n][..k] == ts[..k];
    } else {
      assert ts[..k] == ts;
    }
  }

  /** Replacing the last of `k` children by a longer one, then adding children. */
  lemma JoinedGrows(ss: seq<Tree>, ts: seq<Tree>)
    requires |ss| <= |ts| && (forall i :: 0 <= i < |ss| - 1 ==> ss[i] == ts[i])
    requires ss != [] ==> ToJson(ss[|ss| - 1]) <= ToJson(ts[|ss| - 1])
    ensures Joined(ss) <= Joined(ts)
  {
    if ss != [] {
      var n := |ss| - 1;
      var us := ts[..n + 1];
      JoinedPrefix(ts, n + 1);
      assert us[..n] == ss[..n] && us[n] == ts[n];
      assert n == 0 ==> Joined(us) == ToJson(us[0]) && Joined(ss) == ToJson(ss[0]);
      if n > 0 {
        assert Joined(us) == Joined(ss[..n]) + "," + ToJson(ts[n]);
        AppendPrefix(Joined(ss[..n]) + ",", ToJson(ss[n]), ToJson(ts[n]));
      }
    }
  }

  lemma ConcatenatedLast(us: seq<Tree>, front: seq<Tree>, last: Tree)
    requires us == front + [last]
    ensures Concatenated(us) == Concatenated(front) + ToJson(last)
  {
    assert us[..|us| - 1] == front;
  }

  /** The children up to the last of `ss`, in both lists. */
  lemma SameFront(ss: seq<Tree>, ts: seq<Tree>, n: nat)
    requires |ss| == n + 1 <= |ts| && (forall i :: 0 <= i < n ==> ss[i] == ts[i])
    ensures ss == ss[..n] + [ss[n]] && ts[..n + 1] == ss[..n] + [ts[n]]
  {
  }

  lemma ConcatenatedLonger(front: seq<Tree>, s: Tree, t: Tree)
    requires ToJson(s) <= ToJson(t)
    ensures Concatenated(front + [s]) <= Concatenated(front + [t])
  {
    ConcatenatedLast(front + [s], front, s);
    ConcatenatedLast(front + [t], front, t);
    AppendPrefix(Concatenated(front), ToJson(s), ToJson(t));
  }

  lemma PrefixOfPrefix(a: string, b: string, c: string)
    requires a <= b && b <= c
    ensures a <= c
  {
  }

  lemma ConcatenatedGrows(ss: seq<Tree>, ts: seq<Tree>)
    requires |ss| <= |ts| && (forall i :: 0 <= i < |ss| - 1 ==> ss[i] == ts[i])
    requires ss != [] ==> ToJson(ss[|ss| - 1]) <= ToJson(ts[|ss| - 1])
    ensures Concatenated(ss) <= Concatenated(ts)
  {
    if ss != [] {
      var n := |ss| - 1;
      SameFront(ss, ts, n);
      ConcatenatedLonger(ss[..n], ss[n], ts[n]);
      ConcatenatedPrefix(ts, n + 1);
      PrefixOfPrefix(Concatenated(ss), Concatenated(ts[..n + 1]), Concatenated(ts));
    }
  }

  lemma AppendPrefix(a: string, x: string, y: string)
    requires x <= y
    ensures a + x <= a + y
  {
  }

  lemma Enclosed(open: string, x: string, y: string, end: string)
    requires x <= y
    ensures open + x + "" <= open + y + end
  {
  }

  /** Only the first child counts for strings, keys and values. */
  lemma FirstChild(s: Tree, t: Tree)
    requires s.children != [] && |s.children| <= |t.children|
    requires forall i :: 0 <= i < |s.children| - 1 ==> s.children[i] == t.children[i]
    requires ToJson(s.children[|s.children| - 1]) <= ToJson(t.children[|s.children| - 1])
    ensures ToJson(s.children[0]) <= ToJson(t.children[0])
  {
  }

  lemma StringGrows(s: Tree, t: Tree)
    requires s.partial && s.rule == t.rule == StringRule && s.text != "" && t.text != ""
    requires |s.children| <= |t.children|
    requires s.children != [] ==> ToJson(s.children[0]) <= ToJson(t.children[0])
    ensures ToJson(s) <= ToJson(t)
  {
    if s.children != [] {
      Enclosed("\"", ToJson(s.children[0]), ToJson(t.children[0]), if t.partial then "" else "\"");
    }
  }

  lemma KeyGrows(s: Tree, t: Tree)
    requires s.partial && s.rule == t.rule == DictKeyRule && s.text != "" && t.text != ""
    requires |s.children| <= |t.children|
    requires s.children != [] ==> ToJson(s.children[0]) <= ToJson(t.children[0])
    ensures ToJson(s) <= ToJson(t)
  {
    var end := if t.partial then "" else "\":";
    var x := if s.children == [] then "" else Escape(ToJson(s.children[0]));
    var y := if t.children == [] then "" else Escape(ToJson(t.children[0]));
    if s.children != [] {
      EscapePrefix(ToJson(s.children[0]), ToJson(t.children[0]));
    }
    Enclosed("\"", x, y, end);
  }

  lemma ListGrows(s: Tree, t: Tree)
    requires s.partial && s.rule == t.rule && (s.rule == ArrayRule || s.rule == DictRule)
    requires s.text != "" && t.text != "" && Joined(s.children) <= Joined(t.children)
    ensures ToJson(s) <= ToJson(t)
  {
    var open := if s.rule == ArrayRule then "[" else "{";
    var end := if t.partial then "" else if s.rule == ArrayRule then "]" else "}";
    Enclosed(open, Joined(s.children), Joined(t.children), end);
  }

  /** What is printed for a tree is a prefix of what is printed for anything it can become. */
  lemma {:induction false} PartialTree(s: Tree, t: Tree)
    requires Continues(s, t)
    ensures ToJson(s) <= ToJson(t)
    decreases s
  {
    if s != t && s.text != "" {
      assert t.text != "";
      if s.children != [] {
        PartialTree(s.children[|s.children| - 1], t.children[|s.children| - 1]);
        FirstChild(s, t);
      }
      match s.rule
      case StringRule => StringGrows(s, t);
      case DictKeyRule => KeyGrows(s, t);
      case ArrayRule =>
        JoinedGrows(s.children, t.children);
        ListGrows(s, t);
      case DictRule =>
        JoinedGrows(s.children, t.children);
        ListGrows(s, t);
      case DictKvRule => ConcatenatedGrows(s.children, t.children);
      case StringContentRule => EscapePrefix(s.text, t.text);
      case _ =>
    }
  }
}
