/** What a reply's message says, told from its nodes alone. */
module ChatTexts {
  import opened Basics
  import opened ChatMapper

  /** The texts of the nodes with one tag, in order. */
  function Texts(nodes: seq<Node>, tag: Tag): seq<string> {
    if nodes == [] then []
    else
      var n := |nodes| - 1;
      Texts(nodes[..n], tag) + if nodes[n].tag == tag then [nodes[n].text] else []
  }

  lemma {:induction false} JoinSnoc(pieces: seq<string>, s: string)
    ensures Join(pieces + [s]) == Join(pieces) + s
    decreases |pieces|
  {
    if pieces == [] {
      assert [] + [s] == [s] && [s][1..] == [];
    } else {
      assert (pieces + [s])[1..] == pieces[1..] + [s];
      JoinSnoc(pieces[1..], s);
    }
  }

  lemma NodeTexts(st: State, node: Node)
    ensures MapNode(st, node).msg.content == st.msg.content + if node.tag == Content then node.text else ""
    ensures MapNode(st, node).msg.reasoning == st.msg.reasoning + if node.tag == Reasoning then node.text else ""
  {
    assert st.msg.content + "" == st.msg.content && st.msg.reasoning + "" == st.msg.reasoning;
  }

  lemma TextsSnoc(nodes: seq<Node>, tag: Tag)
    requires nodes != []
    ensures Join(Texts(nodes, tag))
         == Join(Texts(nodes[..|nodes| - 1], tag)) + if nodes[|nodes| - 1].tag == tag then nodes[|nodes| - 1].text else ""
  {
    var n := |nodes| - 1;
    var front := Texts(nodes[..n], tag);
    if nodes[n].tag == tag {
      JoinSnoc(front, nodes[n].text);
    } else {
      assert front + [] == front && Join(front) + "" == Join(front);
    }
  }

  /** After any nodes the content is the texts of the content nodes, the reasoning those of the reasoning
      nodes. */
  lemma {:induction false} RunTexts(nodes: seq<Node>)
    ensures Run(nodes).msg.content == Join(Texts(nodes, Content))
    ensures Run(nodes).msg.reasoning == Join(Texts(nodes, Reasoning))
    decreases |nodes|
  {
    hide MapNode, Texts;
    if nodes == [] {
      NoTexts(Content);
      NoTexts(Reasoning);
    } else {
      var n := |nodes| - 1;
      RunTexts(nodes[..n]);
      NodeTexts(Run(nodes[..n]), nodes[n]);
      TextsSnoc(nodes, Content);
      TextsSnoc(nodes, Reasoning);
    }
  }

  lemma NoTexts(tag: Tag)
    ensures Join(Texts([], tag)) == ""
  {
  }

  /** So is the finished message's, but that reasoning of blanks alone is dropped. */
  lemma MessageTexts(nodes: seq<Node>, thoughts: string)
    requires thoughts == Join(Texts(nodes, Reasoning))
    ensures FromAst(nodes).content == Join(Texts(nodes, Content))
    ensures FromAst(nodes).reasoning == if forall i :: 0 <= i < |thoughts| ==> thoughts[i] in " \n\r\t" then "" else thoughts
  {
    RunTexts(nodes);
  }
}
