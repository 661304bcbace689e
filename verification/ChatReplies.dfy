/** Streams of the messages mapped from successive snapshots of one reply. */
module ChatReplies {
  import opened ChatMapper
  import opened ChatGrowth
  import opened ChatCuts
  import opened ChatStream

  /** The messages of the snapshots. */
  function Messages(snapshots: seq<seq<Node>>): (ms: seq<Msg>)
    ensures |ms| == |snapshots| && forall i :: 0 <= i < |ms| ==> ms[i] == FromAst(snapshots[i])
  {
    seq(|snapshots|, i requires 0 <= i < |snapshots| => FromAst(snapshots[i]))
  }

  // ---------------------------------------------------------------------
  // Messages that grow one by one

  predicate GrowsAt(ms: seq<Msg>, i: nat)
    requires i + 1 < |ms|
  {
    Grows(ms[i], ms[i + 1])
  }

  lemma EmptyGrows(m: Msg)
    ensures TextGrows(EMPTY_MSG, m)
  {
  }

  lemma GrowsIntoEmpty(m: Msg)
    requires Grows(m, EMPTY_MSG)
    ensures m == EMPTY_MSG
  {
  }

  /** A message that only grew does not become empty again, so the server holds the last one. */
  lemma {:induction false} LastHeld(ms: seq<Msg>, k: nat)
    requires k < |ms| && forall i :: 0 <= i < |ms| - 1 ==> GrowsAt(ms, i)
    ensures HeldAfter(ms, k + 1) == ms[k]
    decreases k
  {
    if k > 0 {
      LastHeld(ms, k - 1);
      assert GrowsAt(ms, k - 1);
      if ms[k] == EMPTY_MSG {
        GrowsIntoEmpty(ms[k - 1]);
      }
    }
  }

  lemma SteadyGrowing(ms: seq<Msg>)
    requires forall i :: 0 <= i < |ms| - 1 ==> GrowsAt(ms, i)
    ensures Growing(ms)
  {
    forall k | 0 <= k < |ms| ensures HeldGrows(ms, k) {
      LastHeld(ms, k);
      if k == 0 {
        EmptyGrows(ms[0]);
      } else {
        LastHeld(ms, k - 1);
        assert GrowsAt(ms, k - 1);
        GrowsText(ms[k - 1], ms[k]);
      }
    }
  }

  // ---------------------------------------------------------------------
  // Snapshots cut short

  /** Snapshot `i` is the next one cut short. */
  ghost predicate CutAt(snapshots: seq<seq<Node>>, i: nat)
    requires i + 1 < |snapshots|
  {
    CutShort(snapshots[i], snapshots[i + 1])
  }

  /** Each snapshot is the next one cut short. */
  ghost predicate Cuts(snapshots: seq<seq<Node>>) {
    forall i :: 0 <= i < |snapshots| - 1 ==> CutAt(snapshots, i)
  }

  /** Snapshots of a reply stream when none of them replaces visible text. */
  lemma ReplyStreams(snapshots: seq<seq<Node>>)
    requires Cuts(snapshots) && forall i :: 0 <= i < |snapshots| ==> NeverClobbers(snapshots[i])
    ensures Growing(Messages(snapshots))
  {
    var ms := Messages(snapshots);
    forall i | 0 <= i < |ms| - 1 ensures GrowsAt(ms, i) {
      assert CutAt(snapshots, i);
      SnapshotGrows(snapshots[i], snapshots[i + 1]);
    }
    SteadyGrowing(ms);
  }

  lemma {:induction false} AllStreamable(snapshots: seq<seq<Node>>, i: nat)
    requires Cuts(snapshots) && i < |snapshots| && Streamable(snapshots[|snapshots| - 1])
    ensures Streamable(snapshots[i])
    decreases |snapshots| - i
  {
    if i + 1 < |snapshots| {
      assert CutAt(snapshots, i);
      AllStreamable(snapshots, i + 1);
      StreamableCut(snapshots[i], snapshots[i + 1]);
    }
  }

  /** By the tags alone: a streamable reply can be cut wherever a node is cuttable. */
  lemma StreamableReply(snapshots: seq<seq<Node>>)
    requires Cuts(snapshots) && snapshots != [] && Streamable(snapshots[|snapshots| - 1])
    ensures Growing(Messages(snapshots))
    ensures forall i :: 0 <= i < |snapshots| ==> NeverClobbers(snapshots[i]) && NeverDangles(snapshots[i])
  {
    forall i | 0 <= i < |snapshots| ensures NeverClobbers(snapshots[i]) && NeverDangles(snapshots[i]) {
      AllStreamable(snapshots, i);
      StreamableSteady(snapshots[i]);
    }
    ReplyStreams(snapshots);
  }

  // ---------------------------------------------------------------------
  // A snapshot after every node

  function Prefixes(nodes: seq<Node>): (s: seq<seq<Node>>)
    ensures |s| == |nodes| + 1 && forall i :: 0 <= i <= |nodes| ==> s[i] == nodes[..i]
  {
    seq(|nodes| + 1, i requires 0 <= i <= |nodes| => nodes[..i])
  }

  lemma PrefixesGrowing(nodes: seq<Node>)
    requires NeverClobbers(nodes)
    ensures Growing(Messages(Prefixes(nodes)))
  {
    var ms := Messages(Prefixes(nodes));
    forall i | 0 <= i < |ms| - 1 ensures GrowsAt(ms, i) {
      PrefixGrowsFrom(nodes, i, i + 1);
    }
    SteadyGrowing(ms);
  }

  lemma NodeText(st: State, node: Node)
    requires Valid(st)
    ensures st.msg.content <= MapNode(st, node).msg.content && st.msg.reasoning <= MapNode(st, node).msg.reasoning
  {
  }

  lemma NodeCalls(st: State, node: Node)
    requires Valid(st)
    ensures var a, b := st.msg.calls, MapNode(st, node).msg.calls;
      |a| <= |b| && forall i :: 0 <= i < |a| - 1 ==> a[i] == b[i]
  {
  }

  /** One message comes after another: all calls but the last are the same, and a text that was not
      empty is not emptied. */
  predicate Follows(a: Msg, b: Msg) {
    && (b == EMPTY_MSG ==> a == EMPTY_MSG)
    && |a.calls| <= |b.calls| && (forall i :: 0 <= i < |a.calls| - 1 ==> a.calls[i] == b.calls[i])
  }

  lemma FinishFollows(a: State, b: State)
    requires Valid(a) && Valid(b)
    requires a.msg.content <= b.msg.content && a.msg.reasoning <= b.msg.reasoning
    requires |a.msg.calls| <= |b.msg.calls|
    requires forall i :: 0 <= i < |a.msg.calls| - 1 ==> a.msg.calls[i] == b.msg.calls[i]
    ensures Follows(Finish(a), Finish(b))
  {
    BlankPrefix(a.msg.reasoning, b.msg.reasoning);
  }

  lemma PrefixFollows(nodes: seq<Node>, k: nat)
    requires k < |nodes|
    ensures Follows(FromAst(nodes[..k]), FromAst(nodes[..k + 1]))
  {
    var st := Run(nodes[..k]);
    RunValid(nodes[..k]);
    MapNodeValid(st, nodes[k]);
    NodeText(st, nodes[k]);
    NodeCalls(st, nodes[k]);
    FinishFollows(st, MapNode(st, nodes[k]));
    assert nodes[..k + 1][..k] == nodes[..k];
  }

  predicate FollowsAt(ms: seq<Msg>, i: nat)
    requires i + 1 < |ms|
  {
    Follows(ms[i], ms[i + 1])
  }

  lemma {:induction false} FollowingHeld(ms: seq<Msg>, k: nat)
    requires k < |ms| && forall i :: 0 <= i < |ms| - 1 ==> FollowsAt(ms, i)
    ensures HeldAfter(ms, k + 1) == ms[k]
    decreases k
  {
    if k > 0 {
      FollowingHeld(ms, k - 1);
      assert FollowsAt(ms, k - 1);
    }
  }

  lemma TextGrowth(a: Msg, b: Msg)
    requires TextGrows(a, b) && Follows(a, b)
    ensures Grows(a, b)
  {
  }

  lemma GrowingPrefix(nodes: seq<Node>, ms: seq<Msg>, k: nat)
    requires ms == Messages(Prefixes(nodes)) && k < |nodes| && Growing(ms)
    requires forall i :: 0 <= i < |ms| - 1 ==> FollowsAt(ms, i)
    ensures Grows(FromAst(nodes[..k]), FromAst(nodes[..k + 1]))
  {
    FollowingHeld(ms, k);
    FollowingHeld(ms, k + 1);
    assert FollowsAt(ms, k) && HeldGrows(ms, k + 1);
    TextGrowth(ms[k], ms[k + 1]);
  }

  /** With a snapshot after every node, client and server stay in step exactly when no node of the
      reply replaces visible text. */
  lemma PrefixStreamExact(nodes: seq<Node>, gen: Generator)
    ensures var ms := Messages(Prefixes(nodes));
      (forall k :: 0 <= k <= |ms| ==> InStep(ms, k, gen)) <==> NeverClobbers(nodes)
  {
    var ms := Messages(Prefixes(nodes));
    StreamExact(ms, gen);
    if NeverClobbers(nodes) {
      PrefixesGrowing(nodes);
    }
    if Growing(ms) {
      forall i | 0 <= i < |ms| - 1 ensures FollowsAt(ms, i) {
        PrefixFollows(nodes, i);
      }
      forall k | 0 <= k < |nodes| ensures !Clobbers(Run(nodes[..k]), nodes[k]) {
        GrowingPrefix(nodes, ms, k);
        LastNodeGrows(nodes, k);
      }
    }
  }
}
