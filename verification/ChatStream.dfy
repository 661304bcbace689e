/** A streamed reply: the message of every snapshot is given stable call ids and sent as deltas. */
module ChatStream {
  import opened ChatMapper
  import opened ChatGrowth
  import opened ChatDiff

  /** The id generator, by the position of the call that asks for an id. */
  type Generator = nat -> string

  // ---------------------------------------------------------------------
  // Call ids

  function NewId(calls: seq<ToolCall>, i: nat, gen: Generator): string
    requires i < |calls|
  {
    if calls[i].id == "" then gen(i) else calls[i].id
  }

  /** The cache, with an id for every call that had none. */
  function FillCache(calls: seq<ToolCall>, cache: seq<string>, gen: Generator): (r: seq<string>)
    ensures cache <= r && |calls| <= |r|
    ensures |r| == if |calls| <= |cache| then |cache| else |calls|
    ensures forall i :: |cache| <= i < |r| ==> r[i] == if calls[i].id == "" then gen(i) else calls[i].id
    decreases |calls| - |cache|
  {
    if |calls| <= |cache| then cache else FillCache(calls, cache + [NewId(calls, |cache|, gen)], gen)
  }

  function WithIds(calls: seq<ToolCall>, ids: seq<string>): (r: seq<ToolCall>)
    requires |calls| <= |ids|
    ensures |r| == |calls|
    ensures forall i :: 0 <= i < |calls| ==> r[i] == calls[i].(id := ids[i])
  {
    seq(|calls|, i requires 0 <= i < |calls| => calls[i].(id := ids[i]))
  }

  /** The loop that gives each call the id it was first seen with. */
  method SetToolCallIds(calls: seq<ToolCall>, cache: seq<string>, gen: Generator)
    returns (toolCalls: seq<ToolCall>, idsCache: seq<string>)
    ensures idsCache == FillCache(calls, cache, gen)
    ensures toolCalls == WithIds(calls, idsCache)
  {
    toolCalls, idsCache := calls, cache;
    var i := 0;
    while i < |toolCalls|
      invariant 0 <= i <= |toolCalls| == |calls|
      invariant FillCache(calls, cache, gen) == FillCache(calls, idsCache, gen)
      invariant i <= |idsCache|
      invariant i < |idsCache| ==> |idsCache| == |cache|
      invariant forall j :: 0 <= j < i ==> toolCalls[j] == calls[j].(id := idsCache[j])
      invariant forall j :: i <= j < |calls| ==> toolCalls[j] == calls[j]
    {
      if |idsCache| <= i {
        var id := toolCalls[i].id;
        if id == "" {
          id := gen(i);
        }
        idsCache := idsCache + [id];
      }
      toolCalls := toolCalls[i := toolCalls[i].(id := idsCache[i])];
      i := i + 1;
    }
    assert toolCalls == WithIds(calls, idsCache);
  }

  // ---------------------------------------------------------------------
  // The session

  datatype Session = Session(msg: Msg, ids: seq<string>)

  const START_SESSION := Session(EMPTY_MSG, [])

  /** The message of a snapshot with its ids, and the cache that now holds them. An empty message is
      ignored. */
  function Accept(s: Session, m: Msg, gen: Generator): Session {
    if m == EMPTY_MSG then s
    else
      var ids := FillCache(m.calls, s.ids, gen);
      Session(m.(calls := WithIds(m.calls, ids)), ids)
  }

  function Deltas(s: Session, m: Msg, gen: Generator): Result<seq<Diff>> {
    if m == EMPTY_MSG then Ok([]) else Diffs(s.msg, Accept(s, m, gen).msg)
  }

  class Task {
    var chatMsg: Msg
    var generatedToolCallIds: seq<string>

    function View(): Session
      reads this
    {
      Session(chatMsg, generatedToolCallIds)
    }

    constructor ()
      ensures View() == START_SESSION
    {
      chatMsg := EMPTY_MSG;
      generatedToolCallIds := [];
    }

    /** Takes the next snapshot of the reply. */
    method UpdateChatMsg(nodes: seq<Node>, gen: Generator) returns (diffs: Result<seq<Diff>>)
      modifies this
      ensures View() == Accept(old(View()), FromAst(nodes), gen)
      ensures diffs == Deltas(old(View()), FromAst(nodes), gen)
    {
      diffs := Update(FromAst(nodes), gen);
    }

    method Update(message: Msg, gen: Generator) returns (diffs: Result<seq<Diff>>)
      modifies this
      ensures View() == Accept(old(View()), message, gen)
      ensures diffs == Deltas(old(View()), message, gen)
    {
      var previous := chatMsg;
      diffs := Ok([]);
      if message != EMPTY_MSG {
        var calls, ids := SetToolCallIds(message.calls, generatedToolCallIds, gen);
        generatedToolCallIds := ids;
        chatMsg := message.(calls := calls);
        diffs := ComputeDiffs(previous, chatMsg);
      }
    }
  }

  /** The session holds a message, with ids from its cache. */
  predicate Tracks(s: Session, m: Msg) {
    && |m.calls| <= |s.ids|
    && s.msg == m.(calls := WithIds(m.calls, s.ids))
  }

  /** The same growth, whatever ids the calls carry. */
  predicate TextGrows(a: Msg, b: Msg) {
    && a.content <= b.content && a.reasoning <= b.reasoning
    && |a.calls| <= |b.calls|
    && (forall i :: 0 <= i < |a.calls| - 1 ==>
          a.calls[i].name == b.calls[i].name && a.calls[i].arguments == b.calls[i].arguments)
    && (a.calls != [] ==> CallGrows(a.calls[|a.calls| - 1], b.calls[|a.calls| - 1]))
  }

  lemma GrowsText(a: Msg, b: Msg)
    requires Grows(a, b)
    ensures TextGrows(a, b)
  {
  }

  /** With ids from one growing cache, growth of the text is exactly what the deltas need. */
  lemma ExtendsExactly(a: Msg, b: Msg, ids: seq<string>, ids': seq<string>)
    requires |a.calls| <= |ids| && |b.calls| <= |ids'| && ids <= ids'
    ensures Extends(a.(calls := WithIds(a.calls, ids)), b.(calls := WithIds(b.calls, ids'))) <==> TextGrows(a, b)
  {
    var p, n := WithIds(a.calls, ids), WithIds(b.calls, ids');
    assert forall i :: 0 <= i < |a.calls| ==> ids[i] == ids'[i];
    if |a.calls| <= |b.calls| {
      forall i | 0 <= i < |a.calls|
        ensures p[i].id == n[i].id && p[i].name == a.calls[i].name && n[i].name == b.calls[i].name
        ensures p[i].arguments == a.calls[i].arguments && n[i].arguments == b.calls[i].arguments
      {
      }
    }
  }

  // ---------------------------------------------------------------------
  // One update

  /** The update succeeds and the client that has the old message then has the new one. */
  ghost predicate Delivers(s: Session, m: Msg, gen: Generator) {
    Deltas(s, m, gen).Ok? && ApplyAll(s.msg, Deltas(s, m, gen).value) == Accept(s, m, gen).msg
  }

  /** The message the server holds after the next one: an empty message is ignored. */
  function Held(before: Msg, m: Msg): Msg {
    if m == EMPTY_MSG then before else m
  }

  /** Whatever the message, the server then holds it with ids from a cache that only grew, and the
      update delivers it exactly when the text grows. */
  lemma UpdateExact(s: Session, before: Msg, m: Msg, gen: Generator)
    requires Tracks(s, before)
    ensures Tracks(Accept(s, m, gen), Held(before, m)) && s.ids <= Accept(s, m, gen).ids
    ensures Delivers(s, m, gen) <==> TextGrows(before, Held(before, m))
  {
    if m == EMPTY_MSG {
      TextItself(before);
    } else {
      var ids := FillCache(m.calls, s.ids, gen);
      ExtendsExactly(before, m, s.ids, ids);
      DiffsExact(s.msg, Accept(s, m, gen).msg);
    }
  }

  lemma TextItself(m: Msg)
    ensures TextGrows(m, m)
  {
  }

  // ---------------------------------------------------------------------
  // Whole runs

  datatype Streamed = Streamed(session: Session, deltas: seq<Diff>)

  function StreamNext(r: Streamed, m: Msg, gen: Generator): Result<Streamed> {
    match Deltas(r.session, m, gen)
    case Err(e) => Err(e)
    case Ok(ds) => Ok(Streamed(Accept(r.session, m, gen), r.deltas + ds))
  }

  /** The first `k` messages of a run: the session and all deltas in order. */
  function Stream(ms: seq<Msg>, k: nat, gen: Generator): Result<Streamed>
    requires k <= |ms|
  {
    if k == 0 then Ok(Streamed(START_SESSION, []))
    else match Stream(ms, k - 1, gen)
      case Err(e) => Err(e)
      case Ok(r) => StreamNext(r, ms[k - 1], gen)
  }

  /** The message the server holds after `k` messages. */
  function HeldAfter(ms: seq<Msg>, k: nat): Msg
    requires k <= |ms|
  {
    if k == 0 then EMPTY_MSG else Held(HeldAfter(ms, k - 1), ms[k - 1])
  }

  predicate HeldGrows(ms: seq<Msg>, k: nat)
    requires k < |ms|
  {
    TextGrows(HeldAfter(ms, k), Held(HeldAfter(ms, k), ms[k]))
  }

  /** Every message the server holds grows out of the one before it. */
  predicate Growing(ms: seq<Msg>) {
    forall k :: 0 <= k < |ms| ==> HeldGrows(ms, k)
  }

  /** The client that applied all deltas has the message the server holds. */
  ghost predicate Rebuilt(r: Streamed, m: Msg) {
    Tracks(r.session, m) && ApplyAll(EMPTY_MSG, r.deltas) == r.session.msg
  }

  /** No diff failed, and the client has the message the server holds. */
  ghost predicate InStep(ms: seq<Msg>, k: nat, gen: Generator)
    requires k <= |ms|
  {
    Stream(ms, k, gen).Ok? && Rebuilt(Stream(ms, k, gen).value, HeldAfter(ms, k))
  }

  /** While client and server are in step, the next message keeps them so exactly when the text grows. */
  lemma RebuiltNext(r: Streamed, before: Msg, m: Msg, gen: Generator)
    requires Rebuilt(r, before)
    ensures StreamNext(r, m, gen).Ok? && Rebuilt(StreamNext(r, m, gen).value, Held(before, m))
       <==> TextGrows(before, Held(before, m))
  {
    UpdateExact(r.session, before, m, gen);
    if Deltas(r.session, m, gen).Ok? {
      ApplyConcat(EMPTY_MSG, r.deltas, Deltas(r.session, m, gen).value);
    }
  }

  lemma InStepNext(ms: seq<Msg>, k: nat, gen: Generator)
    requires k < |ms| && InStep(ms, k, gen)
    ensures InStep(ms, k + 1, gen) <==> HeldGrows(ms, k)
  {
    RebuiltNext(Stream(ms, k, gen).value, HeldAfter(ms, k), ms[k], gen);
  }

  lemma InStepStart(ms: seq<Msg>, gen: Generator)
    ensures InStep(ms, 0, gen)
  {
    assert WithIds([], []) == [];
  }

  /** When the messages grow, client and server are in step after every one of them. */
  lemma {:induction false} StreamRebuilds(ms: seq<Msg>, k: nat, gen: Generator)
    requires Growing(ms) && k <= |ms|
    ensures InStep(ms, k, gen)
  {
    if k == 0 {
      InStepStart(ms, gen);
    } else {
      StreamRebuilds(ms, k - 1, gen);
      InStepNext(ms, k - 1, gen);
    }
  }

  /** For any messages whatever: no diff fails and the client has the server's message after every one
      of them, exactly when each message the server holds grows out of the one before it. */
  lemma StreamExact(ms: seq<Msg>, gen: Generator)
    ensures (forall k :: 0 <= k <= |ms| ==> InStep(ms, k, gen)) <==> Growing(ms)
  {
    if Growing(ms) {
      forall k | 0 <= k <= |ms| ensures InStep(ms, k, gen) {
        StreamRebuilds(ms, k, gen);
      }
    }
    if forall k :: 0 <= k <= |ms| ==> InStep(ms, k, gen) {
      forall k | 0 <= k < |ms| ensures HeldGrows(ms, k) {
        assert InStep(ms, k, gen) && InStep(ms, k + 1, gen);
        InStepNext(ms, k, gen);
      }
    }
  }

  // ---------------------------------------------------------------------
  // Nothing is taken back

  /** What a client has seen is never taken back: ids keep their place, finished calls are frozen
      and all text only gets longer. */
  predicate Continues(a: Streamed, b: Streamed) {
    && a.deltas <= b.deltas
    && a.session.ids <= b.session.ids
    && Grows(a.session.msg, b.session.msg)
    && (forall i :: 0 <= i < |a.session.msg.calls| ==> a.session.msg.calls[i].id == b.session.msg.calls[i].id)
  }

  lemma ContinuesTransitive(a: Streamed, b: Streamed, c: Streamed)
    requires Continues(a, b) && Continues(b, c)
    ensures Continues(a, c)
  {
    GrowsTransitive(a.session.msg, b.session.msg, c.session.msg);
  }

  lemma ContinuesItself(a: Streamed)
    ensures Continues(a, a)
  {
  }

  /** Two sessions that hold growing messages with ids from one cache. */
  lemma TrackedGrowth(s: Session, m: Msg, s': Session, m': Msg)
    requires Tracks(s, m) && Tracks(s', m') && s.ids <= s'.ids && TextGrows(m, m')
    ensures Grows(s.msg, s'.msg)
    ensures forall i :: 0 <= i < |s.msg.calls| ==> s.msg.calls[i].id == s'.msg.calls[i].id
  {
    forall i | 0 <= i < |s.msg.calls| ensures s.msg.calls[i].id == s'.msg.calls[i].id {
      assert s.ids[i] == s'.ids[i];
    }
  }

  lemma StepContinues(r: Streamed, before: Msg, m: Msg, gen: Generator)
    requires Rebuilt(r, before) && StreamNext(r, m, gen).Ok? && TextGrows(before, Held(before, m))
    ensures Continues(r, StreamNext(r, m, gen).value)
  {
    UpdateExact(r.session, before, m, gen);
    TrackedGrowth(r.session, before, Accept(r.session, m, gen), Held(before, m));
  }

  lemma RunStep(ms: seq<Msg>, k: nat, gen: Generator)
    requires Growing(ms) && k < |ms|
    ensures Stream(ms, k, gen).Ok? && Stream(ms, k + 1, gen).Ok?
    ensures Continues(Stream(ms, k, gen).value, Stream(ms, k + 1, gen).value)
  {
    StreamRebuilds(ms, k, gen);
    StreamRebuilds(ms, k + 1, gen);
    assert HeldGrows(ms, k);
    StepContinues(Stream(ms, k, gen).value, HeldAfter(ms, k), ms[k], gen);
  }

  predicate ContinuesAt(states: seq<Streamed>, i: nat)
    requires i + 1 < |states|
  {
    Continues(states[i], states[i + 1])
  }

  lemma {:induction false} ContinuesChain(states: seq<Streamed>, j: nat, k: nat)
    requires j <= k < |states| && forall i :: 0 <= i < |states| - 1 ==> ContinuesAt(states, i)
    ensures Continues(states[j], states[k])
    decreases k
  {
    if j == k {
      ContinuesItself(states[j]);
    } else {
      ContinuesChain(states, j, k - 1);
      assert ContinuesAt(states, k - 1);
      ContinuesTransitive(states[j], states[k - 1], states[k]);
    }
  }

  /** The states of a growing run, one after every message. */
  ghost function States(ms: seq<Msg>, gen: Generator): (states: seq<Streamed>)
    requires Growing(ms)
    ensures |states| == |ms| + 1 && forall k :: 0 <= k <= |ms| ==> Stream(ms, k, gen) == Ok(states[k])
  {
    assert forall k :: 0 <= k <= |ms| ==> Stream(ms, k, gen).Ok? by {
      forall k | 0 <= k <= |ms| ensures Stream(ms, k, gen).Ok? {
        StreamRebuilds(ms, k, gen);
      }
    }
    seq(|ms| + 1, k requires 0 <= k <= |ms| => Stream(ms, k, gen).value)
  }

  /** From any point of a growing run to any later one the stream only continues. */
  lemma StreamOnlyGrows(ms: seq<Msg>, j: nat, k: nat, gen: Generator)
    requires Growing(ms) && j <= k <= |ms|
    ensures Stream(ms, j, gen).Ok? && Stream(ms, k, gen).Ok?
    ensures Continues(Stream(ms, j, gen).value, Stream(ms, k, gen).value)
  {
    var states := States(ms, gen);
    forall i | 0 <= i < |states| - 1 ensures ContinuesAt(states, i) {
      RunStep(ms, i, gen);
    }
    ContinuesChain(states, j, k);
  }
}
