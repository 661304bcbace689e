/** The server's handling of stop words while text is generated token by token. */
module StopWords {

  import opened Basics
  import opened PartialStop

  // ---------------------------------------------------------------------
  // Searching for all stop words

  /** `std::string::find`. */
  function FirstOccurrence(s: string, w: string, from: nat): (r: Option<nat>)
    ensures r.Some? ==> from <= r.value && Occurs(s, r.value, w)
    decreases |s| - from
  {
    if from + |w| > |s| then None
    else if Occurs(s, from, w) then Some(from)
    else FirstOccurrence(s, w, from + 1)
  }

  lemma {:induction false} FirstOccurrenceIsFirst(s: string, w: string, from: nat, q: nat)
    requires from <= q && Occurs(s, q, w)
    ensures FirstOccurrence(s, w, from).Some? && FirstOccurrence(s, w, from).value <= q
    decreases |s| - from
  {
    if from < q {
      FirstOccurrenceIsFirst(s, w, from + 1, q);
    }
  }

  /** Where the search for a whole word starts: only what the last token can have completed. */
  function Window(n: nat, w: string, last: nat): nat {
    if n > |w| + last then n - (|w| + last) else 0
  }

  function Sooner(a: Option<nat>, b: Option<nat>): Option<nat> {
    if b.Some? && (a.None? || b.value < a.value) then b else a
  }

  function SearchOne(s: string, w: string, last: nat, full: bool): Option<nat> {
    if full then FirstOccurrence(s, w, Window(|s|, w, last)) else FirstBegun(s, w, 0)
  }

  /** The earliest find over all words. */
  function Search(s: string, words: seq<string>, last: nat, full: bool): Option<nat> {
    if words == [] then None
    else Sooner(Search(s, words[..|words| - 1], last, full), SearchOne(s, words[|words| - 1], last, full))
  }

  method FindStoppingStrings(words: seq<string>, text: string, last: nat, full: bool)
    returns (stopPos: Option<nat>, stoppingWord: string)
    ensures stopPos == Search(text, words, last, full)
    ensures full && stopPos.Some? ==> stoppingWord in words && Occurs(text, stopPos.value, stoppingWord)
  {
    stopPos, stoppingWord := None, "";
    for i := 0 to |words|
      invariant stopPos == Search(text, words[..i], last, full)
      invariant full && stopPos.Some? ==> stoppingWord in words && Occurs(text, stopPos.value, stoppingWord)
    {
      var pos;
      var word := words[i];
      if full {
        var tmp := |word| + last;
        var from := if |text| > tmp then |text| - tmp else 0;
        pos := FirstOccurrence(text, word, from);
      } else {
        pos := FindPartialStop(text, word);
      }
      assert words[..i + 1][..i] == words[..i];
      if pos.Some? && (stopPos.None? || pos.value < stopPos.value) {
        if full {
          stoppingWord := word;
        }
        stopPos := pos;
      }
    }
    assert words[..|words|] == words;
  }

  lemma {:induction false} SearchFinds(s: string, words: seq<string>, last: nat, full: bool, w: string)
    requires w in words && SearchOne(s, w, last, full).Some?
    ensures Search(s, words, last, full).Some?
    ensures Search(s, words, last, full).value <= SearchOne(s, w, last, full).value
    decreases |words|
  {
    var init := words[..|words| - 1];
    if w in init {
      SearchFinds(s, init, last, full, w);
    } else {
      assert words == init + [words[|words| - 1]];
    }
  }

  lemma {:induction false} SearchSource(s: string, words: seq<string>, last: nat, full: bool) returns (w: string)
    requires Search(s, words, last, full).Some?
    ensures w in words && SearchOne(s, w, last, full) == Search(s, words, last, full)
    decreases |words|
  {
    var n := |words| - 1;
    if SearchOne(s, words[n], last, full) == Search(s, words, last, full) {
      w := words[n];
    } else {
      w := SearchSource(s, words[..n], last, full);
    }
  }

  // ---------------------------------------------------------------------
  // The first stop word in a text

  predicate Stands(s: string, words: seq<string>, q: nat) {
    exists i :: 0 <= i < |words| && Occurs(s, q, words[i])
  }

  /** No stop word stands anywhere in `s`. */
  predicate Clean(s: string, words: seq<string>) {
    forall q :: 0 <= q <= |s| ==> !Stands(s, words, q)
  }

  predicate Earliest(s: string, words: seq<string>, e: nat) {
    e <= |s| && Stands(s, words, e) && forall q :: 0 <= q < e ==> !Stands(s, words, q)
  }

  /** One of the words at `e` ends no more than `last` characters before the end. */
  predicate EndsLate(s: string, words: seq<string>, e: nat, last: nat) {
    exists i :: 0 <= i < |words| && Occurs(s, e, words[i]) && |s| <= e + |words[i]| + last
  }

  lemma SearchStands(s: string, words: seq<string>, last: nat)
    ensures var r := Search(s, words, last, true); r.Some? ==> Stands(s, words, r.value)
  {
    if Search(s, words, last, true).Some? {
      var w := SearchSource(s, words, last, true);
      var i :| 0 <= i < |words| && words[i] == w;
    }
  }

  /** The search finds the first stop word exactly when one that stands there ends late enough. */
  lemma WindowExact(s: string, words: seq<string>, last: nat, e: nat)
    requires Earliest(s, words, e)
    ensures Search(s, words, last, true) == Some(e) <==> EndsLate(s, words, e, last)
  {
    SearchStands(s, words, last);
    if Search(s, words, last, true) == Some(e) {
      var w := SearchSource(s, words, last, true);
      var i :| 0 <= i < |words| && words[i] == w;
    }
    if EndsLate(s, words, e, last) {
      var i :| 0 <= i < |words| && Occurs(s, e, words[i]) && |s| <= e + |words[i]| + last;
      FirstOccurrenceIsFirst(s, words[i], Window(|s|, words[i], last), e);
      SearchFinds(s, words, last, true, words[i]);
    }
  }

  // ---------------------------------------------------------------------
  // One token

  /** What the slot keeps: the text, how much of it was sent, and whether generation goes on. */
  datatype Slot = Slot(text: string, sent: nat, hasNext: bool)

  /** A token's text, whether the text is complete UTF-8 after it, and whether it ends generation. */
  datatype Token = Token(text: string, whole: bool, eog: bool)

  /** What becomes of the text, given where a stop word was found and where one has begun: cut it and
      send the rest, hold it back, or send it. */
  function Resolve(text: string, sent: nat, full: Option<nat>, partial: Option<nat>, eog: bool): (Slot, string) {
    var pos := Min(sent, |text|);
    match full
    case Some(p) =>
      var cut := text[..Min(pos + p, |text|)];
      var out := cut[Min(sent, |cut|)..];
      (Slot(cut, sent + |out|, false), out)
    case None =>
      if !eog && partial.Some? then (Slot(text, sent, true), "")
      else (Slot(text, sent + |text[pos..]|, !eog), text[pos..])
  }

  /** The two searches; the second is only made when the first finds nothing. */
  function Finds(test: string, words: seq<string>, last: nat): (Option<nat>, Option<nat>) {
    var full := Search(test, words, last, true);
    (full, if full.Some? then None else Search(test, words, last, false))
  }

  /** The new slot and the text to send. */
  function Process(s: Slot, words: seq<string>, tok: Token): (Slot, string) {
    var text := s.text + tok.text;
    if !tok.whole then (Slot(text, s.sent, !tok.eog), "")
    else
      var (full, partial) := Finds(text[Min(s.sent, |text|)..], words, |tok.text|);
      Resolve(text, s.sent, full, partial, tok.eog)
  }

  method SearchBoth(test: string, words: seq<string>, last: nat)
    returns (full: Option<nat>, partial: Option<nat>, word: string)
    ensures (full, partial) == Finds(test, words, last)
    ensures full.Some? ==> full.value <= |test| && word in words && Occurs(test, full.value, word)
  {
    full, word := FindStoppingStrings(words, test, last, true);
    partial := None;
    if full.None? {
      partial, word := FindStoppingStrings(words, test, last, false);
    }
  }

  class ServerSlot {
    var generatedText: string
    var nSentText: nat
    var hasNextToken: bool
    var stoppingWord: string

    ghost function State(): Slot
      reads this
    {
      Slot(generatedText, nSentText, hasNextToken)
    }

    constructor ()
      ensures State() == Slot("", 0, true)
    {
      generatedText, nSentText, hasNextToken, stoppingWord := "", 0, true, "";
    }

    method ProcessToken(words: seq<string>, tok: Token) returns (textToSend: string)
      modifies this
      ensures (State(), textToSend) == Process(old(State()), words, tok)
    {
      generatedText := generatedText + tok.text;
      hasNextToken := true;
      textToSend := "";
      if tok.whole {
        var test := generatedText[Min(nSentText, |generatedText|)..];
        var stopPos, partial, word := SearchBoth(test, words, |tok.text|);
        if stopPos.Some? {
          stoppingWord := word;
        }
        textToSend := CutOrSend(stopPos, partial, tok.eog);
      }
      if tok.eog {
        hasNextToken := false;
      }
    }

    method CutOrSend(stopPos: Option<nat>, partial: Option<nat>, eog: bool) returns (textToSend: string)
      requires stopPos.Some? ==> Min(nSentText, |generatedText|) + stopPos.value <= |generatedText|
      requires hasNextToken
      modifies this
      ensures textToSend == Resolve(old(generatedText), old(nSentText), stopPos, partial, eog).1
      ensures var r := Resolve(old(generatedText), old(nSentText), stopPos, partial, eog).0;
        generatedText == r.text && nSentText == r.sent && (hasNextToken && !eog) == r.hasNext
    {
      var pos := Min(nSentText, |generatedText|);
      textToSend := "";
      if stopPos.Some? {
        hasNextToken := false;
        generatedText := generatedText[..pos + stopPos.value];
        pos := Min(nSentText, |generatedText|);
      }
      if stopPos.Some? || eog || partial.None? {
        textToSend := generatedText[pos..];
        nSentText := nSentText + |textToSend|;
      }
    }
  }

  // ---------------------------------------------------------------------
  // Moving a position, lengthening a text

  lemma ShiftOccurs(s: string, pos: nat, q: nat, w: string)
    requires pos <= |s|
    ensures Occurs(s[pos..], q, w) <==> Occurs(s, pos + q, w)
  {
    if q + |w| <= |s| - pos {
      assert s[pos..][q..q + |w|] == s[pos + q..pos + q + |w|];
    }
  }

  lemma ShiftStands(s: string, words: seq<string>, pos: nat, q: nat)
    requires pos <= |s|
    ensures Stands(s[pos..], words, q) <==> Stands(s, words, pos + q)
  {
    forall i | 0 <= i < |words| ensures Occurs(s[pos..], q, words[i]) <==> Occurs(s, pos + q, words[i]) {
      ShiftOccurs(s, pos, q, words[i]);
    }
  }

  lemma ShiftEarliest(s: string, words: seq<string>, pos: nat, e: nat)
    requires pos <= e && Earliest(s, words, e)
    ensures Earliest(s[pos..], words, e - pos)
  {
    forall q | 0 <= q <= e - pos ensures Stands(s[pos..], words, q) <==> Stands(s, words, pos + q) {
      ShiftStands(s, words, pos, q);
    }
  }

  lemma ShiftEndsLate(s: string, words: seq<string>, pos: nat, e: nat, last: nat)
    requires pos <= e <= |s|
    ensures EndsLate(s[pos..], words, e - pos, last) <==> EndsLate(s, words, e, last)
  {
    forall i | 0 <= i < |words| ensures Occurs(s[pos..], e - pos, words[i]) <==> Occurs(s, e, words[i]) {
      ShiftOccurs(s, pos, e - pos, words[i]);
    }
  }

  /** Before `n` no stop word stands or can still come about. */
  predicate Dead(s: string, words: seq<string>, n: nat) {
    forall q, i :: 0 <= q < n && 0 <= i < |words| ==> !Begun(s, q, words[i]) && !Occurs(s, q, words[i])
  }

  lemma Longer(s: string, t: string, q: nat, w: string)
    requires q < |s|
    ensures Begun(s + t, q, w) ==> Begun(s, q, w)
    ensures Occurs(s + t, q, w) ==> Occurs(s, q, w) || Begun(s, q, w)
  {
    if Begun(s + t, q, w) {
      assert s[q..] == (s + t)[q..][..|s| - q];
    }
    if Occurs(s + t, q, w) {
      if q + |w| <= |s| {
        assert s[q..q + |w|] == (s + t)[q..q + |w|];
      } else {
        ContinuedBegun(s, t, q, w);
      }
    }
  }

  lemma DeadKept(s: string, t: string, words: seq<string>, n: nat)
    requires Dead(s, words, n) && n <= |s|
    ensures Dead(s + t, words, n)
  {
    forall q, i | 0 <= q < n && 0 <= i < |words|
      ensures !Begun(s + t, q, words[i]) && !Occurs(s + t, q, words[i])
    {
      Longer(s, t, q, words[i]);
    }
  }

  /** After a search that finds neither a stop word nor the beginning of one, all is dead. */
  lemma AllDead(s: string, words: seq<string>, n: nat, last: nat)
    requires n <= |s| && Dead(s, words, n) && Clean(s, words)
    requires Search(s[n..], words, last, false).None?
    ensures Dead(s, words, |s|)
  {
    forall q, i | 0 <= q < |s| && 0 <= i < |words|
      ensures !Begun(s, q, words[i]) && !Occurs(s, q, words[i])
    {
      assert !Stands(s, words, q);
      if n <= q {
        NotBegun(s, words, n, last, q, i);
      }
    }
  }

  lemma NotBegun(s: string, words: seq<string>, n: nat, last: nat, q: nat, i: nat)
    requires n <= q < |s| && i < |words|
    ensures Begun(s, q, words[i]) ==> Search(s[n..], words, last, false).Some?
  {
    if Begun(s, q, words[i]) {
      assert s[n..][q - n..] == s[q..];
      FirstBegunIsFirst(s[n..], words[i], 0, q - n);
      SearchFinds(s[n..], words, last, false, words[i]);
    }
  }

  // ---------------------------------------------------------------------
  // Runs

  /** The slot and all the text sent so far. */
  datatype Session = Session(slot: Slot, received: string)

  const START := Session(Slot("", 0, true), "")

  function Next(s: Session, words: seq<string>, tok: Token): Session {
    var (slot, out) := Process(s.slot, words, tok);
    Session(slot, s.received + out)
  }

  /** Tokens are processed until one ends the generation. */
  function Run(s: Session, words: seq<string>, toks: seq<Token>): Session
    decreases |toks|
  {
    if toks == [] || !s.slot.hasNext then s else Run(Next(s, words, toks[0]), words, toks[1..])
  }

  predicate NonEmpty(words: seq<string>) {
    forall i :: 0 <= i < |words| ==> words[i] != ""
  }

  /** What was sent is the front of the text, and no stop word can touch it. */
  predicate Kept(s: Session, words: seq<string>, text: string) {
    && s.slot.text == text
    && s.slot.sent <= |text|
    && s.received == text[..s.slot.sent]
    && Dead(text, words, s.slot.sent)
  }

  lemma StepIncomplete(s: Session, words: seq<string>, text: string, tok: Token)
    requires Kept(s, words, text) && !tok.whole
    ensures Kept(Next(s, words, tok), words, text + tok.text) && Next(s, words, tok).slot.hasNext == !tok.eog
  {
    DeadKept(text, tok.text, words, s.slot.sent);
    assert (text + tok.text)[..s.slot.sent] == text[..s.slot.sent];
    assert s.received + "" == s.received;
  }

  lemma StepClean(s: Session, words: seq<string>, text: string, tok: Token, all: string)
    requires Kept(s, words, text) && tok.whole && all == text + tok.text && Clean(all, words)
    ensures !tok.eog ==> Kept(Next(s, words, tok), words, all) && Next(s, words, tok).slot.hasNext
    ensures tok.eog ==> Next(s, words, tok) == Session(Slot(all, |all|, false), all)
  {
    var n := s.slot.sent;
    CleanSuffix(all, words, n, |tok.text|);
    DeadKept(text, tok.text, words, n);
    assert all[..n] == text[..n];
    assert all[..n] + all[n..] == all && all[..|all|] == all;
    assert s.received + "" == s.received;
    if Search(all[n..], words, |tok.text|, false).None? {
      AllDead(all, words, n, |tok.text|);
    }
  }

  lemma CleanSuffix(s: string, words: seq<string>, n: nat, last: nat)
    requires n <= |s| && Clean(s, words)
    ensures Search(s[n..], words, last, true).None?
  {
    SearchStands(s[n..], words, last);
    forall q | 0 <= q <= |s| - n ensures !Stands(s[n..], words, q) {
      ShiftStands(s, words, n, q);
    }
  }

  lemma EarliestUnsent(s: string, words: seq<string>, n: nat, e: nat)
    requires n <= |s| && Dead(s, words, n) && Earliest(s, words, e)
    ensures n <= e
  {
    var i :| 0 <= i < |words| && Occurs(s, e, words[i]);
  }

  lemma SearchStop(all: string, words: seq<string>, n: nat, e: nat, last: nat)
    requires n <= |all| && Dead(all, words, n) && Earliest(all, words, e)
    ensures n <= e && (Search(all[n..], words, last, true) == Some(e - n) <==> EndsLate(all, words, e, last))
  {
    EarliestUnsent(all, words, n, e);
    ShiftEarliest(all, words, n, e);
    ShiftEndsLate(all, words, n, e, last);
    WindowExact(all[n..], words, last, e - n);
  }

  lemma ResolveStop(all: string, n: nat, e: nat, full: Option<nat>, partial: Option<nat>, eog: bool)
    requires n <= e < |all|
    ensures Resolve(all, n, full, partial, eog).0.text == all[..e] <==> full == Some(e - n)
    ensures full == Some(e - n) ==> Resolve(all, n, full, partial, eog) == (Slot(all[..e], e, false), all[n..e])
  {
    assert |all[..e]| == e && all[..e][n..] == all[n..e];
  }

  lemma EarliestInside(s: string, words: seq<string>, e: nat)
    requires NonEmpty(words) && Earliest(s, words, e)
    ensures e < |s|
  {
    var i :| 0 <= i < |words| && Occurs(s, e, words[i]);
  }

  /** When a stop word stands in the text, the text is cut before the first one exactly when that one
      ends in the last token or right before it; then all that comes before it has been sent. */
  lemma StepStop(s: Session, words: seq<string>, text: string, tok: Token, all: string, e: nat)
    requires Kept(s, words, text) && tok.whole && all == text + tok.text
    requires NonEmpty(words) && Earliest(all, words, e)
    ensures Next(s, words, tok).slot.text == all[..e] <==> EndsLate(all, words, e, |tok.text|)
    ensures EndsLate(all, words, e, |tok.text|) ==> Next(s, words, tok) == Session(Slot(all[..e], e, false), all[..e])
  {
    var n := s.slot.sent;
    DeadKept(text, tok.text, words, n);
    SearchStop(all, words, n, e, |tok.text|);
    EarliestInside(all, words, e);
    var (full, partial) := Finds(all[n..], words, |tok.text|);
    ResolveStop(all, n, e, full, partial, tok.eog);
    assert text[..n] + all[n..e] == all[..e];
  }

  /** What the client should get: the text up to the first stop word in it, noticed at the first
      token that leaves complete text. */
  ghost function Ideal(words: seq<string>, text: string, toks: seq<Token>): (string, bool)
    decreases |toks|
  {
    if toks == [] then (text, false)
    else
      var all := text + toks[0].text;
      if toks[0].whole && !Clean(all, words) then
        var e := FirstStop(all, words);
        (all[..e], true)
      else Ideal(words, all, toks[1..])
  }

  lemma {:induction false} EarliestExists(s: string, words: seq<string>, from: nat) returns (e: nat)
    requires exists q :: from <= q <= |s| && Stands(s, words, q)
    requires forall q :: 0 <= q < from ==> !Stands(s, words, q)
    ensures Earliest(s, words, e)
    decreases |s| - from
  {
    if Stands(s, words, from) {
      e := from;
    } else {
      e := EarliestExists(s, words, from + 1);
    }
  }

  ghost function FirstStop(s: string, words: seq<string>): (e: nat)
    requires !Clean(s, words)
    ensures Earliest(s, words, e)
  {
    assert exists e :: Earliest(s, words, e) by {
      var e := EarliestExists(s, words, 0);
    }
    var e :| Earliest(s, words, e);
    e
  }

  /** While generation goes on, each complete text's first stop word ends in its last token, or right
      before it. */
  ghost predicate Watched(words: seq<string>, text: string, toks: seq<Token>)
    decreases |toks|
  {
    toks == [] ||
    var all := text + toks[0].text;
    if toks[0].whole && !Clean(all, words) then EndsLate(all, words, FirstStop(all, words), |toks[0].text|)
    else Watched(words, all, toks[1..])
  }

  predicate OnlyLastEnds(toks: seq<Token>) {
    forall i :: 0 <= i < |toks| && toks[i].eog ==> i == |toks| - 1
  }

  /** The last token ends the generation and leaves complete text. */
  predicate Ended(toks: seq<Token>) {
    toks != [] && toks[|toks| - 1].eog && toks[|toks| - 1].whole
  }

  /** The text of a run is the ideal one. If a stop word ended it, what came before the stop word was
      sent and nothing else. If not, what was sent is the front of the text, out of reach of any stop
      word; an ending token sends the rest. */
  ghost predicate Right(r: Session, words: seq<string>, ideal: (string, bool), ended: bool) {
    && r.slot.text == ideal.0
    && (ideal.1 ==> !r.slot.hasNext && r.received == ideal.0)
    && (!ideal.1 ==> if ended then r.received == ideal.0 else Kept(r, words, ideal.0))
  }

  lemma {:induction false} RunExact(s: Session, words: seq<string>, text: string, toks: seq<Token>)
    requires Kept(s, words, text) && s.slot.hasNext && NonEmpty(words) && OnlyLastEnds(toks) && Watched(words, text, toks)
    ensures Right(Run(s, words, toks), words, Ideal(words, text, toks), Ended(toks))
    decreases |toks|
  {
    if toks != [] {
      var tok, all := toks[0], text + toks[0].text;
      if tok.whole && !Clean(all, words) {
        StepStop(s, words, text, tok, all, FirstStop(all, words));
      } else {
        if tok.whole {
          StepClean(s, words, text, tok, all);
        } else {
          StepIncomplete(s, words, text, tok);
        }
        if !tok.eog {
          RunExact(Next(s, words, tok), words, all, toks[1..]);
        }
      }
    }
  }

  predicate AllWhole(toks: seq<Token>) {
    forall i :: 0 <= i < |toks| ==> toks[i].whole
  }

  lemma {:induction false} WholeWatched(words: seq<string>, text: string, toks: seq<Token>)
    requires Clean(text, words) && AllWhole(toks)
    ensures Watched(words, text, toks)
    decreases |toks|
  {
    if toks != [] {
      var all := text + toks[0].text;
      if Clean(all, words) {
        WholeWatched(words, all, toks[1..]);
      } else {
        var e := FirstStop(all, words);
        var i :| 0 <= i < |words| && Occurs(all, e, words[i]);
        NewEndsLate(text, toks[0].text, e, words, i);
      }
    }
  }

  lemma OccursInside(s: string, t: string, q: nat, w: string)
    requires Occurs(s + t, q, w)
    ensures q + |w| <= |s| ==> Occurs(s, q, w)
  {
    if q + |w| <= |s| {
      assert s[q..q + |w|] == (s + t)[q..q + |w|];
    }
  }

  lemma NewEndsLate(s: string, t: string, e: nat, words: seq<string>, i: nat)
    requires Clean(s, words) && i < |words| && Occurs(s + t, e, words[i])
    ensures EndsLate(s + t, words, e, |t|)
  {
    OccursInside(s, t, e, words[i]);
    assert e <= |s| ==> !Stands(s, words, e);
  }

  /** With tokens that leave complete text every run is right. */
  lemma WholeRunExact(words: seq<string>, toks: seq<Token>)
    requires NonEmpty(words) && OnlyLastEnds(toks) && AllWhole(toks)
    ensures Right(Run(START, words, toks), words, Ideal(words, "", toks), Ended(toks))
  {
    WholeWatched(words, "", toks);
    RunExact(START, words, "", toks);
  }

  // ---------------------------------------------------------------------
  // What is held back

  /** A stop word has begun at `n` or behind it. */
  predicate BegunFrom(s: string, words: seq<string>, n: nat) {
    exists q, i :: n <= q < |s| && 0 <= i < |words| && Begun(s, q, words[i])
  }

  lemma PartialFound(s: string, words: seq<string>, last: nat, n: nat)
    requires n <= |s|
    ensures Search(s[n..], words, last, false).Some? <==> BegunFrom(s, words, n)
  {
    if Search(s[n..], words, last, false).Some? {
      var w := SearchSource(s[n..], words, last, false);
      var q := Search(s[n..], words, last, false).value;
      var i :| 0 <= i < |words| && words[i] == w;
      assert s[n..][q..] == s[n + q..];
      assert Begun(s, n + q, words[i]);
    }
    if BegunFrom(s, words, n) {
      var q, i :| n <= q < |s| && 0 <= i < |words| && Begun(s, q, words[i]);
      NotBegun(s, words, n, last, q, i);
    }
  }

  /** After a token that leaves complete text without a stop word, nothing is held back exactly when no stop word
      has begun in what was not sent before; otherwise all of that is held back. */
  lemma HeldBackExactly(s: Session, words: seq<string>, text: string, tok: Token, all: string)
    requires Kept(s, words, text) && tok.whole && !tok.eog && all == text + tok.text && Clean(all, words)
    ensures !BegunFrom(all, words, s.slot.sent) ==> Next(s, words, tok) == Session(Slot(all, |all|, true), all)
    ensures BegunFrom(all, words, s.slot.sent) ==> Next(s, words, tok) == Session(Slot(all, s.slot.sent, true), s.received)
  {
    var n := s.slot.sent;
    CleanSuffix(all, words, n, |tok.text|);
    PartialFound(all, words, |tok.text|, n);
    assert all[..n] == text[..n] && all[..n] + all[n..] == all;
    assert s.received + "" == s.received;
  }

  /** All of the text was sent, or a stop word has begun in what was not. */
  predicate Prompt(s: Session, words: seq<string>) {
    s.slot.sent == |s.slot.text| || BegunFrom(s.slot.text, words, s.slot.sent)
  }

  /** While tokens that leave complete text bring no stop word, no text is kept waiting for nothing. */
  lemma {:induction false} RunPrompt(s: Session, words: seq<string>, text: string, toks: seq<Token>)
    requires Kept(s, words, text) && s.slot.hasNext && Prompt(s, words) && AllWhole(toks)
    requires (forall i :: 0 <= i < |toks| ==> !toks[i].eog) && Ideal(words, text, toks).1 == false
    ensures Prompt(Run(s, words, toks), words) && Run(s, words, toks).slot.hasNext
    decreases |toks|
  {
    if toks != [] {
      var tok, all := toks[0], text + toks[0].text;
      StepClean(s, words, text, tok, all);
      HeldBackExactly(s, words, text, tok, all);
      RunPrompt(Next(s, words, tok), words, all, toks[1..]);
    }
  }

  lemma NoStopFound(all: string)
    requires all == "abXY"
    ensures FirstOccurrence(all, "ab", 1) == None && FirstBegun(all, "ab", 0) == None
  {
    assert all[1..3][0] == 'b' && all[2..4][0] == 'X';
    assert all[2..][0] == 'X' && all[3..][0] == 'Y';
    assert FirstOccurrence(all, "ab", 2) == None;
    assert FirstBegun(all, "ab", 2) == None;
  }

  lemma OneWord(all: string, w: string, last: nat, full: bool)
    ensures Search(all, [w], last, full) == SearchOne(all, w, last, full)
  {
    assert [w][..0] == [];
    assert Search(all, [], last, full) == None;
  }

  /** A stop word that ends inside a token which also begins an incomplete character is missed, and
      sent to the client: here `X` and `Y` are the halves of that character. */
  lemma MissedStopWord(toks: seq<Token>)
    requires toks == [Token("abX", false, false), Token("Y", true, false)]
    ensures Run(START, ["ab"], toks) == Session(Slot("abXY", 4, true), "abXY")
    ensures Ideal(["ab"], "", toks) == ("", true)
  {
    MissedRun(toks[0], toks[1]);
    RunTwo(START, ["ab"], toks, Session(Slot("abX", 0, true), ""));
    MissedIdeal(toks[0], toks[1]);
    assert toks[1..] == [toks[1]];
    assert "" + "abX" == "abX";
  }

  lemma RunTwo(s: Session, words: seq<string>, toks: seq<Token>, s': Session)
    requires |toks| == 2 && s.slot.hasNext && s' == Next(s, words, toks[0]) && s'.slot.hasNext
    ensures Run(s, words, toks) == Next(s', words, toks[1])
  {
    assert toks[1..][1..] == [];
    assert Run(s', words, toks[1..]) == Run(Next(s', words, toks[1]), words, []);
  }

  lemma MissedRun(t1: Token, t2: Token)
    requires t1 == Token("abX", false, false) && t2 == Token("Y", true, false)
    ensures Next(START, ["ab"], t1) == Session(Slot("abX", 0, true), "")
    ensures Next(Session(Slot("abX", 0, true), ""), ["ab"], t2) == Session(Slot("abXY", 4, true), "abXY")
  {
    var all := "abX" + "Y";
    NoStopFound(all);
    OneWord(all, "ab", 1, true);
    OneWord(all, "ab", 1, false);
    assert all[0..] == all;
  }

  lemma MissedIdeal(t1: Token, t2: Token)
    requires t1 == Token("abX", false, false) && t2 == Token("Y", true, false)
    ensures Ideal(["ab"], "abX", [t2]) == ("", true)
  {
    var all, words := "abX" + "Y", ["ab"];
    assert all[0..2] == "ab";
    assert Occurs(all, 0, words[0]);
    assert Stands(all, words, 0);
    assert FirstStop(all, words) == 0;
  }
}
