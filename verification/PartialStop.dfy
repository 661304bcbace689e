/** Searching a text for the beginning of a stop word. */
module PartialStop {

  import opened Basics

  /** `w` stands at position `q` of `s`. */
  predicate Occurs(s: string, q: nat, w: string) {
    q + |w| <= |s| && s[q..q + |w|] == w
  }

  /** From `q` on, `s` is the beginning of `w`. */
  predicate Begun(s: string, q: nat, w: string) {
    q < |s| && s[q..] <= w
  }

  /** The first position at or after `from` where `w` has begun. */
  function FirstBegun(s: string, w: string, from: nat): (r: Option<nat>)
    ensures r.Some? ==> from <= r.value && Begun(s, r.value, w)
    decreases |s| - from
  {
    if from >= |s| then None
    else if Begun(s, from, w) then Some(from)
    else FirstBegun(s, w, from + 1)
  }

  lemma {:induction false} FirstBegunIsFirst(s: string, w: string, from: nat, q: nat)
    requires from <= q && Begun(s, q, w)
    ensures FirstBegun(s, w, from).Some? && FirstBegun(s, w, from).value <= q
    decreases |s| - from
  {
    if from < q {
      FirstBegunIsFirst(s, w, from + 1, q);
    }
  }

  predicate EndsWith(s: string, suffix: string) {
    |s| >= |suffix| && s[|s| - |suffix|..] == suffix
  }

  /** A prefix of `w` at the end of `s` is a beginning of `w`, whose last characters agree. */
  lemma EndsWithBegun(s: string, w: string, len: nat)
    requires 0 < len <= |s| && len <= |w|
    ensures EndsWith(s, w[..len]) <==> Begun(s, |s| - len, w)
    ensures EndsWith(s, w[..len]) ==> w[len - 1] == s[|s| - 1]
  {
    if EndsWith(s, w[..len]) {
      assert s[|s| - len..][len - 1] == w[..len][len - 1];
    }
  }

  /** The descending search: the longest ending of the text that begins the stop word. */
  method FindPartialStop(str: string, stop: string) returns (r: Option<nat>)
    ensures r == FirstBegun(str, stop, 0)
  {
    if str != "" && stop != "" {
      var maxLen := if |str| < |stop| then |str| else |stop|;
      var last := str[|str| - 1];
      var len := maxLen;
      while len > 0
        invariant 0 <= len <= maxLen
        invariant forall q :: 0 <= q < |str| - len ==> !Begun(str, q, stop)
      {
        EndsWithBegun(str, stop, len);
        if stop[len - 1] == last && EndsWith(str, stop[..len]) {
          FirstBegunIsFirst(str, stop, 0, |str| - len);
          return Some(|str| - len);
        }
        len := len - 1;
      }
    }
    return None;
  }

  // ---------------------------------------------------------------------
  // What the answer means for text still to come

  /** A word has begun exactly where some continuation completes it. */
  lemma BegunExactly(s: string, q: nat, w: string)
    requires q < |s|
    ensures Begun(s, q, w) <==> exists c :: q + |w| >= |s| && Occurs(s + c, q, w)
  {
    if Begun(s, q, w) {
      var c := w[|s| - q..];
      assert (s + c)[q..q + |w|] == w;
      assert Occurs(s + c, q, w);
    }
    if c :| q + |w| >= |s| && Occurs(s + c, q, w) {
      ContinuedBegun(s, c, q, w);
    }
  }

  lemma ContinuedBegun(s: string, c: string, q: nat, w: string)
    requires q < |s| <= q + |w| && Occurs(s + c, q, w)
    ensures Begun(s, q, w)
  {
    assert s[q..] == (s + c)[q..q + |w|][..|s| - q];
  }

  /** Whatever follows, an occurrence that reaches the end of the text starts no earlier than the
      position found, and after a search without result it does not start inside the text. */
  lemma NothingBefore(s: string, c: string, q: nat, w: string)
    requires |s| <= q + |w| && Occurs(s + c, q, w)
    ensures match FirstBegun(s, w, 0) case Some(p) => p <= q case None => |s| <= q
  {
    if q < |s| {
      ContinuedBegun(s, c, q, w);
      FirstBegunIsFirst(s, w, 0, q);
    }
  }

  /** The position found cannot be improved: some continuation puts the word there. */
  lemma PositionTight(s: string, w: string)
    requires FirstBegun(s, w, 0).Some?
    ensures exists c :: Occurs(s + c, FirstBegun(s, w, 0).value, w)
  {
    BegunExactly(s, FirstBegun(s, w, 0).value, w);
  }
}
