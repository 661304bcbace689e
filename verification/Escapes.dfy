/** Backslash escapes: unescaping in place, and what it computes. Characters are bytes. */
module Escapes {

  import opened Basics

  // ---------------------------------------------------------------------
  // What unescaping means

  /** The number that two characters spell to `strtol` in base 16 when it takes both: two digits, or a
      digit after a space or a sign. */
  function HexPair(a: char, b: char): (r: Option<int>)
    ensures r.Some? ==> -16 < r.value < 256
  {
    match HexValue(b)
    case None => None
    case Some(low) =>
      match HexValue(a)
      case Some(high) => Some(16 * high + low)
      case None => if IsSpace(a) || a == '+' then Some(low) else if a == '-' then Some(0 - low) else None
  }

  /** Conversion to a byte. */
  function AsByte(v: int): char
    requires -256 <= v < 256
  {
    if v < 0 then (v + 256) as char else v as char
  }

  /** The character that a letter after a backslash stands for. */
  function Named(c: char): Option<char> {
    match c
    case 'n' => Some('\n')
    case 'r' => Some('\r')
    case 't' => Some('\t')
    case '\'' => Some('\'')
    case '\"' => Some('\"')
    case '\\' => Some('\\')
    case _ => None
  }

  /** What the front of `s` turns into, and how many characters it takes. */
  datatype Step = Step(out: string, used: nat)

  function First(s: string): (f: Step)
    requires s != ""
    ensures 1 <= |f.out| <= f.used <= |s|
  {
    if s[0] != '\\' || |s| == 1 then Step([s[0]], 1)
    else if Named(s[1]).Some? then Step([Named(s[1]).value], 2)
    else if s[1] == 'x' && |s| >= 4 && HexPair(s[2], s[3]).Some? then Step([AsByte(HexPair(s[2], s[3]).value)], 4)
    else Step(['\\', s[1]], 2)
  }

  function Unescape(s: string): string {
    if s == "" then "" else First(s).out + Unescape(s[First(s).used..])
  }

  // ---------------------------------------------------------------------
  // Unescaping in place

  /** The buffer `b` while `t` is unescaped in it: what was written, then what is not overwritten. */
  ghost predicate Overwritten(b: string, t: string, out: string) {
    |out| <= |t| && b == out + t[|out|..]
  }

  lemma Unread(b: string, t: string, out: string, i: nat)
    requires Overwritten(b, t, out) && |out| <= i < |t|
    ensures |b| == |t| && b[i] == t[i]
  {
  }

  lemma Overwrite(b: string, t: string, out: string, c: char)
    requires Overwritten(b, t, out) && |out| < |t|
    ensures Overwritten(b[|out| := c], t, out + [c])
  {
  }

  method Put(a: array<char>, c: char, ghost t: string, ghost out: string, o: nat) returns (o': nat)
    requires o == |out| < |t| == a.Length && Overwritten(a[..], t, out)
    modifies a
    ensures Overwritten(a[..], t, out + [c]) && o' == o + 1
  {
    ghost var b := a[..];
    Overwrite(b, t, out, c);
    a[o] := c;
    assert a[..] == b[o := c];
    return o + 1;
  }

  method Get(a: array<char>, i: nat, ghost t: string, ghost out: string) returns (c: char)
    requires |out| <= i < |t| == a.Length && Overwritten(a[..], t, out)
    ensures c == t[i]
  {
    Unread(a[..], t, out, i);
    assert a[..][i] == a[i];
    return a[i];
  }

  lemma Resume(all: string, out: string, rest: string, f: Step, tail: string)
    requires rest != "" && f == First(rest) && tail == rest[f.used..] && out + Unescape(rest) == all
    ensures (out + f.out) + Unescape(tail) == all
  {
    assert Unescape(rest) == f.out + Unescape(tail);
  }

  /** One escape sequence or one character. Input still to be read is never overwritten, not even by
      the two characters written for an escape that is not recognised. */
  method ProcessOne(a: array<char>, i: nat, o: nat, ghost t: string, ghost out: string) returns (i': nat, o': nat)
    requires o == |out| <= i < |t| == a.Length && Overwritten(a[..], t, out)
    modifies a
    ensures var f := First(t[i..]);
      i' == i + f.used && o' == o + |f.out| && Overwritten(a[..], t, out + f.out)
  {
    var c := Get(a, i, t, out);
    i', o' := i + 1, o;
    if c == '\\' && i + 1 < a.Length {
      var d := Get(a, i + 1, t, out);
      i' := i + 2;
      if Named(d).Some? {
        o' := Put(a, Named(d).value, t, out, o);
        return;
      }
      if d == 'x' && i + 3 < a.Length {
        var x := Get(a, i + 2, t, out);
        var y := Get(a, i + 3, t, out);
        var val := HexPair(x, y);
        if val.Some? {
          i' := i + 4;
          o' := Put(a, AsByte(val.value), t, out, o);
          return;
        }
      }
      o' := Put(a, '\\', t, out, o);
      d := Get(a, i + 1, t, out + ['\\']);
      o' := Put(a, d, t, out + ['\\'], o');
      assert out + ['\\'] + [d] == out + ['\\', d];
    } else {
      o' := Put(a, c, t, out, o);
    }
  }

  /** The front of the buffer becomes the unescaped string, and the rest stays; the caller keeps the
      first `o` characters. */
  method ProcessEscapes(a: array<char>) returns (o: nat)
    modifies a
    ensures o <= a.Length && a[..o] == Unescape(old(a[..]))
    ensures a[o..] == old(a[..])[o..]
  {
    ghost var t := a[..];
    assert t[0..] == t;
    ghost var out;
    o, out := ProcessAll(a, t, Unescape(t));
    assert a[..][..o] == out && a[..][o..] == t[o..];
  }

  /** What is written and what the unread input turns into make up the result. */
  ghost predicate Underway(all: string, out: string, t: string, i: nat) {
    |out| <= i <= |t| && out + Unescape(t[i..]) == all
  }

  lemma Resumed(all: string, out: string, t: string, i: nat, f: Step)
    requires i < |t| && Underway(all, out, t, i) && f == First(t[i..])
    ensures Underway(all, out + f.out, t, i + f.used)
  {
    Resume(all, out, t[i..], f, t[i..][f.used..]);
    assert t[i..][f.used..] == t[i + f.used..];
  }

  method ProcessNext(a: array<char>, i: nat, o: nat, ghost t: string, ghost out: string, ghost all: string)
    returns (i': nat, o': nat, ghost out': string)
    requires o == |out| && i < |t| == a.Length && Overwritten(a[..], t, out) && Underway(all, out, t, i)
    modifies a
    ensures i < i' && o' == |out'| && Overwritten(a[..], t, out') && Underway(all, out', t, i')
  {
    ghost var f := First(t[i..]);
    Resumed(all, out, t, i, f);
    i', o' := ProcessOne(a, i, o, t, out);
    out' := out + f.out;
  }

  method ProcessAll(a: array<char>, ghost t: string, ghost all: string) returns (o: nat, ghost out: string)
    requires a[..] == t && Underway(all, "", t, 0)
    modifies a
    ensures o == |out| && out == all && Overwritten(a[..], t, out)
  {
    var i := 0;
    o, out := 0, "";
    while i < a.Length
      invariant o == |out| && i <= |t| == a.Length && Overwritten(a[..], t, out) && Underway(all, out, t, i)
    {
      i, o, out := ProcessNext(a, i, o, t, out, all);
    }
  }

  // ---------------------------------------------------------------------
  // What it undoes

  /** The result is never longer, and as long only where nothing was recognised. */
  lemma {:induction false} NeverLonger(s: string)
    ensures |Unescape(s)| <= |s|
    ensures |Unescape(s)| == |s| <==> Unescape(s) == s
    decreases |s|
  {
    if s != "" {
      var f := First(s);
      NeverLonger(s[f.used..]);
      assert s == s[..f.used] + s[f.used..];
      assert |f.out| == f.used ==> f.out == s[..f.used];
    }
  }

  /** A way to write a character: itself, its name, or its code in two hexadecimal digits. */
  predicate Spells(w: string, c: char) {
    || (w == [c] && c != '\\')
    || (|w| == 2 && w[0] == '\\' && Named(w[1]) == Some(c))
    || (|w| == 4 && w[0] == '\\' && w[1] == 'x' && HexPair(w[2], w[3]).Some? && c == AsByte(HexPair(w[2], w[3]).value))
  }

  predicate AllSpell(ws: seq<string>, s: string) {
    |ws| == |s| && forall i :: 0 <= i < |s| ==> Spells(ws[i], s[i])
  }

  lemma SpellsFirst(w: string, c: char, rest: string)
    requires Spells(w, c)
    ensures First(w + rest) == Step([c], |w|)
  {
  }

  /** However each character is spelled, unescaping gives the string back. */
  lemma {:induction false} UnescapeSpelled(ws: seq<string>, s: string)
    requires AllSpell(ws, s)
    ensures Unescape(Join(ws)) == s
    decreases |s|
  {
    if s != "" {
      var rest := Join(ws[1..]);
      UnescapeSpelled(ws[1..], s[1..]);
      SpellsFirst(ws[0], s[0], rest);
      assert Join(ws)[|ws[0]|..] == rest;
      assert s == [s[0]] + s[1..];
    }
  }

  /** Every backslash written twice. */
  function Doubled(s: string): string {
    if s == "" then ""
    else (if s[0] == '\\' then ['\\', '\\'] else [s[0]]) + Doubled(s[1..])
  }

  lemma {:induction false} UnescapeDoubled(s: string)
    ensures Unescape(Doubled(s)) == s
  {
    if s != "" {
      UnescapeDoubled(s[1..]);
      var w := if s[0] == '\\' then ['\\', '\\'] else [s[0]];
      SpellsFirst(w, s[0], Doubled(s[1..]));
      assert Doubled(s)[|w|..] == Doubled(s[1..]);
      assert s == [s[0]] + s[1..];
    }
  }

  // ---------------------------------------------------------------------
  // What each sequence means

  /** The letters that may follow a backslash, and what each stands for. */
  const NAMES := "nrt\'\"\\"
  const NAMED := "\n\r\t\'\"\\"

  lemma NameMeans(i: nat, rest: string)
    requires i < |NAMES|
    ensures Unescape(['\\', NAMES[i]] + rest) == [NAMED[i]] + Unescape(rest)
  {
    var s := ['\\', NAMES[i]] + rest;
    assert s[2..] == rest;
  }

  const LOWER := "0123456789abcdef"
  const UPPER := "0123456789ABCDEF"

  predicate HexDigit(c: char, d: nat) {
    d < 16 && (c == LOWER[d] || c == UPPER[d])
  }

  lemma DigitValue(c: char, d: nat)
    requires HexDigit(c, d)
    ensures HexValue(c) == Some(d)
  {
    if d < 10 {
      assert LOWER[d] == UPPER[d] == '0' + d as char;
    } else {
      assert LOWER[d] == 'a' + (d - 10) as char && UPPER[d] == 'A' + (d - 10) as char;
    }
  }

  lemma DigitOf(c: char)
    ensures HexValue(c).Some? ==> HexDigit(c, HexValue(c).value)
  {
  }

  /** Two hexadecimal digits are a character's code, whichever case they are in. */
  lemma CodeMeans(a: char, b: char, high: nat, low: nat, rest: string)
    requires HexDigit(a, high) && HexDigit(b, low)
    ensures Unescape(['\\', 'x', a, b] + rest) == [(16 * high + low) as char] + Unescape(rest)
  {
    hide HexDigit, HexValue;
    DigitValue(a, high);
    DigitValue(b, low);
    var s := ['\\', 'x', a, b] + rest;
    assert s[4..] == rest;
  }

  /** A letter that names nothing keeps its backslash, and so does a last backslash. */
  lemma OthersKept(c: char, rest: string)
    requires c !in NAMES && c != 'x'
    ensures Unescape(['\\', c] + rest) == ['\\', c] + Unescape(rest)
    ensures Unescape("\\") == "\\"
  {
    var s := ['\\', c] + rest;
    assert s[2..] == rest;
    assert Named(c) == None;
  }

  /** `\x` stays as it is unless a digit follows its first character and that is a digit, a space or a sign. */
  lemma CodeKept(a: char, b: char, rest: string)
    requires (forall d :: !HexDigit(b, d)) || ((forall d :: !HexDigit(a, d)) && !IsSpace(a) && a != '+' && a != '-')
    ensures Unescape(['\\', 'x', a, b] + rest) == ['\\', 'x'] + Unescape([a, b] + rest)
  {
    hide HexDigit, HexValue;
    DigitOf(a);
    DigitOf(b);
    var s := ['\\', 'x', a, b] + rest;
    assert s[2..] == [a, b] + rest;
  }

  /** A sign is read as one: `\x-1` is the byte 255. */
  lemma SignedCode(a: char, b: char, d: nat, rest: string)
    requires HexDigit(b, d) && (IsSpace(a) || a == '+' || a == '-')
    ensures Unescape(['\\', 'x', a, b] + rest) == [(if a == '-' && d > 0 then 256 - d else d) as char] + Unescape(rest)
  {
    hide HexDigit;
    DigitValue(b, d);
    var s := ['\\', 'x', a, b] + rest;
    assert s[4..] == rest;
    assert HexValue(a) == None;
  }
}
