/** JSON text: the brace-depth scanner, string escaping as in section 7 of
    RFC 8259, and a reader and a writer for compact JSON values. */
module JsonText {

  import opened Basics

  // ---------------------------------------------------------------------
  // The scanner that counts braces outside strings

  datatype Scan = Scan(depth: int, inString: bool, escaped: bool)

  const START := Scan(0, false, false)

  function ScanChar(s: Scan, c: char): Scan {
    if s.escaped then s.(escaped := false)
    else if c == '\\' && s.inString then s.(escaped := true)
    else if c == '"' then s.(inString := !s.inString)
    else if s.inString then s
    else if c == '{' then s.(depth := s.depth + 1)
    else if c == '}' then s.(depth := s.depth - 1)
    else s
  }

  function ScanText(s: Scan, t: string): Scan
    decreases |t|
  {
    if t == "" then s else ScanText(ScanChar(s, t[0]), t[1..])
  }

  lemma {:induction false} ScanConcat(s: Scan, t: string, u: string)
    ensures ScanText(s, t + u) == ScanText(ScanText(s, t), u)
    decreases |t|
  {
    if t == "" {
      assert t + u == u;
    } else {
      assert (t + u)[1..] == t[1..] + u;
      ScanConcat(ScanChar(s, t[0]), t[1..], u);
    }
  }

  lemma ScanSnoc(s: Scan, t: string, c: char)
    ensures ScanText(s, t + [c]) == ScanChar(ScanText(s, t), c)
  {
    ScanConcat(s, t, [c]);
    assert [c][1..] == "";
    assert ScanText(ScanText(s, t), [c]) == ScanText(ScanChar(ScanText(s, t), c), "");
  }

  /** The depth a scan starts from only shifts the depth it ends with. */
  lemma {:induction false} ScanShift(s: Scan, d: int, t: string)
    ensures ScanText(s.(depth := s.depth + d), t)
         == var r := ScanText(s, t); r.(depth := r.depth + d)
    decreases |t|
  {
    if t != "" {
      var s' := ScanChar(s, t[0]);
      assert ScanChar(s.(depth := s.depth + d), t[0]) == s'.(depth := s'.depth + d);
      ScanShift(s', d, t[1..]);
    }
  }

  /** Only inside a string can a character be escaped. */
  lemma {:induction false} ScanEscapes(s: Scan, t: string)
    requires s.escaped ==> s.inString
    ensures ScanText(s, t).escaped ==> ScanText(s, t).inString
    decreases |t|
  {
    if t != "" {
      ScanEscapes(ScanChar(s, t[0]), t[1..]);
    }
  }

  function BraceDepth(t: string): int {
    ScanText(START, t).depth
  }

  /** The scanning loop. */
  method CountBraces(s: string) returns (depth: int)
    ensures depth == BraceDepth(s)
  {
    depth := 0;
    var inString, escaped := false, false;
    var i := 0;
    while i < |s|
      invariant 0 <= i <= |s|
      invariant Scan(depth, inString, escaped) == ScanText(START, s[..i])
    {
      var c := s[i];
      assert s[..i + 1] == s[..i] + [c];
      ScanSnoc(START, s[..i], c);
      i := i + 1;
      if escaped {
        escaped := false;
        continue;
      }
      if c == '\\' && inString {
        escaped := true;
        continue;
      }
      if c == '"' {
        inString := !inString;
        continue;
      }
      if !inString {
        if c == '{' {
          depth := depth + 1;
        } else if c == '}' {
          depth := depth - 1;
        }
      }
    }
    assert s[..|s|] == s;
  }

  // ---------------------------------------------------------------------
  // Escaping

  function HexDigit(d: nat): (c: char)
    requires d < 16
  {
    "0123456789abcdef"[d]
  }

  /** How the JSON library writes one character of a string. */
  function EscapeChar(c: char): (r: string)
    ensures r != ""
  {
    if c == '"' then "\\\""
    else if c == '\\' then "\\\\"
    else if c == '\U{08}' then "\\b"
    else if c == '\U{0C}' then "\\f"
    else if c == '\n' then "\\n"
    else if c == '\r' then "\\r"
    else if c == '\t' then "\\t"
    else if c < ' ' then "\\u00" + [HexDigit(c as nat / 16), HexDigit(c as nat % 16)]
    else [c]
  }

  function Escape(s: string): string {
    if s == "" then "" else EscapeChar(s[0]) + Escape(s[1..])
  }

  function Quote(s: string): string {
    "\"" + Escape(s) + "\""
  }

  lemma {:induction false} EscapeConcat(s: string, t: string)
    ensures Escape(s + t) == Escape(s) + Escape(t)
  {
    if s == "" {
      assert s + t == t;
    } else {
      assert (s + t)[1..] == s[1..] + t;
      EscapeConcat(s[1..], t);
    }
  }

  /** A string cut short is escaped to a prefix of the whole string's escape. */
  lemma EscapePrefix(s: string, t: string)
    requires s <= t
    ensures Escape(s) <= Escape(t)
  {
    EscapeConcat(s, t[|s|..]);
    assert t == s + t[|s|..];
  }

  lemma ScanEscapeChar(d: int, c: char)
    ensures ScanText(Scan(d, true, false), EscapeChar(c)) == Scan(d, true, false)
  {
    var s := Scan(d, true, false);
    var e := EscapeChar(c);
    if e == [c] {
      assert ScanText(s, e) == ScanText(ScanChar(s, c), "");
    } else {
      assert e[0] == '\\';
      var s1 := s.(escaped := true);
      assert ScanText(s, e) == ScanText(s1, e[1..]);
      assert ScanText(s1, e[1..]) == ScanText(s, e[1..][1..]);
      if |e| == 2 {
        assert e[1..][1..] == "";
      } else {
        var h := [HexDigit(c as nat / 16), HexDigit(c as nat % 16)];
        assert e[1..][1..] == ['0', '0', h[0], h[1]];
        ScanPlain(s, ['0', '0', h[0], h[1]]);
      }
    }
  }

  predicate Plain(c: char) {
    c != '"' && c != '\\' && c != '{' && c != '}'
  }

  lemma {:induction false} ScanPlain(s: Scan, t: string)
    requires !s.escaped
    requires forall i :: 0 <= i < |t| ==> Plain(t[i])
    ensures ScanText(s, t) == s
  {
    if t != "" {
      assert Plain(t[0]);
      ScanPlain(s, t[1..]);
    }
  }

  /** Escaped text never leaves the string it is in, whatever it contains. */
  lemma {:induction false} ScanEscape(d: int, s: string)
    ensures ScanText(Scan(d, true, false), Escape(s)) == Scan(d, true, false)
  {
    if s != "" {
      ScanConcat(Scan(d, true, false), EscapeChar(s[0]), Escape(s[1..]));
      ScanEscapeChar(d, s[0]);
      ScanEscape(d, s[1..]);
    }
  }

  lemma ScanQuote(d: int, s: string)
    ensures ScanText(Scan(d, false, false), Quote(s)) == Scan(d, false, false)
  {
    var out, inside := Scan(d, false, false), Scan(d, true, false);
    ScanConcat(out, "\"" + Escape(s), "\"");
    ScanConcat(out, "\"", Escape(s));
    ScanSnoc(out, "", '"');
    assert "" + "\"" == "\"";
    ScanEscape(d, s);
    ScanSnoc(inside, "", '"');
  }

  // ---------------------------------------------------------------------
  // Reading strings back

  /** The character an escape stands for, and how much text it takes after the backslash. */
  function ReadEscape(t: string): (r: Option<(char, nat)>)
    ensures r.Some? ==> 0 < r.value.1 <= |t|
  {
    if t == "" then None
    else if t[0] == '"' || t[0] == '\\' || t[0] == '/' then Some((t[0], 1))
    else if t[0] == 'b' then Some(('\U{08}', 1))
    else if t[0] == 'f' then Some(('\U{0C}', 1))
    else if t[0] == 'n' then Some(('\n', 1))
    else if t[0] == 'r' then Some(('\r', 1))
    else if t[0] == 't' then Some(('\t', 1))
    else if t[0] == 'u' && |t| >= 5 then
      match (HexValue(t[1]), HexValue(t[2]), HexValue(t[3]), HexValue(t[4]))
      case (Some(a), Some(b), Some(c), Some(d)) =>
        var v := ((a * 16 + b) * 16 + c) * 16 + d;
        if v < 0xD800 || 0xE000 <= v < 0x10000 then Some((v as char, 5)) else None
      case _ => None
    else None
  }

  /** Reads string contents up to the closing quote; gives the rest of the text. */
  function ReadString(t: string): (r: Option<(string, string)>)
    ensures r.Some? ==> |r.value.1| < |t|
    decreases |t|
  {
    if t == "" then None
    else if t[0] == '"' then Some(("", t[1..]))
    else if t[0] == '\\' then
      match ReadEscape(t[1..])
      case None => None
      case Some((c, n)) =>
        match ReadString(t[1 + n..])
        case None => None
        case Some((s, rest)) => Some(([c] + s, rest))
    else if t[0] < ' ' then None
    else
      match ReadString(t[1..])
      case None => None
      case Some((s, rest)) => Some(([t[0]] + s, rest))
  }

  lemma HexRoundTrip(d: nat)
    requires d < 16
    ensures HexValue(HexDigit(d)) == Some(d)
  {
    if d < 10 {
      assert HexDigit(d) == '0' + d as char;
    } else {
      assert HexDigit(d) == 'a' + (d - 10) as char;
    }
  }

  lemma ReadControl(c: char, rest: string)
    requires c < ' '
    ensures ReadEscape("u00" + [HexDigit(c as nat / 16), HexDigit(c as nat % 16)] + rest) == Some((c, 5))
  {
    HexRoundTrip(c as nat / 16);
    HexRoundTrip(c as nat % 16);
    var t := "u00" + [HexDigit(c as nat / 16), HexDigit(c as nat % 16)] + rest;
    assert t[0] == 'u' && t[1] == '0' && t[2] == '0';
    assert t[3] == HexDigit(c as nat / 16) && t[4] == HexDigit(c as nat % 16);
    assert HexValue('0') == Some(0);
  }

  lemma ReadOneChar(c: char, rest: string)
    ensures ReadString(EscapeChar(c) + rest)
         == match ReadString(rest) { case None => None case Some((s, r)) => Some(([c] + s, r)) }
  {
    var e := EscapeChar(c);
    var t := e + rest;
    if e == [c] {
      assert t[1..] == rest;
    } else {
      assert t[0] == '\\';
      if |e| == 2 {
        assert t[1..] == [e[1]] + rest;
        assert ReadEscape(t[1..]) == Some((c, 1));
        assert t[1 + 1..] == rest;
      } else {
        ReadControl(c, rest);
        assert t[1..] == "u00" + [HexDigit(c as nat / 16), HexDigit(c as nat % 16)] + rest;
        assert t[1 + 5..] == rest;
      }
    }
  }

  /** Reading undoes escaping for every string. */
  lemma {:induction false} ReadEscaped(s: string, rest: string)
    ensures ReadString(Escape(s) + "\"" + rest) == Some((s, rest))
  {
    if s == "" {
      assert (Escape(s) + "\"" + rest)[1..] == rest;
    } else {
      ReadEscaped(s[1..], rest);
      assert Escape(s) + "\"" + rest == EscapeChar(s[0]) + (Escape(s[1..]) + "\"" + rest);
      ReadOneChar(s[0], Escape(s[1..]) + "\"" + rest);
      assert [s[0]] + s[1..] == s;
    }
  }

  /** The characters with a two-character escape, and the second character of each (section 7 of RFC 8259). */
  const ESCAPED := "\"\\\U{08}\U{0C}\n\r\t"
  const LETTERS := "\"\\bfnrt"

  /** Quote, backslash and five controls are escaped by a letter, other controls by their code in four digits, and
      nothing else is escaped. */
  lemma EscapedAs(c: char)
    ensures forall i :: 0 <= i < |ESCAPED| && c == ESCAPED[i] ==> Escape([c]) == ['\\', LETTERS[i]]
    ensures c !in ESCAPED && c < ' ' ==> exists a, b ::
      Escape([c]) == ['\\', 'u', '0', '0', a, b] && HexValue(a) == Some(c as nat / 16) && HexValue(b) == Some(c as nat % 16)
    ensures c !in ESCAPED && c >= ' ' ==> Escape([c]) == [c]
  {
    assert Escape([c][1..]) == "";
    assert Escape([c]) == EscapeChar(c);
    if c !in ESCAPED && c < ' ' {
      HexRoundTrip(c as nat / 16);
      HexRoundTrip(c as nat % 16);
      CodeWritten(c);
    }
  }

  lemma CodeWritten(c: char)
    requires c !in ESCAPED && c < ' '
    ensures EscapeChar(c) == ['\\', 'u', '0', '0', HexDigit(c as nat / 16), HexDigit(c as nat % 16)]
  {
    assert ESCAPED[0] == '"' && ESCAPED[1] == '\\' && ESCAPED[2] == '\U{08}' && ESCAPED[3] == '\U{0C}';
    assert ESCAPED[4] == '\n' && ESCAPED[5] == '\r' && ESCAPED[6] == '\t';
  }
}
