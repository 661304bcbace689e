/** JSON values, their compact serialisation, and a reader that inverts it. */
module JsonValue {
  import opened Basics
  import opened JsonText

  /** Numbers, booleans and null keep the text they were written with. */
  datatype Json =
    | Token(text: string)
    | Str(s: string)
    | Arr(items: seq<Json>)
    | Obj(members: seq<Member>)

  datatype Member = Member(key: string, value: Json)

  predicate TokenChar(c: char) {
    '0' <= c <= '9' || 'a' <= c <= 'z' || 'A' <= c <= 'Z' || c == '+' || c == '-' || c == '.'
  }

  predicate IsToken(t: string) {
    t != "" && forall i :: 0 <= i < |t| ==> TokenChar(t[i])
  }

  predicate WellFormed(v: Json)
    decreases v, 1
  {
    match v
    case Token(t) => IsToken(t)
    case Str(_) => true
    case Arr(vs) => forall i :: 0 <= i < |vs| ==> WellFormed(vs[i])
    case Obj(ms) => forall i :: 0 <= i < |ms| ==> WellFormed(ms[i].value)
  }

  function Serialize(v: Json): string
    decreases v, 1
  {
    match v
    case Token(t) => t
    case Str(s) => Quote(s)
    case Arr(vs) => "[" + SerializeItems(vs) + "]"
    case Obj(ms) => "{" + SerializeMembers(ms) + "}"
  }

  /** The items joined by commas. */
  function SerializeItems(vs: seq<Json>): string
    decreases vs, 0
  {
    if vs == [] then ""
    else if |vs| == 1 then Serialize(vs[0])
    else SerializeItems(vs[..|vs| - 1]) + "," + Serialize(vs[|vs| - 1])
  }

  function SerializeMember(m: Member): string
    decreases m, 0
  {
    Quote(m.key) + ":" + Serialize(m.value)
  }

  function SerializeMembers(ms: seq<Member>): string
    decreases ms, 0
  {
    if ms == [] then ""
    else if |ms| == 1 then SerializeMember(ms[0])
    else SerializeMembers(ms[..|ms| - 1]) + "," + SerializeMember(ms[|ms| - 1])
  }

  // ---------------------------------------------------------------------
  // Serialised values are balanced

  lemma TokensArePlain(t: string)
    requires IsToken(t)
    ensures forall i :: 0 <= i < |t| ==> Plain(t[i])
  {
    forall i | 0 <= i < |t| ensures Plain(t[i]) {
      assert TokenChar(t[i]);
    }
  }

  /** Scanning `a + b` when scanning `a` gets back to a resting state. */
  lemma ScanTwo(d: int, a: string, b: string)
    requires ScanText(Scan(d, false, false), a) == Scan(d, false, false)
    ensures ScanText(Scan(d, false, false), a + b) == ScanText(Scan(d, false, false), b)
  {
    ScanConcat(Scan(d, false, false), a, b);
  }

  lemma ScanOne(d: int, c: char)
    requires c != '"'
    ensures ScanText(Scan(d, false, false), [c])
         == Scan(if c == '{' then d + 1 else if c == '}' then d - 1 else d, false, false)
  {
    ScanSnoc(Scan(d, false, false), "", c);
    assert "" + [c] == [c];
  }

  lemma ScanEnclosed(d: int, open: char, body: string, close: char)
    requires (open == '{' && close == '}') || (open == '[' && close == ']')
    requires var e := if open == '{' then d + 1 else d;
             ScanText(Scan(e, false, false), body) == Scan(e, false, false)
    ensures ScanText(Scan(d, false, false), [open] + body + [close]) == Scan(d, false, false)
  {
    var e := if open == '{' then d + 1 else d;
    ScanOne(d, open);
    ScanConcat(Scan(d, false, false), [open] + body, [close]);
    ScanConcat(Scan(d, false, false), [open], body);
    ScanOne(e, close);
  }

  lemma ScanJoined(d: int, a: string, b: string)
    requires ScanText(Scan(d, false, false), a) == Scan(d, false, false)
    requires ScanText(Scan(d, false, false), b) == Scan(d, false, false)
    ensures ScanText(Scan(d, false, false), a + "," + b) == Scan(d, false, false)
  {
    ScanTwo(d, a, ",");
    ScanOne(d, ',');
    ScanTwo(d, a + ",", b);
  }

  /** Every serialised value leaves the brace scanner where it found it. */
  lemma {:induction false} SerializeBalanced(d: int, v: Json)
    requires WellFormed(v)
    ensures ScanText(Scan(d, false, false), Serialize(v)) == Scan(d, false, false)
    decreases v, 1
  {
    match v
    case Token(t) =>
      TokensArePlain(t);
      ScanPlain(Scan(d, false, false), t);
    case Str(s) =>
      ScanQuote(d, s);
    case Arr(vs) =>
      ItemsBalanced(d, vs);
      ScanEnclosed(d, '[', SerializeItems(vs), ']');
    case Obj(ms) =>
      MembersBalanced(d + 1, ms);
      ScanEnclosed(d, '{', SerializeMembers(ms), '}');
  }

  lemma {:induction false} ItemsBalanced(d: int, vs: seq<Json>)
    requires forall i :: 0 <= i < |vs| ==> WellFormed(vs[i])
    ensures ScanText(Scan(d, false, false), SerializeItems(vs)) == Scan(d, false, false)
    decreases vs, 0
  {
    if |vs| == 1 {
      SerializeBalanced(d, vs[0]);
    } else if |vs| > 1 {
      var n := |vs| - 1;
      ItemsBalanced(d, vs[..n]);
      SerializeBalanced(d, vs[n]);
      ScanJoined(d, SerializeItems(vs[..n]), Serialize(vs[n]));
    }
  }

  lemma MemberBalanced(d: int, m: Member)
    requires ScanText(Scan(d, false, false), Serialize(m.value)) == Scan(d, false, false)
    ensures ScanText(Scan(d, false, false), SerializeMember(m)) == Scan(d, false, false)
  {
    ScanQuote(d, m.key);
    ScanTwo(d, Quote(m.key), ":");
    ScanOne(d, ':');
    ScanTwo(d, Quote(m.key) + ":", Serialize(m.value));
  }

  lemma {:induction false} MembersBalanced(d: int, ms: seq<Member>)
    requires forall i :: 0 <= i < |ms| ==> WellFormed(ms[i].value)
    ensures ScanText(Scan(d, false, false), SerializeMembers(ms)) == Scan(d, false, false)
    decreases ms, 0
  {
    if |ms| >= 1 {
      var n := |ms| - 1;
      SerializeBalanced(d, ms[n].value);
      MemberBalanced(d, ms[n]);
      if n > 0 {
        MembersBalanced(d, ms[..n]);
        ScanJoined(d, SerializeMembers(ms[..n]), SerializeMember(ms[n]));
      }
    }
  }

  // ---------------------------------------------------------------------
  // The reader

  function TokenLength(t: string): (n: nat)
    ensures n <= |t|
  {
    if t == "" || !TokenChar(t[0]) then 0 else 1 + TokenLength(t[1..])
  }

  /** Reads one value from the front of compact JSON text; gives the rest. */
  function ReadValue(t: string): (r: Option<(Json, string)>)
    ensures r.Some? ==> |r.value.1| < |t|
    decreases |t|, 1
  {
    if t == "" then None
    else if t[0] == '"' then
      match ReadString(t[1..])
      case None => None
      case Some((s, rest)) => Some((Str(s), rest))
    else if t[0] == '[' then
      if |t| > 1 && t[1] == ']' then Some((Arr([]), t[2..]))
      else match ReadItems(t[1..])
           case None => None
           case Some((vs, rest)) => Some((Arr(vs), rest))
    else if t[0] == '{' then
      if |t| > 1 && t[1] == '}' then Some((Obj([]), t[2..]))
      else match ReadMembers(t[1..])
           case None => None
           case Some((ms, rest)) => Some((Obj(ms), rest))
    else
      var n := TokenLength(t);
      if n == 0 then None else Some((Token(t[..n]), t[n..]))
  }

  /** One or more values separated by commas and ended by a bracket. */
  function ReadItems(t: string): (r: Option<(seq<Json>, string)>)
    ensures r.Some? ==> |r.value.1| < |t|
    decreases |t|, 2
  {
    match ReadValue(t)
    case None => None
    case Some((v, rest)) =>
      if rest == "" then None
      else if rest[0] == ']' then Some(([v], rest[1..]))
      else if rest[0] == ',' then
        match ReadItems(rest[1..])
        case None => None
        case Some((vs, end)) => Some(([v] + vs, end))
      else None
  }

  function ReadMember(t: string): (r: Option<(Member, string)>)
    ensures r.Some? ==> |r.value.1| < |t|
    decreases |t|, 2
  {
    if t == "" || t[0] != '"' then None
    else match ReadString(t[1..])
         case None => None
         case Some((k, rest)) =>
           if rest == "" || rest[0] != ':' then None
           else match ReadValue(rest[1..])
                case None => None
                case Some((v, end)) => Some((Member(k, v), end))
  }

  /** One or more members separated by commas and ended by a brace. */
  function ReadMembers(t: string): (r: Option<(seq<Member>, string)>)
    ensures r.Some? ==> |r.value.1| < |t|
    decreases |t|, 3
  {
    match ReadMember(t)
    case None => None
    case Some((m, rest)) =>
      if rest == "" then None
      else if rest[0] == '}' then Some(([m], rest[1..]))
      else if rest[0] == ',' then
        match ReadMembers(rest[1..])
        case None => None
        case Some((ms, end)) => Some(([m] + ms, end))
      else None
  }

  // ---------------------------------------------------------------------
  // Reading inverts serialising

  predicate EndsToken(rest: string) {
    rest == "" || !TokenChar(rest[0])
  }

  lemma {:induction false} TokenLengthExact(t: string, rest: string)
    requires forall i :: 0 <= i < |t| ==> TokenChar(t[i])
    requires EndsToken(rest)
    ensures TokenLength(t + rest) == |t|
  {
    if t == "" {
      assert t + rest == rest;
    } else {
      assert TokenChar(t[0]);
      assert (t + rest)[1..] == t[1..] + rest;
      TokenLengthExact(t[1..], rest);
    }
  }

  /** The first item, then the others, each behind its comma: the order in which the text is read. */
  lemma {:induction false} ItemsFromFront(vs: seq<Json>)
    requires |vs| > 1
    ensures SerializeItems(vs) == Serialize(vs[0]) + "," + SerializeItems(vs[1..])
    decreases |vs|
  {
    var n := |vs| - 1;
    if n > 1 {
      ItemsFromFront(vs[..n]);
      assert vs[..n][1..] == vs[1..][..n - 1];
      assert vs[1..][n - 1] == vs[n];
    } else {
      assert vs[..n] == [vs[0]] && vs[1..] == [vs[1]];
    }
  }

  lemma {:induction false} MembersFromFront(ms: seq<Member>)
    requires |ms| > 1
    ensures SerializeMembers(ms) == SerializeMember(ms[0]) + "," + SerializeMembers(ms[1..])
    decreases |ms|
  {
    hide SerializeMember;
    var n := |ms| - 1;
    if n > 1 {
      MembersFromFront(ms[..n]);
      assert ms[..n][1..] == ms[1..][..n - 1];
      assert ms[1..][n - 1] == ms[n];
    } else {
      assert ms[..n] == [ms[0]] && ms[1..] == [ms[1]];
    }
  }

  lemma SerializeStart(v: Json)
    requires WellFormed(v)
    ensures Serialize(v) != "" && Serialize(v)[0] != ']' && Serialize(v)[0] != '}'
  {
    if v.Token? {
      assert TokenChar(v.text[0]);
    }
  }

  /** The reader recovers every well-formed value from its serialisation. */
  lemma {:induction false} ReadSerialized(v: Json, rest: string)
    requires WellFormed(v)
    requires EndsToken(rest)
    ensures ReadValue(Serialize(v) + rest) == Some((v, rest))
    decreases v, 1
  {
    match v
    case Token(t) => ReadToken(t, rest);
    case Str(s) => ReadQuoted(s, rest);
    case Arr(vs) =>
      if vs != [] {
        ReadItemsSerialized(vs, rest);
        ItemsStart(vs);
      }
      ReadArray(vs, SerializeItems(vs), rest);
    case Obj(ms) =>
      if ms != [] {
        ReadMembersSerialized(ms, rest);
        MembersStart(ms);
      }
      ReadObject(ms, SerializeMembers(ms), rest);
  }

  lemma ReadQuoted(s: string, rest: string)
    ensures ReadValue(Quote(s) + rest) == Some((Str(s), rest))
  {
    assert (Quote(s) + rest)[1..] == Escape(s) + "\"" + rest;
    ReadEscaped(s, rest);
  }

  lemma ReadArray(vs: seq<Json>, body: string, rest: string)
    requires if vs == [] then body == ""
             else body != "" && body[0] != ']' && ReadItems(body + "]" + rest) == Some((vs, rest))
    ensures ReadValue("[" + body + "]" + rest) == Some((Arr(vs), rest))
  {
    var text := "[" + body + "]" + rest;
    assert text[1..] == body + "]" + rest;
    assert vs == [] ==> text[1] == ']' && text[2..] == rest;
    assert vs != [] ==> text[1] == body[0];
  }

  lemma ReadObject(ms: seq<Member>, body: string, rest: string)
    requires if ms == [] then body == ""
             else body != "" && body[0] != '}' && ReadMembers(body + "}" + rest) == Some((ms, rest))
    ensures ReadValue("{" + body + "}" + rest) == Some((Obj(ms), rest))
  {
    var text := "{" + body + "}" + rest;
    assert text[1..] == body + "}" + rest;
    assert ms == [] ==> text[1] == '}' && text[2..] == rest;
    assert ms != [] ==> text[1] == body[0];
  }

  lemma ReadToken(t: string, rest: string)
    requires IsToken(t) && EndsToken(rest)
    ensures ReadValue(t + rest) == Some((Token(t), rest))
  {
    TokenLengthExact(t, rest);
    assert TokenChar(t[0]);
    assert (t + rest)[..|t|] == t && (t + rest)[|t|..] == rest;
  }

  lemma ItemsStart(vs: seq<Json>)
    requires vs != [] && WellFormed(vs[0])
    ensures SerializeItems(vs) != "" && SerializeItems(vs)[0] != ']'
  {
    SerializeStart(vs[0]);
    if |vs| > 1 {
      ItemsFromFront(vs);
    }
  }

  lemma MembersStart(ms: seq<Member>)
    requires ms != []
    ensures SerializeMembers(ms) != "" && SerializeMembers(ms)[0] == '"'
  {
    if |ms| > 1 {
      MembersFromFront(ms);
    }
  }

  /** One reading step of a list: a value's text, then the closing bracket or the other items. */
  lemma ReadItemsStep(v: Json, text: string, vs: seq<Json>, body: string, rest: string)
    requires var tail := if vs == [] then "]" + rest else "," + (body + "]" + rest);
             ReadValue(text + tail) == Some((v, tail))
    requires vs != [] ==> ReadItems(body + "]" + rest) == Some((vs, rest))
    ensures ReadItems((if vs == [] then text else text + "," + body) + "]" + rest) == Some(([v] + vs, rest))
  {
    hide ReadValue;
    if vs == [] {
      assert text + "]" + rest == text + ("]" + rest);
      assert ("]" + rest)[1..] == rest;
      assert [v] + vs == [v];
    } else {
      assert text + "," + body + "]" + rest == text + ("," + (body + "]" + rest));
      assert ("," + (body + "]" + rest))[1..] == body + "]" + rest;
    }
  }

  lemma {:induction false} ReadItemsSerialized(vs: seq<Json>, rest: string)
    requires vs != []
    requires forall i :: 0 <= i < |vs| ==> WellFormed(vs[i])
    ensures ReadItems(SerializeItems(vs) + "]" + rest) == Some((vs, rest))
    decreases vs, 0
  {
    if |vs| > 1 {
      ItemsFromFront(vs);
      ReadItemsSerialized(vs[1..], rest);
      ReadSerialized(vs[0], "," + (SerializeItems(vs[1..]) + "]" + rest));
    } else {
      ReadSerialized(vs[0], "]" + rest);
    }
    ReadItemsStep(vs[0], Serialize(vs[0]), vs[1..], SerializeItems(vs[1..]), rest);
    assert vs == [vs[0]] + vs[1..];
  }

  lemma ReadMemberFrom(t: string, k: string, colon: string, more: string, v: Json, rest: string)
    requires t != "" && t[0] == '"' && ReadString(t[1..]) == Some((k, colon))
    requires colon != "" && colon[0] == ':' && colon[1..] == more && ReadValue(more) == Some((v, rest))
    ensures ReadMember(t) == Some((Member(k, v), rest))
  {
  }

  lemma ReadMemberText(k: string, v: Json, text: string, rest: string)
    requires ReadValue(text + rest) == Some((v, rest))
    ensures ReadMember(Quote(k) + ":" + text + rest) == Some((Member(k, v), rest))
  {
    var whole := Quote(k) + ":" + text + rest;
    ReadKey(k, text + rest);
    assert whole == Quote(k) + (":" + (text + rest));
    ReadMemberFrom(whole, k, ":" + (text + rest), text + rest, v, rest);
  }

  lemma {:induction false} ReadKey(k: string, more: string)
    ensures var whole := Quote(k) + (":" + more);
            whole[0] == '"' && ReadString(whole[1..]) == Some((k, ":" + more))
  {
    var whole := Quote(k) + (":" + more);
    assert whole[1..] == Escape(k) + "\"" + (":" + more);
    ReadEscaped(k, ":" + more);
  }

  lemma ReadLastMember(t: string, m: Member, tail: string, rest: string)
    requires ReadMember(t) == Some((m, tail)) && tail != "" && tail[0] == '}' && tail[1..] == rest
    ensures ReadMembers(t) == Some(([m], rest))
  {
  }

  lemma ReadMoreMembers(t: string, m: Member, tail: string, ms: seq<Member>, rest: string)
    requires ReadMember(t) == Some((m, tail)) && tail != "" && tail[0] == ','
    requires ReadMembers(tail[1..]) == Some((ms, rest))
    ensures ReadMembers(t) == Some(([m] + ms, rest))
  {
  }

  lemma ReadMembersStep(m: Member, text: string, ms: seq<Member>, body: string, rest: string)
    requires var tail := if ms == [] then "}" + rest else "," + (body + "}" + rest);
             ReadMember(text + tail) == Some((m, tail))
    requires ms != [] ==> ReadMembers(body + "}" + rest) == Some((ms, rest))
    ensures ReadMembers((if ms == [] then text else text + "," + body) + "}" + rest) == Some(([m] + ms, rest))
  {
    if ms == [] {
      assert text + "}" + rest == text + ("}" + rest);
      ReadLastMember(text + ("}" + rest), m, "}" + rest, rest);
      assert [m] + ms == [m];
    } else {
      var tail := "," + (body + "}" + rest);
      assert text + "," + body + "}" + rest == text + tail;
      assert tail[1..] == body + "}" + rest;
      ReadMoreMembers(text + tail, m, tail, ms, rest);
    }
  }

  lemma {:induction false} ReadMembersSerialized(ms: seq<Member>, rest: string)
    requires ms != []
    requires forall i :: 0 <= i < |ms| ==> WellFormed(ms[i].value)
    ensures ReadMembers(SerializeMembers(ms) + "}" + rest) == Some((ms, rest))
    decreases ms, 0
  {
    var tail := if |ms| == 1 then "}" + rest else "," + (SerializeMembers(ms[1..]) + "}" + rest);
    if |ms| > 1 {
      MembersFromFront(ms);
      ReadMembersSerialized(ms[1..], rest);
    }
    ReadSerialized(ms[0].value, tail);
    ReadMemberText(ms[0].key, ms[0].value, Serialize(ms[0].value), tail);
    ReadMembersStep(ms[0], SerializeMember(ms[0]), ms[1..], SerializeMembers(ms[1..]), rest);
    assert ms == [ms[0]] + ms[1..];
  }
}
