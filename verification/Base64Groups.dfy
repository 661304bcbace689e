/** Base64 text by groups of three bytes, as in section 4 of RFC 4648, with the two alphabets written out. */
module Base64Groups {

  import opened Basics
  import opened Base64
  import opened Base64Laws

  const STANDARD := CAPITALS + SMALLS + NUMERALS + "+/"
  const URL_SAFE := CAPITALS + SMALLS + NUMERALS + "-_"

  function Letter(a: Alphabet, v: Sextet): int {
    (if a == UrlSafe then URL_SAFE else STANDARD)[v] as int
  }

  /** The 24 bits of a group, six at a time. */
  function Group(a: Alphabet, x: Byte, y: Byte, z: Byte): (t: seq<int>)
    ensures |t| == 4
  {
    var n := x * 0x10000 + y * 0x100 + z;
    [Letter(a, n / 0x40000), Letter(a, n / 0x1000 % 0x40), Letter(a, n / 0x40 % 0x40), Letter(a, n % 0x40)]
  }

  /** A last group of one or two bytes is filled with zeros, and padded. */
  function Groups(a: Alphabet, s: seq<Byte>): seq<int> {
    if s == [] then []
    else if |s| == 1 then Group(a, s[0], 0, 0)[..2] + [PAD, PAD]
    else if |s| == 2 then Group(a, s[0], s[1], 0)[..3] + [PAD]
    else Group(a, s[0], s[1], s[2]) + Groups(a, s[3..])
  }

  lemma LetterCounts()
    ensures |CAPITALS| == 26 && |SMALLS| == 26 && |NUMERALS| == 10
  {
  }

  lemma LetterAt(a: Alphabet, v: Sextet)
    ensures v < 26 ==> Letter(a, v) == CAPITALS[v] as int
    ensures 26 <= v < 52 ==> Letter(a, v) == SMALLS[v - 26] as int
    ensures 52 <= v < 62 ==> Letter(a, v) == NUMERALS[v - 52] as int
    ensures v >= 62 ==> Letter(a, v) == (if a == UrlSafe then "-_" else "+/")[v - 62] as int
  {
    LetterCounts();
    hide CAPITALS, SMALLS, NUMERALS;
  }

  lemma SymbolIs(a: Alphabet, v: Sextet)
    ensures Symbol(a, v) == Letter(a, v)
  {
    hide Letter;
    LetterAt(a, v);
    InOrder(if v < 26 then v else if v < 52 then v - 26 else v - 52);
    LetterCounts();
    hide CAPITALS, SMALLS, NUMERALS;
  }

  lemma GroupIs(a: Alphabet, x: Byte, y: Byte, z: Byte)
    ensures Group(a, x, y, z) == Text(a, [Lead(x), Second(x, y), Third(y, z), Final(z)])
  {
    hide Symbol, Letter, Lead, Second, Third, Final;
    Sixes(x, y, z, x * 0x10000 + y * 0x100 + z);
    SymbolIs(a, Lead(x));
    SymbolIs(a, Second(x, y));
    SymbolIs(a, Third(y, z));
    SymbolIs(a, Final(z));
  }

  lemma Sixes(x: Byte, y: Byte, z: Byte, n: int)
    requires n == x * 0x10000 + y * 0x100 + z
    ensures n / 0x40000 == Lead(x) && n / 0x1000 % 0x40 == Second(x, y)
    ensures n / 0x40 % 0x40 == Third(y, z) && n % 0x40 == Final(z)
  {
    TopSixes(x, y, z, n);
    LowSixes(x, y, z, n);
  }

  lemma TopSixes(x: Byte, y: Byte, z: Byte, n: int)
    requires n == x * 0x10000 + y * 0x100 + z
    ensures n / 0x40000 == Lead(x) && n / 0x1000 % 0x40 == Second(x, y)
  {
    var top := x * 16 + y / 16;
    assert n == top * 0x1000 + (y % 16 * 0x100 + z);
  }

  lemma LowSixes(x: Byte, y: Byte, z: Byte, n: int)
    requires n == x * 0x10000 + y * 0x100 + z
    ensures n / 0x40 % 0x40 == Third(y, z) && n % 0x40 == Final(z)
  {
    var top := x * 1024 + y * 4 + z / 64;
    assert n == top * 0x40 + z % 64;
    assert top == (x * 16 + y / 16) * 64 + Third(y, z);
  }

  lemma TextJoined(a: Alphabet, v: seq<Sextet>, w: seq<Sextet>)
    ensures Text(a, v + w) == Text(a, v) + Text(a, w)
  {
  }

  lemma ShortText(a: Alphabet, v: seq<Sextet>, k: nat)
    requires k <= |v|
    ensures Text(a, v)[..k] == Text(a, v[..k])
  {
  }

  lemma {:induction false} GroupsFrom(a: Alphabet, s: seq<Byte>, i: nat, v: seq<Sextet>)
    requires Underway(s, i, v)
    ensures Encoded(a, s) == Text(a, v) + Groups(a, s[i..])
    decreases |s| - i
  {
    hide Text, Sextets, Number, Symbol, Letter, Group, Lead, Second, Third, Final;
    if i == |s| {
      NoEnd(s, v);
    } else if i + 1 == |s| {
      LastOne(a, s, i, v);
    } else if i + 2 == |s| {
      LastTwo(a, s, i, v);
    } else {
      var w := [Lead(s[i]), Second(s[i], s[i + 1]), Third(s[i + 1], s[i + 2]), Final(s[i + 2])];
      WholeGroup(s, i, v, w[0], w[1], w[2], w[3]);
      GroupsFrom(a, s, i + 3, v + w);
      GroupIs(a, s[i], s[i + 1], s[i + 2]);
      TextJoined(a, v, w);
      assert s[i..][3..] == s[i + 3..];
    }
  }

  lemma LastOne(a: Alphabet, s: seq<Byte>, i: nat, v: seq<Sextet>)
    requires i + 1 == |s| && Underway(s, i, v)
    ensures Encoded(a, s) == Text(a, v) + Groups(a, s[i..])
  {
    hide Text, Sextets, Number, Symbol, Letter, Group, Underway, Lead, Second, Third, Final;
    var all := [Lead(s[i]), Second(s[i], 0), Third(0, 0), Final(0)];
    SingleEnd(s, i, v, all[0], all[1]);
    GroupIs(a, s[i], 0, 0);
    assert all[..2] == [all[0], all[1]];
    ShortText(a, all, 2);
    TextJoined(a, v, all[..2]);
  }

  lemma LastTwo(a: Alphabet, s: seq<Byte>, i: nat, v: seq<Sextet>)
    requires i + 2 == |s| && Underway(s, i, v)
    ensures Encoded(a, s) == Text(a, v) + Groups(a, s[i..])
  {
    hide Text, Sextets, Number, Symbol, Letter, Group, Underway, Lead, Second, Third, Final;
    var all := [Lead(s[i]), Second(s[i], s[i + 1]), Third(s[i + 1], 0), Final(0)];
    PairEnd(s, i, v, all[0], all[1], all[2]);
    GroupIs(a, s[i], s[i + 1], 0);
    assert all[..3] == [all[0], all[1], all[2]];
    ShortText(a, all, 3);
    TextJoined(a, v, all[..3]);
  }

  /** What is encoded is written group by group. */
  lemma EncodedByGroups(a: Alphabet, s: seq<Byte>)
    ensures Encoded(a, s) == Groups(a, s)
  {
    GroupsFrom(a, s, 0, []);
    assert s[0..] == s;
  }

  /** Characters of the alphabet `a`, then something else. */
  predicate Lettered(a: Alphabet, t: seq<Byte>, v: seq<Sextet>, tail: seq<Byte>) {
    && |t| == |v| + |tail| && t[|v|..] == tail && (forall i :: 0 <= i < |v| ==> t[i] == Letter(a, v[i]))
    && (tail == [] || forall x: Sextet :: Letter(a, x) != tail[0])
  }

  /** Behind the characters of its alphabet, loose decoding accepts the end or a pad and then anything, moderate
      decoding nothing but pads; both give the bytes that the characters hold. */
  lemma DecodedWhere(a: Alphabet, t: seq<Byte>, v: seq<Sextet>, tail: seq<Byte>)
    requires a != Auto && Lettered(a, t, v, tail)
    ensures Decoded(a, t, Loose) == if tail == [] || tail[0] == PAD then Some(Bytes(v)) else None
    ensures Decoded(a, t, Moderate) == if forall i :: 0 <= i < |tail| ==> tail[i] == PAD then Some(Bytes(v)) else None
  {
    hide Symbol, Letter;
    LetteredText(a, t, v);
    if tail != [] && tail[0] != PAD && Value(a, tail[0]).Some? {
      var x := Value(a, tail[0]).value.1;
      ValueSymbol(a, tail[0]);
      SymbolIs(a, x);
    }
    ReadText(a, a, v, tail, t);
  }

  lemma LetteredText(a: Alphabet, t: seq<Byte>, v: seq<Sextet>)
    requires |v| <= |t| && forall i :: 0 <= i < |v| ==> t[i] == Letter(a, v[i])
    ensures t == Text(a, v) + t[|v|..]
  {
    hide Symbol, Letter;
    forall i | 0 <= i < |v| ensures t[i] == Symbol(a, v[i]) {
      SymbolIs(a, v[i]);
    }
  }
}
