/** Laws of base64: round trips both ways, sizes, and alphabet detection. */
module Base64Laws {

  import opened Basics
  import opened Base64

  /** The alphabet that text is written in. */
  function Writing(a: Alphabet): Alphabet {
    if a == UrlSafe then UrlSafe else Standard
  }

  // ---------------------------------------------------------------------
  // Decoding what was encoded

  /** The sextets write the bytes' number, with zeros in the spare bits. */
  lemma {:induction false} SextetsNumber(s: seq<Byte>, i: nat, v: seq<Sextet>)
    requires Underway(s, i, v)
    ensures Number(Sextets(s), R64) == Filled(Number(s, R256), |Sextets(s)|)
    decreases |s| - i
  {
    if i == |s| {
      NoEnd(s, v);
      assert s[..i] == s;
    } else if i + 1 == |s| {
      SingleEnd(s, i, v, Lead(s[i]), Second(s[i], 0));
      SingleNumber(s, i, v, Lead(s[i]), Second(s[i], 0));
    } else if i + 2 == |s| {
      PairEnd(s, i, v, Lead(s[i]), Second(s[i], s[i + 1]), Third(s[i + 1], 0));
      PairNumber(s, i, v, Lead(s[i]), Second(s[i], s[i + 1]), Third(s[i + 1], 0));
    } else {
      var v0, v1, v2, v3 := Lead(s[i]), Second(s[i], s[i + 1]), Third(s[i + 1], s[i + 2]), Final(s[i + 2]);
      WholeGroup(s, i, v, v0, v1, v2, v3);
      SextetsNumber(s, i + 3, v + [v0, v1, v2, v3]);
    }
  }

  lemma Lengths(n: nat, k: nat)
    requires k == (4 * n + 2) / 3
    ensures 3 * k / 4 == n && k % 4 != 1
    ensures |Pads(k)| + k == RequiredEncodeSize(n)
  {
    var q, r := n / 3, n % 3;
    assert n == 3 * q + r;
    assert k == 4 * q + (if r == 0 then 0 else if r == 1 then 2 else 3);
    PhaseOf(q, 4 * q);
  }

  lemma DropFilled(x: int, n: nat)
    ensures Dropped(Filled(x, n), n) == x
  {
  }

  lemma BytesOfSextets(s: seq<Byte>)
    ensures Bytes(Sextets(s)) == s
  {
    var v := Sextets(s);
    SextetsNumber(s, 0, []);
    DropFilled(Number(s, R256), |v|);
    Lengths(|s|, |v|);
    DigitsOfNumber(s, R256);
  }

  lemma SymbolValue(a: Alphabet, a': Alphabet, x: Sextet)
    requires a' == Auto || a' == Writing(a)
    ensures Symbol(a, x) != PAD && Value(a', Symbol(a, x)).Some?
    ensures var r := Value(a', Symbol(a, x)).value; r.1 == x && (r.0 == Auto || r.0 == Writing(a))
  {
  }

  function Next(x: Sextet, r: Reading): Reading {
    Reading([x] + r.v, r.rest)
  }

  lemma ReadNext(a: Alphabet, t: seq<Byte>, a': Alphabet, x: Sextet)
    requires t != [] && t[0] != PAD && Value(a, t[0]) == Some((a', x))
    ensures Read(a, t) == Next(x, Read(a', t[1..]))
  {
  }

  lemma ReadNone(a: Alphabet, t: seq<Byte>)
    requires t == [] || t[0] == PAD || Value(a, t[0]).None?
    ensures Read(a, t) == Reading([], t)
  {
  }

  lemma TextRest(a: Alphabet, v: seq<Sextet>, pads: seq<Byte>, t: seq<Byte>)
    requires v != [] && t == Text(a, v) + pads
    ensures t != [] && t[0] == Symbol(a, v[0]) && t[1..] == Text(a, v[1..]) + pads
  {
  }

  lemma NextIs(v: seq<Sextet>, pads: seq<Byte>)
    requires v != []
    ensures Next(v[0], Reading(v[1..], pads)) == Reading(v, pads)
  {
    assert [v[0]] + v[1..] == v;
  }

  /** Reading text gives back the sextets it was written from. */
  lemma {:induction false} ReadText(a: Alphabet, a': Alphabet, v: seq<Sextet>, pads: seq<Byte>, t: seq<Byte>)
    requires a' == Auto || a' == Writing(a)
    requires pads == [] || pads[0] == PAD || (a' == Writing(a) && Value(a', pads[0]).None?)
    requires t == Text(a, v) + pads
    ensures Read(a', t) == Reading(v, pads)
    decreases |v|
  {
    if v == [] {
      assert t == pads;
      ReadNone(a', t);
    } else {
      SymbolValue(a, a', v[0]);
      TextRest(a, v, pads, t);
      var next := Value(a', t[0]).value.0;
      ReadNext(a', t, next, v[0]);
      ReadText(a, next, v[1..], pads, t[1..]);
      NextIs(v, pads);
    }
  }

  lemma PadsEnd(k: nat, b: Behavior)
    ensures Ending(Pads(k), b)
  {
  }

  /** Decoding inverts encoding, in the alphabet of the text or with detection. */
  lemma RoundTrip(a: Alphabet, a': Alphabet, s: seq<Byte>, b: Behavior)
    requires a' == Auto || a' == Writing(a)
    ensures Decoded(a', Encoded(a, s), b) == Some(s)
  {
    var v := Sextets(s);
    ReadText(a, a', v, Pads(|v|), Encoded(a, s));
    PadsEnd(|v|, b);
    BytesOfSextets(s);
  }

  // ---------------------------------------------------------------------
  // Sizes

  lemma EncodedSize(a: Alphabet, s: seq<Byte>)
    ensures |Encoded(a, s)| == RequiredEncodeSize(|s|)
  {
    Lengths(|s|, |Sextets(s)|);
  }

  lemma SizeBound(n: nat, m: nat)
    requires n <= m
    ensures 3 * n / 4 <= MaxDecodeSize(m)
  {
    var q, r := m / 4, m % 4;
    assert m == 4 * q + r;
  }

  /** Three bytes for four characters read, and never more than the reserved size. */
  lemma DecodedSize(a: Alphabet, t: seq<Byte>, b: Behavior)
    requires Decoded(a, t, b).Some?
    ensures |Decoded(a, t, b).value| == 3 * |Read(a, t).v| / 4 <= MaxDecodeSize(|t|)
  {
    SizeBound(|Read(a, t).v|, |t|);
  }

  // ---------------------------------------------------------------------
  // Detection

  /** Where two readings differ, the shorter one ran into a character of the other alphabet. */
  predicate Stopped(r: Reading) {
    r.rest != [] && r.rest[0] != PAD
  }

  predicate Agree(auto: Reading, std: Reading, url: Reading) {
    && (auto == std || auto == url)
    && (std == auto || Stopped(std))
    && (url == auto || Stopped(url))
  }

  /** A character of both alphabets, of one of them, or of neither. */
  lemma ValueKinds(c: Byte)
    ensures var auto, std, url := Value(Auto, c), Value(Standard, c), Value(UrlSafe, c);
      || (auto.None? && std.None? && url.None?)
      || (auto.Some? && auto.value.0 == Auto && std == Some((Standard, auto.value.1)) && url == Some((UrlSafe, auto.value.1)))
      || (auto.Some? && auto.value.0 == Standard && std == auto && url.None?)
      || (auto.Some? && auto.value.0 == UrlSafe && url == auto && std.None?)
  {
  }

  lemma {:induction false} AutoReads(t: seq<Byte>)
    ensures Agree(Read(Auto, t), Read(Standard, t), Read(UrlSafe, t))
    decreases |t|
  {
    if t == [] || t[0] == PAD || Value(Auto, t[0]).None? {
      NoneReads(t);
    } else {
      var (a, x) := Value(Auto, t[0]).value;
      if a == Auto {
        AutoReads(t[1..]);
        BothRead(t, x);
      } else {
        OneReads(t, a, x);
      }
    }
  }

  lemma NoneReads(t: seq<Byte>)
    requires t == [] || t[0] == PAD || Value(Auto, t[0]).None?
    ensures Agree(Read(Auto, t), Read(Standard, t), Read(UrlSafe, t))
  {
    if t != [] {
      ValueKinds(t[0]);
    }
    ReadNone(Auto, t);
    ReadNone(Standard, t);
    ReadNone(UrlSafe, t);
  }

  lemma BothRead(t: seq<Byte>, x: Sextet)
    requires t != [] && t[0] != PAD && Value(Auto, t[0]) == Some((Auto, x))
    requires Agree(Read(Auto, t[1..]), Read(Standard, t[1..]), Read(UrlSafe, t[1..]))
    ensures Agree(Read(Auto, t), Read(Standard, t), Read(UrlSafe, t))
  {
    ValueKinds(t[0]);
    ReadNext(Auto, t, Auto, x);
    ReadNext(Standard, t, Standard, x);
    ReadNext(UrlSafe, t, UrlSafe, x);
  }

  lemma OneReads(t: seq<Byte>, a: Alphabet, x: Sextet)
    requires t != [] && t[0] != PAD && a != Auto && Value(Auto, t[0]) == Some((a, x))
    ensures Agree(Read(Auto, t), Read(Standard, t), Read(UrlSafe, t))
  {
    ValueKinds(t[0]);
    ReadNext(Auto, t, a, x);
    ReadNext(a, t, a, x);
    ReadNone(if a == Standard then UrlSafe else Standard, t);
  }

  lemma StoppedFails(r: Reading, b: Behavior)
    requires Stopped(r)
    ensures !Ending(r.rest, b)
  {
  }

  /** Detection accepts exactly what one of the two alphabets accepts, and decodes it the same way. */
  lemma AutoExact(t: seq<Byte>, b: Behavior)
    ensures Decoded(Auto, t, b).Some? <==> Decoded(Standard, t, b).Some? || Decoded(UrlSafe, t, b).Some?
    ensures Decoded(Standard, t, b).Some? ==> Decoded(Standard, t, b) == Decoded(Auto, t, b)
    ensures Decoded(UrlSafe, t, b).Some? ==> Decoded(UrlSafe, t, b) == Decoded(Auto, t, b)
  {
    AutoReads(t);
    if Stopped(Read(Standard, t)) { StoppedFails(Read(Standard, t), b); }
    if Stopped(Read(UrlSafe, t)) { StoppedFails(Read(UrlSafe, t), b); }
  }

  // ---------------------------------------------------------------------
  // Encoding what was decoded

  /** The spare bits are zero, and a whole byte was begun. */
  predicate NothingSpare(v: seq<Sextet>) {
    match |v| % 4
    case 0 => true
    case 1 => false
    case 2 => v[|v| - 1] % 16 == 0
    case _ => v[|v| - 1] % 4 == 0
  }

  lemma BytesNumber(v: seq<Sextet>)
    ensures Number(Bytes(v), R256) == Dropped(Number(v, R64), |v|)
  {
    PackedExact(v);
    PackedInStep(v);
    SpareBits(Packed(v), |v|, Number(v, R64));
  }

  lemma BySixteen(x: int, q: int, r: int)
    requires x == 16 * q + r && 0 <= r < 16
    ensures x / 16 == q
  {
  }

  lemma ByFour(x: int, q: int, r: int)
    requires x == 4 * q + r && 0 <= r < 4
    ensures x / 4 == q
  {
  }

  lemma SpareLow(y: int, z: Sextet, x: int)
    requires x == 64 * y + z
    ensures x / 16 * 16 == x <==> z % 16 == 0
    ensures x / 4 * 4 == x <==> z % 4 == 0
  {
    BySixteen(x, 4 * y + z / 16, z % 16);
    ByFour(x, 16 * y + z / 4, z % 4);
  }

  lemma SpareExact(v: seq<Sextet>, x: int)
    requires x == Number(v, R64) && |v| % 4 != 1
    ensures NothingSpare(v) <==> Filled(Dropped(x, |v|), |v|) == x
  {
    if v != [] {
      SpareLow(Number(v[..|v| - 1], R64), v[|v| - 1], x);
    }
  }

  lemma LengthsBack(k: nat)
    requires k % 4 != 1
    ensures (4 * (3 * k / 4) + 2) / 3 == k
  {
    var q, r := k / 4, k % 4;
    assert k == 4 * q + r;
    assert 3 * k / 4 == 3 * q + (if r == 0 then 0 else r - 1);
  }

  lemma SameSextets(v: seq<Sextet>, s: seq<Byte>)
    requires |v| == (4 * |s| + 2) / 3
    ensures Sextets(s) == v <==> Number(v, R64) == Filled(Number(s, R256), |v|)
  {
    SextetsNumber(s, 0, []);
    if Number(v, R64) == Filled(Number(s, R256), |v|) {
      SextetsUnique(s, v);
    }
  }

  /** The sextets survive exactly when nothing is spare. */
  lemma SextetsOfBytes(v: seq<Sextet>)
    ensures Sextets(Bytes(v)) == v <==> NothingSpare(v)
  {
    var s := Bytes(v);
    if |v| % 4 == 1 {
      Lengths(|s|, |Sextets(s)|);
    } else {
      BytesNumber(v);
      SpareExact(v, Number(v, R64));
      LengthsBack(|v|);
      SameSextets(v, s);
    }
  }

  lemma ValueSymbol(a: Alphabet, c: Byte)
    requires a != Auto && Value(a, c).Some?
    ensures Value(a, c).value.0 == a && Symbol(a, Value(a, c).value.1) == c
  {
  }

  /** Writing what was read. */
  lemma {:induction false} TextOfRead(a: Alphabet, t: seq<Byte>)
    requires a != Auto
    ensures t == Text(a, Read(a, t).v) + Read(a, t).rest
    decreases |t|
  {
    if t == [] || t[0] == PAD || Value(a, t[0]).None? {
      ReadNone(a, t);
      assert t == Text(a, []) + t;
    } else {
      var x := Value(a, t[0]).value.1;
      ValueSymbol(a, t[0]);
      ReadNext(a, t, a, x);
      TextOfRead(a, t[1..]);
      TextFirst(a, x, t[0], t[1..], Read(a, t[1..]));
      assert t == [t[0]] + t[1..];
    }
  }

  lemma TextFirst(a: Alphabet, x: Sextet, c: Byte, t: seq<Byte>, r: Reading)
    requires Symbol(a, x) == c && t == Text(a, r.v) + r.rest
    ensures [c] + t == Text(a, [x] + r.v) + r.rest
  {
  }

  /** Encoding inverts decoding exactly on padded text whose spare bits are zero. */
  lemma ReencodeExact(a: Alphabet, t: seq<Byte>, b: Behavior)
    requires a != Auto && Decoded(a, t, b).Some?
    ensures Encoded(a, Decoded(a, t, b).value) == t <==>
      NothingSpare(Read(a, t).v) && Read(a, t).rest == Pads(|Read(a, t).v|)
  {
    var r := Read(a, t);
    var s := Bytes(r.v);
    SextetsOfBytes(r.v);
    TextOfRead(a, t);
    if Encoded(a, s) == t {
      ReadText(a, a, Sextets(s), Pads(|Sextets(s)|), Encoded(a, s));
    }
  }

  /** The reserved size is three bytes for each group of four characters that was begun. */
  lemma ReservedSize(n: nat, groups: nat)
    requires 4 * groups - 4 < n <= 4 * groups
    ensures MaxDecodeSize(n) == 3 * groups
  {
  }
}
