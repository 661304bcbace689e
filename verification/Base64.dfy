/** Base64 text and the bytes it stands for. Both directions are specified by numbers: the digits of
    the text in base 64 and the bytes in base 256 write the same number, up to the spare low bits. */
module Base64 {

  import opened Basics

  type Sextet = x: int | 0 <= x < 64

  datatype Alphabet = Auto | Standard | UrlSafe
  datatype Behavior = Moderate | Loose

  const PAD: Byte := '=' as int

  // ---------------------------------------------------------------------
  // Numbers and digits

  datatype Radix = R64 | R256

  function Times(x: int, b: Radix): int {
    match b case R64 => x * 64 case R256 => x * 256
  }

  function Over(x: int, b: Radix): int {
    match b case R64 => x / 64 case R256 => x / 256
  }

  function Low(x: int, b: Radix): int {
    match b case R64 => x % 64 case R256 => x % 256
  }

  predicate Digital(d: seq<int>, b: Radix) {
    forall i :: 0 <= i < |d| ==> d[i] == Low(d[i], b)
  }

  /** The number written by `d`, most significant digit first. */
  function Number(d: seq<int>, b: Radix): int {
    if d == [] then 0 else Times(Number(d[..|d| - 1], b), b) + d[|d| - 1]
  }

  /** The last `k` digits of `x`. */
  function Digits(x: int, b: Radix, k: nat): (d: seq<int>)
    ensures |d| == k && Digital(d, b)
    decreases k
  {
    if k == 0 then [] else Digits(Over(x, b), b, k - 1) + [Low(x, b)]
  }

  lemma NumberAppend(d: seq<int>, x: int, b: Radix)
    ensures Number(d + [x], b) == Times(Number(d, b), b) + x
  {
    assert (d + [x])[..|d|] == d;
  }

  /** A number and a length determine the digits. */
  lemma {:induction false} DigitsOfNumber(d: seq<int>, b: Radix)
    requires Digital(d, b)
    ensures Digits(Number(d, b), b, |d|) == d
  {
    if d != [] {
      var init := d[..|d| - 1];
      DigitsOfNumber(init, b);
      assert d == init + [d[|d| - 1]];
    }
  }

  // ---------------------------------------------------------------------
  // Alphabets

  function Symbol(a: Alphabet, v: Sextet): Byte {
    if v < 26 then 'A' as int + v
    else if v < 52 then 'a' as int + v - 26
    else if v < 62 then '0' as int + v - 52
    else if v == 62 then (if a == UrlSafe then '-' else '+') as int
    else (if a == UrlSafe then '_' else '/') as int
  }

  /** The value of a character, and the alphabet known after reading it. */
  function Value(a: Alphabet, c: Byte): Option<(Alphabet, Sextet)> {
    if 'A' as int <= c <= 'Z' as int then Some((a, c - 'A' as int))
    else if 'a' as int <= c <= 'z' as int then Some((a, c - 'a' as int + 26))
    else if '0' as int <= c <= '9' as int then Some((a, c - '0' as int + 52))
    else if a != UrlSafe && c == '+' as int then Some((Standard, 62))
    else if a != UrlSafe && c == '/' as int then Some((Standard, 63))
    else if a != Standard && c == '-' as int then Some((UrlSafe, 62))
    else if a != Standard && c == '_' as int then Some((UrlSafe, 63))
    else None
  }

  function Text(a: Alphabet, v: seq<Sextet>): (t: seq<Byte>)
    ensures |t| == |v|
  {
    seq(|v|, i requires 0 <= i < |v| => Symbol(a, v[i]))
  }

  // ---------------------------------------------------------------------
  // The specification

  /** Dropping the low bits of `n` sextets that fill no whole byte. */
  function Dropped(x: int, n: nat): int {
    match n % 4 case 0 => x case 1 => x / 64 case 2 => x / 16 case _ => x / 4
  }

  /** Adding such bits, all zero. */
  function Filled(x: int, n: nat): int {
    match n % 4 case 0 => x case 1 => x * 64 case 2 => x * 16 case _ => x * 4
  }

  /** The bytes that `v` holds: its leading `3n/4` bytes' worth of bits. */
  function Bytes(v: seq<Sextet>): (s: seq<Byte>)
    ensures |s| == 3 * |v| / 4
  {
    Digits(Dropped(Number(v, R64), |v|), R256, 3 * |v| / 4)
  }

  /** The sextets that hold `s`: the spare bits of the last one are zero. */
  function Sextets(s: seq<Byte>): (v: seq<Sextet>)
    ensures |v| == (4 * |s| + 2) / 3
  {
    var k := (4 * |s| + 2) / 3;
    Digits(Filled(Number(s, R256), k), R64, k)
  }

  function Pads(k: nat): seq<Byte> {
    match k % 4 case 2 => [PAD, PAD] case 3 => [PAD] case _ => []
  }

  function Encoded(a: Alphabet, s: seq<Byte>): seq<Byte> {
    Text(a, Sextets(s)) + Pads(|Sextets(s)|)
  }

  function RequiredEncodeSize(n: nat): nat {
    (n / 3 + if n % 3 != 0 then 1 else 0) * 4
  }

  function MaxDecodeSize(n: nat): nat {
    (n / 4 + if n % 4 != 0 then 1 else 0) * 3
  }

  /** Reading values until a pad, a character outside the alphabet, or the end. */
  datatype Reading = Reading(v: seq<Sextet>, rest: seq<Byte>)

  function Read(a: Alphabet, t: seq<Byte>): (r: Reading)
    ensures |r.v| <= |t| && r.rest == t[|r.v|..]
    decreases |t|
  {
    if t == [] || t[0] == PAD || Value(a, t[0]).None? then Reading([], t)
    else
      var (a', v) := Value(a, t[0]).value;
      var r := Read(a', t[1..]);
      Reading([v] + r.v, r.rest)
  }

  predicate AllPads(t: seq<Byte>) {
    forall i :: 0 <= i < |t| ==> t[i] == PAD
  }

  /** What may follow the values: nothing but pads, or after a pad anything. */
  predicate Ending(t: seq<Byte>, b: Behavior) {
    if b == Loose then t == [] || t[0] == PAD else AllPads(t)
  }

  /** The decoded bytes, or None where decoding throws. */
  function Decoded(a: Alphabet, t: seq<Byte>, b: Behavior): Option<seq<Byte>> {
    var r := Read(a, t);
    if Ending(r.rest, b) then Some(Bytes(r.v)) else None
  }

  // ---------------------------------------------------------------------
  // Encoding, three bytes at a time

  // The four sextets of three bytes; missing bytes count as zero.
  function Lead(x: Byte): Sextet { x / 4 }
  function Second(x: Byte, y: Byte): Sextet { x % 4 * 16 + y / 16 }
  function Third(y: Byte, z: Byte): Sextet { y % 16 * 4 + z / 64 }
  function Final(z: Byte): Sextet { z % 64 }

  lemma PrefixNumber(s: seq<Byte>, i: nat)
    requires i < |s|
    ensures Number(s[..i + 1], R256) == Number(s[..i], R256) * 256 + s[i]
  {
    assert s[..i + 1][..i] == s[..i];
  }

  /** The sextets of the first `i` bytes, a whole number of groups. */
  ghost predicate Underway(s: seq<Byte>, i: nat, v: seq<Sextet>) {
    i <= |s| && 3 * |v| == 4 * i && Number(v, R64) == Number(s[..i], R256)
  }

  lemma WholeGroup(s: seq<Byte>, i: nat, v: seq<Sextet>, v0: Sextet, v1: Sextet, v2: Sextet, v3: Sextet)
    requires i + 3 <= |s| && Underway(s, i, v)
    requires v0 == Lead(s[i]) && v1 == Second(s[i], s[i + 1]) && v2 == Third(s[i + 1], s[i + 2]) && v3 == Final(s[i + 2])
    ensures Underway(s, i + 3, v + [v0, v1, v2, v3])
  {
    NumberAppend(v, v0, R64);
    NumberAppend(v + [v0], v1, R64);
    NumberAppend(v + [v0] + [v1], v2, R64);
    NumberAppend(v + [v0] + [v1] + [v2], v3, R64);
    assert v + [v0, v1, v2, v3] == v + [v0] + [v1] + [v2] + [v3];
    PrefixNumber(s, i);
    PrefixNumber(s, i + 1);
    PrefixNumber(s, i + 2);
  }

  lemma PairNumber(s: seq<Byte>, i: nat, v: seq<Sextet>, v0: Sextet, v1: Sextet, v2: Sextet)
    requires i + 2 == |s| && Underway(s, i, v)
    requires v0 == Lead(s[i]) && v1 == Second(s[i], s[i + 1]) && v2 == Third(s[i + 1], 0)
    ensures Number(v + [v0, v1, v2], R64) == Number(s, R256) * 4
  {
    NumberAppend(v, v0, R64);
    NumberAppend(v + [v0], v1, R64);
    NumberAppend(v + [v0] + [v1], v2, R64);
    assert v + [v0, v1, v2] == v + [v0] + [v1] + [v2];
    PrefixNumber(s, i);
    PrefixNumber(s, i + 1);
    assert s[..i + 2] == s;
  }

  lemma PairEnd(s: seq<Byte>, i: nat, v: seq<Sextet>, v0: Sextet, v1: Sextet, v2: Sextet)
    requires i + 2 == |s| && Underway(s, i, v)
    requires v0 == Lead(s[i]) && v1 == Second(s[i], s[i + 1]) && v2 == Third(s[i + 1], 0)
    ensures v + [v0, v1, v2] == Sextets(s) && |v + [v0, v1, v2]| % 4 == 3
  {
    PairNumber(s, i, v, v0, v1, v2);
    PhaseOf(|v| - i, |v|);
    SextetsUnique(s, v + [v0, v1, v2]);
  }

  lemma PhaseOf(q: nat, n: nat)
    requires n == 4 * q
    ensures n % 4 == 0 && (n + 2) % 4 == 2 && (n + 3) % 4 == 3
  {
  }

  lemma SingleNumber(s: seq<Byte>, i: nat, v: seq<Sextet>, v0: Sextet, v1: Sextet)
    requires i + 1 == |s| && Underway(s, i, v) && v0 == Lead(s[i]) && v1 == Second(s[i], 0)
    ensures Number(v + [v0, v1], R64) == Number(s, R256) * 16
  {
    NumberAppend(v, v0, R64);
    NumberAppend(v + [v0], v1, R64);
    assert v + [v0, v1] == v + [v0] + [v1];
    PrefixNumber(s, i);
    assert s[..i + 1] == s;
  }

  lemma SingleEnd(s: seq<Byte>, i: nat, v: seq<Sextet>, v0: Sextet, v1: Sextet)
    requires i + 1 == |s| && Underway(s, i, v) && v0 == Lead(s[i]) && v1 == Second(s[i], 0)
    ensures v + [v0, v1] == Sextets(s) && |v + [v0, v1]| % 4 == 2
  {
    SingleNumber(s, i, v, v0, v1);
    PhaseOf(|v| - i, |v|);
    SextetsUnique(s, v + [v0, v1]);
  }

  lemma NoEnd(s: seq<Byte>, v: seq<Sextet>)
    requires Underway(s, |s|, v)
    ensures v == Sextets(s) && |v| % 4 == 0
  {
    assert s[..|s|] == s;
    PhaseOf(|v| - |s|, |v|);
    SextetsUnique(s, v);
  }

  lemma SextetsUnique(s: seq<Byte>, v: seq<Sextet>)
    requires |v| == (4 * |s| + 2) / 3 && Number(v, R64) == Filled(Number(s, R256), |v|)
    ensures v == Sextets(s)
  {
    DigitsOfNumber(v, R64);
  }

  function Table(a: Alphabet): (alpha: seq<Byte>)
    ensures |alpha| == 64
  {
    seq(64, v requires 0 <= v < 64 => Symbol(a, v))
  }

  function Looked(alpha: seq<Byte>, v: seq<Sextet>): (t: seq<Byte>)
    requires |alpha| == 64
    ensures |t| == |v|
  {
    seq(|v|, i requires 0 <= i < |v| => alpha[v[i]])
  }

  lemma LookedText(a: Alphabet, v: seq<Sextet>)
    ensures Looked(Table(a), v) == Text(a, v)
  {
  }

  lemma LookedAppend(alpha: seq<Byte>, v: seq<Sextet>, w: seq<Sextet>)
    requires |alpha| == 64
    ensures Looked(alpha, v + w) == Looked(alpha, v) + Looked(alpha, w)
  {
  }

  method Encode(a: Alphabet, s: seq<Byte>) returns (out: seq<Byte>)
    ensures out == Encoded(a, s)
  {
    out := WriteGroups(Table(a), s);
    LookedText(a, Sextets(s));
  }

  method WriteGroups(alpha: seq<Byte>, s: seq<Byte>) returns (out: seq<Byte>)
    requires |alpha| == 64
    ensures out == Looked(alpha, Sextets(s)) + Pads(|Sextets(s)|)
  {
    out := [];
    ghost var v: seq<Sextet> := [];
    var i := 0;
    while i != |s|
      invariant 0 <= i <= |s| && Underway(s, i, v) && out == Looked(alpha, v)
      decreases |s| - i
    {
      var v0 := Lead(s[i]);
      if i + 1 == |s| {
        var v1 := Second(s[i], 0);
        out := out + [alpha[v0], alpha[v1]] + [PAD, PAD];
        SingleEnd(s, i, v, v0, v1);
        LookedAppend(alpha, v, [v0, v1]);
        return;
      }
      var v1 := Second(s[i], s[i + 1]);
      if i + 2 == |s| {
        var v2 := Third(s[i + 1], 0);
        out := out + [alpha[v0], alpha[v1], alpha[v2]] + [PAD];
        PairEnd(s, i, v, v0, v1, v2);
        LookedAppend(alpha, v, [v0, v1, v2]);
        return;
      }
      var v2, v3 := Third(s[i + 1], s[i + 2]), Final(s[i + 2]);
      out := out + [alpha[v0], alpha[v1], alpha[v2], alpha[v3]];
      WholeGroup(s, i, v, v0, v1, v2, v3);
      LookedAppend(alpha, v, [v0, v1, v2, v3]);
      v := v + [v0, v1, v2, v3];
      i := i + 3;
    }
    NoEnd(s, v);
  }

  // ---------------------------------------------------------------------
  // Decoding, one sextet at a time

  /** The bytes written, how many bits of the last sextet are still to be written, and that sextet. */
  datatype Packer = Packer(out: seq<Byte>, bits: int, last: Sextet)

  /** The byte completed by a sextet. */
  function Joined(bits: int, last: Sextet, part: Sextet): Byte {
    if bits == 6 then last * 4 + part / 16
    else if bits == 4 then last % 16 * 16 + part / 4
    else last % 4 * 64 + part
  }

  function Feed(p: Packer, part: Sextet): Packer {
    if p.bits + 6 >= 8 then Packer(p.out + [Joined(p.bits, p.last, part)], p.bits - 2, part)
    else Packer(p.out, p.bits + 6, part)
  }

  function Packed(v: seq<Sextet>): Packer {
    if v == [] then Packer([], 0, 0) else Feed(Packed(v[..|v| - 1]), v[|v| - 1])
  }

  lemma PackedAppend(v: seq<Sextet>, part: Sextet)
    ensures Packed(v + [part]) == Feed(Packed(v), part)
  {
    assert (v + [part])[..|v|] == v;
  }

  /** The bytes written and the bits still to come write the sextets' number. */
  predicate InStep(p: Packer, n: nat, x: int) {
    && 6 * n == 8 * |p.out| + p.bits
    && (match p.bits
        case 0 => x == Number(p.out, R256)
        case 2 => x == Number(p.out, R256) * 4 + p.last % 4
        case 4 => x == Number(p.out, R256) * 16 + p.last % 16
        case 6 => x == Number(p.out, R256) * 64 + p.last
        case _ => false)
  }

  lemma FeedInStep(p: Packer, part: Sextet, n: nat, x: int)
    requires InStep(p, n, x)
    ensures InStep(Feed(p, part), n + 1, x * 64 + part)
  {
    if p.bits >= 2 {
      NumberAppend(p.out, Joined(p.bits, p.last, part), R256);
    }
  }

  lemma {:induction false} PackedInStep(v: seq<Sextet>)
    ensures InStep(Packed(v), |v|, Number(v, R64))
  {
    if v != [] {
      var init := v[..|v| - 1];
      PackedInStep(init);
      FeedInStep(Packed(init), v[|v| - 1], |init|, Number(init, R64));
    }
  }

  /** Byte by byte, the decoder writes the leading bytes of the sextets' number. */
  lemma PackedExact(v: seq<Sextet>)
    ensures Packed(v).out == Bytes(v)
  {
    PackedInStep(v);
    DigitsOfNumber(Packed(v).out, R256);
    SpareBits(Packed(v), |v|, Number(v, R64));
  }

  lemma SpareBits(p: Packer, n: nat, x: int)
    requires InStep(p, n, x)
    ensures |p.out| == 3 * n / 4 && Number(p.out, R256) == Dropped(x, n)
  {
  }

  /** The alphabet and the bytes after `i` characters, when none of them stops the reading. */
  function After(a0: Alphabet, t: seq<Byte>, i: nat): Option<(Alphabet, Packer)>
    requires i <= |t|
  {
    if i == 0 then Some((a0, Packer([], 0, 0)))
    else
      var s := After(a0, t, i - 1);
      if s.None? || t[i - 1] == PAD then None
      else
        var x := Value(s.value.0, t[i - 1]);
        if x.None? then None else Some((x.value.0, Feed(s.value.1, x.value.1)))
  }

  /** The first `i` sextets have been packed, and reading goes on at `i`. */
  ghost predicate ReadUpTo(r: Reading, t: seq<Byte>, i: nat, a: Alphabet, p: Packer) {
    i <= |t| && i <= |r.v| && Packed(r.v[..i]) == p && Read(a, t[i..]) == Reading(r.v[i..], r.rest)
  }

  lemma ReadOne(r: Reading, t: seq<Byte>, i: nat, a: Alphabet, p: Packer, a': Alphabet, x: Sextet)
    requires i < |t| && t[i] != PAD && Value(a, t[i]) == Some((a', x)) && ReadUpTo(r, t, i, a, p)
    ensures ReadUpTo(r, t, i + 1, a', Feed(p, x))
  {
    assert t[i..][1..] == t[i + 1..];
    assert r.v[i..] == [x] + Read(a', t[i + 1..]).v;
    assert r.v[i..][1..] == r.v[i + 1..];
    assert r.v[..i + 1] == r.v[..i] + [x];
    PackedAppend(r.v[..i], x);
  }

  lemma {:induction false} AfterReads(a0: Alphabet, t: seq<Byte>, i: nat)
    requires i <= |t| && After(a0, t, i).Some?
    ensures ReadUpTo(Read(a0, t), t, i, After(a0, t, i).value.0, After(a0, t, i).value.1)
  {
    if i == 0 {
      assert t[0..] == t;
    } else {
      AfterReads(a0, t, i - 1);
      var (a, p) := After(a0, t, i - 1).value;
      var (a', x) := Value(a, t[i - 1]).value;
      ReadOne(Read(a0, t), t, i - 1, a, p, a', x);
    }
  }

  lemma AfterStops(a0: Alphabet, t: seq<Byte>, i: nat, a: Alphabet, p: Packer)
    requires i <= |t| && After(a0, t, i) == Some((a, p))
    requires i == |t| || t[i] == PAD || Value(a, t[i]).None?
    ensures Read(a0, t).rest == t[i..] && Bytes(Read(a0, t).v) == p.out
  {
    AfterReads(a0, t, i);
    var v := Read(a0, t).v;
    assert v[i..] == [] && v[..i] == v;
    PackedExact(v);
  }

  /** After `i` characters `3i/4` bytes are written. */
  lemma PackedLength(v: seq<Sextet>)
    ensures |Packed(v).out| == 3 * |v| / 4
  {
    PackedInStep(v);
    SpareBits(Packed(v), |v|, Number(v, R64));
  }

  /** The loop over the characters after the first pad. */
  method CheckPads(t: seq<Byte>, i: nat, behavior: Behavior) returns (ok: bool)
    requires i <= |t| && (i < |t| ==> t[i] == PAD)
    ensures ok == Ending(t[i..], behavior)
  {
    if behavior != Loose {
      var j := i;
      while j < |t|
        invariant i <= j <= |t| && forall k :: i <= k < j ==> t[k] == PAD
      {
        if t[j] != PAD {
          assert t[i..][j - i] != PAD;
          return false;
        }
        j := j + 1;
      }
    }
    return true;
  }

  /** Decoding out of place. */
  method Decode(a0: Alphabet, t: seq<Byte>, behavior: Behavior) returns (r: Option<seq<Byte>>)
    ensures r == Decoded(a0, t, behavior)
  {
    var a, last: Sextet, bits, i, out: seq<Byte> := a0, 0, 0, 0, [];
    while i < |t|
      invariant 0 <= i <= |t| && After(a0, t, i) == Some((a, Packer(out, bits, last)))
    {
      var x := Value(a, t[i]);
      if t[i] == PAD || x.None? {
        break;
      }
      var part := x.value.1;
      a := x.value.0;
      if bits + 6 >= 8 {
        out := out + [Joined(bits, last, part)];
        bits := bits - 2;
      } else {
        bits := bits + 6;
      }
      last := part;
      i := i + 1;
    }
    AfterStops(a0, t, i, a, Packer(out, bits, last));
    if i < |t| && t[i] != PAD {
      return None;
    }
    var ok := CheckPads(t, i, behavior);
    return if ok then Some(out) else None;
  }

  /** The buffer `b` while `t` is decoded in it: the bytes written, then what is not overwritten. */
  ghost predicate Overwritten(b: seq<Byte>, t: seq<Byte>, p: Packer) {
    |p.out| <= |t| && b == p.out + t[|p.out|..]
  }

  lemma NotOverwritten(b: seq<Byte>, t: seq<Byte>, p: Packer, i: nat)
    requires Overwritten(b, t, p) && |p.out| <= i <= |t|
    ensures |b| == |t| && b[i..] == t[i..] && b[..|p.out|] == p.out
  {
  }

  lemma Unread(b: seq<Byte>, t: seq<Byte>, p: Packer, i: nat)
    requires Overwritten(b, t, p) && |p.out| <= i < |t|
    ensures |b| == |t| && b[i] == t[i]
  {
  }

  lemma Overwrite(b: seq<Byte>, t: seq<Byte>, p: Packer, part: Sextet)
    requires p.bits + 6 >= 8 && |p.out| < |t| && Overwritten(b, t, p)
    ensures Overwritten(b[|p.out| := Joined(p.bits, p.last, part)], t, Feed(p, part))
  {
  }

  /** Decoding into the buffer that is read: the same bytes as out of place, written over the front,
      the rest of the buffer as it was. When decoding throws, the bytes before the fault are written. */
  method DecodeInPlace(buf: array<Byte>, a0: Alphabet, behavior: Behavior) returns (r: Option<nat>)
    modifies buf
    ensures r.Some? == Decoded(a0, old(buf[..]), behavior).Some?
    ensures r.Some? ==> r.value <= buf.Length && buf[..r.value] == Decoded(a0, old(buf[..]), behavior).value
    ensures var s := Bytes(Read(a0, old(buf[..])).v); |s| <= buf.Length && buf[..] == s + old(buf[..])[|s|..]
  {
    ghost var t: seq<Byte> := buf[..];
    ghost var a1, p;
    var i, k;
    i, k, a1, p := OverwriteValues(buf, a0, t);
    AfterStops(a0, t, i, a1, p);
    NotOverwritten(buf[..], t, p, i);
    var stopped := false;
    if i < buf.Length {
      Unread(buf[..], t, p, i);
      var c := Get(buf, i);
      stopped := c != PAD;
    }
    if stopped {
      assert t[i..][0] != PAD;
      return None;
    }
    var ok := CheckPads(buf[..], i, behavior);
    return if ok then Some(k) else None;
  }

  method Get(buf: array<Byte>, i: nat) returns (c: Byte)
    requires i < buf.Length
    ensures c == buf[..][i]
  {
    return buf[i];
  }

  /** One sextet: the byte it completes, if any, goes into the buffer. */
  method Store(buf: array<Byte>, k: nat, bits: int, last: Sextet, part: Sextet, ghost t: seq<Byte>, ghost p: Packer)
    returns (k': nat, bits': int)
    requires k == |p.out| < |t| == buf.Length && p.bits == bits && p.last == last && Overwritten(buf[..], t, p)
    modifies buf
    ensures Overwritten(buf[..], t, Feed(p, part)) && k' == |Feed(p, part).out| <= k + 1 && bits' == Feed(p, part).bits
  {
    ghost var b := buf[..];
    if bits + 6 >= 8 {
      var y := Joined(bits, last, part);
      Overwrite(b, t, p, part);
      buf[k] := y;
      assert buf[..] == b[k := y];
      return k + 1, bits - 2;
    } else {
      return k, bits + 6;
    }
  }

  /** The loop over the values: it stops at position `i`, having written `k` bytes. */
  method OverwriteValues(buf: array<Byte>, a0: Alphabet, ghost t: seq<Byte>)
    returns (i: nat, k: nat, ghost a1: Alphabet, ghost p: Packer)
    requires buf[..] == t
    modifies buf
    ensures k == |p.out| <= i <= buf.Length && Overwritten(buf[..], t, p)
    ensures After(a0, t, i) == Some((a1, p)) && (i == |t| || t[i] == PAD || Value(a1, t[i]).None?)
  {
    var a, last: Sextet, bits := a0, 0, 0;
    i, k, p := 0, 0, Packer([], 0, 0);
    while i < buf.Length
      invariant i <= |t| == buf.Length && After(a0, t, i) == Some((a, p))
      invariant k == |p.out| <= i && p.bits == bits && p.last == last
      invariant Overwritten(buf[..], t, p)
    {
      Unread(buf[..], t, p, i);
      var c := Get(buf, i);
      var x := Value(a, c);
      if c == PAD || x.None? {
        break;
      }
      var part := x.value.1;
      a := x.value.0;
      k, bits := Store(buf, k, bits, last, part, t, p);
      last, p := part, Feed(p, part);
      i := i + 1;
    }
    a1 := a;
  }
}
