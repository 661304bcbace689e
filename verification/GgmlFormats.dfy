/** Which files the loader of legacy GGML models takes, by magic, version and file type. */
module GgmlFormats {

  import opened Basics
  import opened GgmlFile
  import opened GgmlImages

  /** Unquantized models of any age; version 2 also with the quantizations that stayed as they are; version 3 with all. */
  const PLAIN_TYPES: set<nat> := {0, 1}
  const STABLE_TYPES: set<nat> := {0, 1, 8, 9, 10, 11, 12, 13, 14, 15, 16, 17, 18}
  const ALL_TYPES: set<nat> := {0, 1, 2, 3, 4, 7, 8, 9, 10, 11, 12, 13, 14, 15, 16, 17, 18}

  /** The types taken from a file that begins with `magic` and `version`. */
  function Taken(magic: seq<Byte>, version: nat): set<nat> {
    if magic == Ascii("lmgg") || (magic == Ascii("fmgg") && version == 1) || (magic == Ascii("tjgg") && version == 1)
    then PLAIN_TYPES
    else if magic == Ascii("tjgg") && version == 2 then STABLE_TYPES
    else if magic == Ascii("tjgg") && version == 3 then ALL_TYPES
    else {}
  }

  function Ascii(s: string): seq<int> {
    seq(|s|, i requires 0 <= i < |s| => s[i] as int)
  }

  function Magic(format: Format): seq<Byte> {
    match format case GGML => LMGG case GGMF => FMGG case GGJT => TJGG
  }

  lemma TypesTaken(h: Header, ftype: nat)
    requires KnownHeader(h)
    ensures ftype in Taken(Magic(h.format), h.version) <==> KnownType(ftype) && Convertible(h, ftype)
  {
    hide Ascii;
    Magics();
  }

  lemma Magics()
    ensures Ascii("lmgg") == LMGG && Ascii("fmgg") == FMGG && Ascii("tjgg") == TJGG
    ensures LMGG != FMGG && FMGG != TJGG && TJGG != LMGG
  {
    assert LMGG[0] == 108 && FMGG[0] == 102 && TJGG[0] == 116;
  }

  /** A file that could be read but for its magic, version and type. */
  predicate Sound(f: File, sizes: Sizes, ffName: seq<Byte>) {
    && f.header.version < 0x1_0000_0000 && (f.header.format.GGML? ==> f.header.version == 1)
    && |f.hyper| == 7 && Fits(f.hyper)
    && f.hyper[0] == |f.items| && (forall i :: 0 <= i < |f.items| ==> Writable(f.items[i], Scores(f)))
    && (forall i :: 0 <= i < |f.records| ==> Storable(f.records[i], CountOf(sizes)))
    && FeedForward(TensorsOf(f), ffName).Some? && |Image(f)| < WORD / 2
  }

  lemma TypeRefused(data: seq<Byte>, sizes: Sizes, ffName: seq<Byte>, h: Header, hyper: seq<nat>)
    requires HeaderAt(data, 0) == Some(h) && ReadU32s(WordsOf(data), HeaderSize(h), 7) == Some(hyper) && |hyper| == 7
    requires !KnownType(hyper[6]) || !Convertible(h, hyper[6])
    ensures LoadedFrom(data, sizes, ffName) == Refused
  {
  }

  lemma VersionRefused(f: File, data: seq<Byte>, sizes: Sizes, ffName: seq<Byte>)
    requires data == Image(f) && f.header.version < 0x1_0000_0000
    requires (f.header.format.GGML? ==> f.header.version == 1) && !KnownHeader(f.header)
    ensures LoadedFrom(data, sizes, ffName) == Refused
  {
    hide Image, ItemsPart, RecordsPart, U32s;
    var rest := U32s(ENCODER, f.hyper) + (ItemsPart(f) + RecordsPart(f));
    ImageStarts(f, data, rest);
    HoldsSplit(data, 0, HeaderBytes(f.header), rest);
    HoldsSplit(data, 0, Magic(f.header.format), U32(f.header.version));
    ReadWritten(data, 4, f.header.version);
    assert HeaderAt(data, 0) == None;
  }

  lemma ImageStarts(f: File, data: seq<Byte>, rest: seq<Byte>)
    requires data == Image(f) && rest == U32s(ENCODER, f.hyper) + (ItemsPart(f) + RecordsPart(f))
    ensures Holds(data, 0, HeaderBytes(f.header) + rest)
  {
  }

  /** A file that is sound otherwise is loaded exactly where its type is taken for its magic and version, and refused
      where it is not. */
  lemma LoadsExactly(f: File, sizes: Sizes, ffName: seq<Byte>)
    requires Sound(f, sizes, ffName)
    ensures f.hyper[6] in Taken(Magic(f.header.format), f.header.version) ==> LoadedFrom(Image(f), sizes, ffName).Loaded?
    ensures f.hyper[6] !in Taken(Magic(f.header.format), f.header.version) ==> LoadedFrom(Image(f), sizes, ffName).Refused?
  {
    hide Image, LoadedFrom, TensorsOf, FeedForward, Writable, Storable, HeaderAt, ReadU32s, Convertible, KnownType;
    var data := Image(f);
    if !KnownHeader(f.header) {
      VersionRefused(f, data, sizes, ffName);
    } else {
      TypesTaken(f.header, f.hyper[6]);
      ImageHead(f, data);
      if f.hyper[6] in Taken(Magic(f.header.format), f.header.version) {
        LoadImage(f, sizes, ffName);
      } else {
        TypeRefused(data, sizes, ffName, f.header, f.hyper);
      }
    }
  }

  /** The feed-forward size is the second dimension of the last tensor of that name. */
  lemma {:induction false} FeedForwardIs(ts: seq<Tensor>, ffName: seq<Byte>, i: nat)
    requires i < |ts| && ts[i].name == ffName && forall j :: i < j < |ts| ==> ts[j].name != ffName
    ensures FeedForward(ts, ffName) == if |ts[i].dims| > 1 then Some(ts[i].dims[1]) else None
  {
    if i < |ts| - 1 {
      FeedForwardIs(ts[..|ts| - 1], ffName, i);
    }
  }

  // ---------------------------------------------------------------------
  // Any bytes at all

  /** `p` comes before the position that `i` names in `n` bytes, from the end where negative. */
  predicate Before(p: nat, i: int, n: nat) {
    if i < 0 then p - n < i else p < i
  }

  /** A slice is the bytes that do not come before its first bound but before its second. */
  lemma SliceIs(data: seq<Byte>, a: int, b: int, lo: nat)
    requires lo <= |data| && forall p :: 0 <= p < |data| ==> (p < lo <==> Before(p, a, |data|))
    ensures var s := Slice(data, a, b);
      && lo + |s| <= |data| && s == data[lo..lo + |s|]
      && forall p :: lo <= p < |data| ==> (p < lo + |s| <==> Before(p, b, |data|))
  {
    ClipIs(a, |data|);
    ClipIs(b, |data|);
    SamePlace(lo, Clip(a, |data|), a, |data|);
  }

  lemma SamePlace(j: nat, k: nat, i: int, n: nat)
    requires j <= n && k <= n
    requires forall p :: 0 <= p < n ==> (p < j <==> Before(p, i, n)) && (p < k <==> Before(p, i, n))
    ensures j == k
  {
    var atJ, atK := Before(j, i, n), Before(k, i, n);
  }

  lemma ClipIs(i: int, n: nat)
    ensures forall p :: 0 <= p < n ==> (p < Clip(i, n) <==> Before(p, i, n))
  {
  }

  /** A header is found in exactly the data that begin with one as it is written. */
  lemma HeaderExact(data: seq<Byte>, h: Header)
    ensures HeaderAt(data, 0) == Some(h) <==> KnownHeader(h) && Holds(data, 0, HeaderBytes(h))
  {
    if KnownHeader(h) && Holds(data, 0, HeaderBytes(h)) {
      ReadHeader(data, h);
    }
    if HeaderAt(data, 0) == Some(h) {
      HeaderStands(data, h);
    }
  }

  lemma HeaderStands(data: seq<Byte>, h: Header)
    requires HeaderAt(data, 0) == Some(h)
    ensures KnownHeader(h) && Holds(data, 0, HeaderBytes(h))
  {
    var magic := Magic(h.format);
    assert data[..4] == magic;
    if !h.format.GGML? {
      WrittenAt(data, 4, h.version);
      assert data[..8] == magic + U32(h.version);
    }
  }

  lemma WrittenAt(data: seq<Byte>, o: nat, x: nat)
    requires o + 4 <= |data| && ReadU32(data, o) == Some(x)
    ensures data[o..o + 4] == U32(x)
  {
    var s := data[o..o + 4];
    assert x == Little(s[0], s[1], s[2], s[3]);
    LittleBytes(s, x);
  }

  lemma LittleBytes(s: seq<int>, x: nat)
    requires |s| == 4 && (forall i :: 0 <= i < 4 ==> 0 <= s[i] < 0x100) && x == Little(s[0], s[1], s[2], s[3])
    ensures Bytes(x, 4) == s
  {
    var x1, x2, x3 := x / 0x100, x / 0x1_0000, x / 0x100_0000;
    assert x1 == s[1] + 0x100 * s[2] + 0x1_0000 * s[3] && x % 0x100 == s[0];
    assert x1 / 0x100 == s[2] + 0x100 * s[3] && x1 % 0x100 == s[1];
    assert x1 / 0x100 / 0x100 == s[3] && x1 / 0x100 % 0x100 == s[2];
    assert Bytes(x, 4) == [s[0]] + Bytes(x1, 3);
    assert Bytes(x1, 3) == [s[1]] + Bytes(x1 / 0x100, 2);
    assert Bytes(x1 / 0x100, 2) == [s[2]] + Bytes(x1 / 0x100 / 0x100, 1);
    assert Bytes(s[3], 1) == [s[3]] + Bytes(s[3] / 0x100, 0);
  }

  /** Data that begin with no known header are refused. */
  lemma OthersRefused(data: seq<Byte>, sizes: Sizes, ffName: seq<Byte>)
    requires forall h :: KnownHeader(h) ==> !Holds(data, 0, HeaderBytes(h))
    ensures LoadedFrom(data, sizes, ffName) == Refused
  {
    var r := HeaderAt(data, 0);
    if r.Some? {
      HeaderExact(data, r.value);
    }
  }

  // ---------------------------------------------------------------------
  // Records and items that can be written but not read

  /** A record that fits its numbers is read if and only if it has at most four dimensions, a name shorter than 4096
      bytes, and a known type. */
  lemma RecordExact(data: seq<Byte>, o: nat, r: Record, padded: bool, count: Counter)
    requires Holds(data, o, RecordBytes(ENCODER, o, r, padded))
    requires Fits([|r.dims|, |r.name|, r.dtype]) && Fits(r.dims)
    ensures TensorAt(data, WordsOf(data), o, padded, count).Some? <==>
      |r.dims| <= 4 && |r.name| < 4096 && count(r.dims, r.dtype).Some?
  {
    hide Holds, RecordBytes, U32s, ReadU32s, Slice, Coded, ENCODER, TensorAt;
    var words, head := WordsOf(data), [|r.dims|, |r.name|, r.dtype];
    CodedU32(data);
    RecordLayout(data, words, ENCODER, o, r, padded, head);
    ReadNumbers(data, words, ENCODER, o, head, r.dims);
    ReadName(data, o + 12 + 4 * |r.dims|, r.name);
    if |r.dims| <= 4 && |r.name| < 4096 && count(r.dims, r.dtype).Some? {
      Assemble(data, words, o, padded, count, head, r.dims, r.name);
    } else {
      RecordRefused(data, words, o, padded, count, head, r);
    }
  }

  lemma RecordRefused(data: seq<Byte>, words: Words, o: nat, padded: bool, count: Counter, head: seq<nat>, r: Record)
    requires |head| == 3 && head[0] == |r.dims| && head[1] == |r.name| && head[2] == r.dtype
    requires ReadU32s(words, o, 3) == Some(head) && ReadU32s(words, o + 12, |r.dims|) == Some(r.dims)
    requires |r.dims| > 4 || |r.name| >= 4096 || count(r.dims, r.dtype).None?
    ensures TensorAt(data, words, o, padded, count) == None
  {
  }

  /** An item is read if and only if its text is shorter than 4096 bytes. */
  lemma ItemExact(data: seq<Byte>, o: nat, i: Item, scores: bool)
    requires Holds(data, o, ItemBytes(i, scores)) && |i.text| < 0x1_0000_0000
    requires if scores then |i.score| == 4 else i.score == ZERO
    ensures ItemAt(data, o, scores).Some? <==> |i.text| < 4096
  {
    if |i.text| < 4096 {
      ReadItem(data, o, i, scores);
    } else {
      HoldsSplit(data, o, U32(|i.text|), i.text + if scores then i.score else []);
      ReadWritten(data, o, |i.text|);
    }
  }
}
