/** Files as they are written, which the loader reads back, and one that it never reads to the end. */
module GgmlImages {

  import opened Basics
  import opened GgmlFile
  import opened GgmlLaws

  // ---------------------------------------------------------------------
  // Writing files

  /** The `n` lowest bytes of `x`, lowest first. */
  function Bytes(x: nat, n: nat): (s: seq<Byte>)
    ensures |s| == n
  {
    if n == 0 then [] else [x % 0x100] + Bytes(x / 0x100, n - 1)
  }

  function U32(x: nat): (s: seq<Byte>)
    ensures |s| == 4
  {
    Bytes(x, 4)
  }

  /** How a number is written, in four bytes. */
  type Encoder = nat -> seq<Byte>

  const ENCODER: Encoder := (x: nat) => U32(x)

  function U32s(enc: Encoder, xs: seq<nat>): seq<Byte> {
    if xs == [] then [] else enc(xs[0]) + U32s(enc, xs[1..])
  }

  /** Numbers written by `enc` into the data are read back by `words`. */
  ghost predicate Coded(data: seq<Byte>, words: Words, enc: Encoder) {
    && (forall x: nat :: |enc(x)| == 4)
    && (forall o: nat, x: nat :: x < 0x1_0000_0000 && Holds(data, o, enc(x)) ==> words(o) == Some(x))
  }

  lemma CodedU32(data: seq<Byte>)
    ensures Coded(data, WordsOf(data), ENCODER)
  {
    forall o: nat, x: nat | x < 0x1_0000_0000 && Holds(data, o, ENCODER(x)) ensures WordsOf(data)(o) == Some(x) {
      ReadWritten(data, o, x);
    }
  }

  lemma {:induction false} U32sLength(data: seq<Byte>, words: Words, enc: Encoder, xs: seq<nat>)
    requires Coded(data, words, enc)
    ensures |U32s(enc, xs)| == 4 * |xs|
    decreases |xs|
  {
    if xs != [] {
      U32sLength(data, words, enc, xs[1..]);
    }
  }

  predicate Fits(xs: seq<nat>) {
    forall i :: 0 <= i < |xs| ==> xs[i] < 0x1_0000_0000
  }

  /** `piece` stands at offset `o`. */
  predicate Holds(data: seq<Byte>, o: nat, piece: seq<Byte>) {
    o + |piece| <= |data| && data[o..o + |piece|] == piece
  }

  lemma HoldsSplit(data: seq<Byte>, o: nat, a: seq<Byte>, b: seq<Byte>)
    requires Holds(data, o, a + b)
    ensures Holds(data, o, a) && Holds(data, o + |a|, b)
  {
    var all := data[o..o + |a + b|];
    assert all[..|a|] == a && all[|a|..] == b;
    assert data[o..o + |a|] == all[..|a|] && data[o + |a|..o + |a| + |b|] == all[|a|..];
  }

  lemma ReadWritten(data: seq<Byte>, o: nat, x: nat)
    requires Holds(data, o, U32(x)) && x < 0x1_0000_0000
    ensures ReadU32(data, o) == Some(x)
  {
    var s := data[o..o + 4];
    assert data[o] == s[0] && data[o + 1] == s[1] && data[o + 2] == s[2] && data[o + 3] == s[3];
    FourBytes(x, x / 0x100, x / 0x100 / 0x100, x / 0x100 / 0x100 / 0x100);
  }

  lemma FourBytes(x: nat, y: nat, z: nat, w: nat)
    requires x < 0x1_0000_0000 && y == x / 0x100 && z == y / 0x100 && w == z / 0x100
    ensures U32(x) == [x % 0x100, y % 0x100, z % 0x100, w % 0x100]
    ensures Little(x % 0x100, y % 0x100, z % 0x100, w % 0x100) == x
  {
    assert Bytes(w, 1) == [w % 0x100];
    assert Bytes(z, 2) == [z % 0x100] + Bytes(w, 1);
    assert Bytes(y, 3) == [y % 0x100] + Bytes(z, 2);
    assert Bytes(x, 4) == [x % 0x100] + Bytes(y, 3);
  }

  lemma {:induction false} ReadAllWritten(data: seq<Byte>, words: Words, enc: Encoder, o: nat, xs: seq<nat>)
    requires Coded(data, words, enc) && Holds(data, o, U32s(enc, xs)) && Fits(xs)
    ensures ReadU32s(words, o, |xs|) == Some(xs)
    decreases |xs|
  {
    if xs != [] {
      HoldsSplit(data, o, enc(xs[0]), U32s(enc, xs[1..]));
      ReadAllWritten(data, words, enc, o + 4, xs[1..]);
      assert [xs[0]] + xs[1..] == xs;
    }
  }

  lemma ReadName(data: seq<Byte>, o: nat, name: seq<Byte>)
    requires Holds(data, o, name)
    ensures Slice(data, o, o + |name|) == name
  {
  }

  function HeaderBytes(h: Header): seq<Byte> {
    match h.format
    case GGML => LMGG
    case GGMF => FMGG + U32(h.version)
    case GGJT => TJGG + U32(h.version)
  }

  predicate KnownHeader(h: Header) {
    match h.format case GGJT => 1 <= h.version <= 3 case _ => h.version == 1
  }

  lemma ReadHeader(data: seq<Byte>, h: Header)
    requires Holds(data, 0, HeaderBytes(h)) && KnownHeader(h)
    ensures HeaderAt(data, 0) == Some(h) && |HeaderBytes(h)| == HeaderSize(h)
  {
    if !h.format.GGML? {
      var magic := if h.format.GGMF? then FMGG else TJGG;
      HoldsSplit(data, 0, magic, U32(h.version));
      ReadWritten(data, 4, h.version);
      assert LMGG[0] == 108 && magic[0] != 108;
      assert FMGG[0] == 102 && TJGG[0] == 116;
    } else {
    }
  }

  // Vocabulary

  function ItemBytes(i: Item, scores: bool): seq<Byte> {
    U32(|i.text|) + (i.text + if scores then i.score else [])
  }

  predicate Writable(i: Item, scores: bool) {
    |i.text| < 4096 && if scores then |i.score| == 4 else i.score == ZERO
  }

  lemma ItemIs(data: seq<Byte>, o: nat, i: Item, scores: bool, end: nat)
    requires end == o + 4 + |i.text| && |i.text| < 4096
    requires ReadU32(data, o) == Some(|i.text|) && Slice(data, o + 4, end) == i.text
    requires if scores then end + 4 <= |data| && data[end..end + 4] == i.score else i.score == ZERO
    ensures ItemAt(data, o, scores) == Some((i, if scores then end + 4 else end))
  {
  }

  /** What stands where in an item. */
  lemma ItemParts(data: seq<Byte>, o: nat, len: seq<Byte>, text: seq<Byte>, tail: seq<Byte>, end: nat)
    requires Holds(data, o, len + (text + tail)) && |len| == 4 && end == o + 4 + |text|
    ensures Holds(data, o, len) && Slice(data, o + 4, end) == text
    ensures end + |tail| <= |data| && data[end..end + |tail|] == tail
  {
    HoldsSplit(data, o, len, text + tail);
    HoldsSplit(data, o + 4, text, tail);
    ReadName(data, o + 4, text);
  }

  lemma ReadItem(data: seq<Byte>, o: nat, i: Item, scores: bool)
    requires Holds(data, o, ItemBytes(i, scores)) && Writable(i, scores)
    ensures ItemAt(data, o, scores) == Some((i, o + |ItemBytes(i, scores)|))
  {
    hide Holds, ItemAt, Slice, ReadU32;
    ItemParts(data, o, U32(|i.text|), i.text, if scores then i.score else [], o + 4 + |i.text|);
    ReadWritten(data, o, |i.text|);
    ItemIs(data, o, i, scores, o + 4 + |i.text|);
  }

  type ItemWriter = Item -> seq<Byte>

  function WriterOf(scores: bool): ItemWriter {
    i => ItemBytes(i, scores)
  }

  function ItemsBytes(write: ItemWriter, items: seq<Item>): seq<Byte> {
    if items == [] then [] else write(items[0]) + ItemsBytes(write, items[1..])
  }

  predicate ReadBackItem(data: seq<Byte>, read: ItemReader, write: ItemWriter, i: Item, o: nat) {
    Holds(data, o, write(i)) ==> read(o) == Some((i, o + |write(i)|))
  }

  lemma ReadItemBack(data: seq<Byte>, o: nat, i: Item, scores: bool)
    requires Writable(i, scores)
    ensures ReadBackItem(data, ItemsOf(data, scores), WriterOf(scores), i, o)
  {
    if Holds(data, o, ItemBytes(i, scores)) {
      ReadItem(data, o, i, scores);
    }
  }

  /** Wherever one of the items stands, it is read back. */
  ghost predicate ReadBack(data: seq<Byte>, read: ItemReader, write: ItemWriter, items: seq<Item>) {
    forall o: nat, i :: 0 <= i < |items| ==> ReadBackItem(data, read, write, items[i], o)
  }

  lemma ReadBackItems(data: seq<Byte>, items: seq<Item>, scores: bool)
    requires forall i :: 0 <= i < |items| ==> Writable(items[i], scores)
    ensures ReadBack(data, ItemsOf(data, scores), WriterOf(scores), items)
  {
    forall o: nat, i | 0 <= i < |items| ensures ReadBackItem(data, ItemsOf(data, scores), WriterOf(scores), items[i], o) {
      ReadItemBack(data, o, items[i], scores);
    }
  }

  lemma ReadBackRest(data: seq<Byte>, read: ItemReader, write: ItemWriter, items: seq<Item>)
    requires items != [] && ReadBack(data, read, write, items)
    ensures ReadBack(data, read, write, items[1..])
  {
    forall o: nat, i | 0 <= i < |items| - 1 ensures ReadBackItem(data, read, write, items[1..][i], o) {
      assert items[1..][i] == items[i + 1];
    }
  }

  lemma MoreItems(read: ItemReader, o: nat, item: Item, at: nat, rest: seq<Item>, end: nat)
    requires read(o) == Some((item, at)) && ItemsAt(read, at, |rest|) == Some((rest, end))
    ensures ItemsAt(read, o, |rest| + 1) == Some(([item] + rest, end))
  {
  }

  lemma ReadFirstItem(data: seq<Byte>, read: ItemReader, write: ItemWriter, o: nat, items: seq<Item>, rest: seq<Byte>)
    requires items != [] && ReadBack(data, read, write, items) && Holds(data, o, write(items[0]) + rest)
    ensures read(o) == Some((items[0], o + |write(items[0])|)) && Holds(data, o + |write(items[0])|, rest)
  {
    HoldsSplit(data, o, write(items[0]), rest);
    assert ReadBackItem(data, read, write, items[0], o);
  }

  lemma {:induction false} ReadItems(
    data: seq<Byte>, read: ItemReader, write: ItemWriter, o: nat, items: seq<Item>, written: seq<Byte>)
    requires ReadBack(data, read, write, items) && written == ItemsBytes(write, items) && Holds(data, o, written)
    ensures ItemsAt(read, o, |items|) == Some((items, o + |written|))
    decreases |items|
  {
    if items != [] {
      var rest, at := ItemsBytes(write, items[1..]), o + |write(items[0])|;
      ReadFirstItem(data, read, write, o, items, rest);
      ReadBackRest(data, read, write, items);
      ReadItems(data, read, write, at, items[1..], rest);
      MoreItems(read, o, items[0], at, items[1..], o + |written|);
      assert [items[0]] + items[1..] == items;
    }
  }

  // Tensors

  /** A tensor to be written. */
  datatype Record = Record(name: seq<Byte>, dims: seq<nat>, dtype: nat, data: seq<Byte>)

  predicate Storable(r: Record, count: Counter) {
    && |r.dims| <= 4 && Fits(r.dims) && |r.name| < 4096 && r.dtype < 0x1_0000_0000
    && count(r.dims, r.dtype) == Some(|r.data|)
  }

  function Zeros(n: nat): (s: seq<Byte>)
    ensures |s| == n
  {
    seq(n, _ => 0)
  }

  /** Where the data of a record written at `o` starts. */
  function DataStart(o: nat, r: Record, padded: bool): nat {
    Align(o + 12 + 4 * |r.dims| + |r.name|, padded)
  }

  function RecordBytes(enc: Encoder, o: nat, r: Record, padded: bool): seq<Byte> {
    var at := o + 12 + 4 * |r.dims| + |r.name|;
    U32s(enc, [|r.dims|, |r.name|, r.dtype]) + (U32s(enc, r.dims) + (r.name + (Zeros(Align(at, padded) - at) + r.data)))
  }

  function Described(o: nat, r: Record, padded: bool): Tensor {
    Tensor(r.name, r.dims, r.dtype, DataStart(o, r, padded), |r.data|)
  }

  /** What stands where in a record. */
  lemma RecordParts(data: seq<Byte>, o: nat, head: seq<Byte>, dims: seq<Byte>, name: seq<Byte>, pad: seq<Byte>, body: seq<Byte>)
    requires Holds(data, o, head + (dims + (name + (pad + body))))
    ensures Holds(data, o, head) && Holds(data, o + |head|, dims) && Holds(data, o + |head| + |dims|, name)
    ensures Holds(data, o + |head| + |dims| + |name| + |pad|, body)
  {
    HoldsSplit(data, o, head, dims + (name + (pad + body)));
    HoldsSplit(data, o + |head|, dims, name + (pad + body));
    HoldsSplit(data, o + |head| + |dims|, name, pad + body);
    HoldsSplit(data, o + |head| + |dims| + |name|, pad, body);
  }

  lemma Assemble(data: seq<Byte>, words: Words, o: nat, padded: bool, count: Counter, head: seq<nat>, dims: seq<nat>, name: seq<Byte>)
    requires |head| == 3 && head[0] == |dims| <= 4 && head[1] == |name| < 4096 && count(dims, head[2]).Some?
    requires ReadU32s(words, o, 3) == Some(head) && ReadU32s(words, o + 12, |dims|) == Some(dims)
    requires Slice(data, o + 12 + 4 * |dims|, o + 12 + 4 * |dims| + |name|) == name
    ensures TensorAt(data, words, o, padded, count) ==
      Some(Tensor(name, dims, head[2], Align(o + 12 + 4 * |dims| + |name|, padded), count(dims, head[2]).value))
  {
  }

  lemma AssembleRecord(data: seq<Byte>, words: Words, o: nat, padded: bool, count: Counter, head: seq<nat>, r: Record)
    requires |head| == 3 && head[0] == |r.dims| && head[1] == |r.name| && head[2] == r.dtype && Storable(r, count)
    requires ReadU32s(words, o, 3) == Some(head) && ReadU32s(words, o + 12, |r.dims|) == Some(r.dims)
    requires Slice(data, o + 12 + 4 * |r.dims|, o + 12 + 4 * |r.dims| + |r.name|) == r.name
    ensures TensorAt(data, words, o, padded, count) == Some(Described(o, r, padded))
  {
    Assemble(data, words, o, padded, count, head, r.dims, r.name);
  }

  lemma RecordLayout(data: seq<Byte>, words: Words, enc: Encoder, o: nat, r: Record, padded: bool, head: seq<nat>)
    requires head == [|r.dims|, |r.name|, r.dtype]
    requires Coded(data, words, enc) && Holds(data, o, RecordBytes(enc, o, r, padded))
    ensures Holds(data, o, U32s(enc, head)) && Holds(data, o + 12, U32s(enc, r.dims))
    ensures Holds(data, o + 12 + 4 * |r.dims|, r.name) && Holds(data, DataStart(o, r, padded), r.data)
    ensures o + |RecordBytes(enc, o, r, padded)| == DataStart(o, r, padded) + |r.data|
  {
    hide Holds, U32s;
    var at := o + 12 + 4 * |r.dims| + |r.name|;
    U32sLength(data, words, enc, head);
    U32sLength(data, words, enc, r.dims);
    RecordParts(data, o, U32s(enc, head), U32s(enc, r.dims), r.name, Zeros(Align(at, padded) - at), r.data);
  }

  lemma ReadNumbers(data: seq<Byte>, words: Words, enc: Encoder, o: nat, head: seq<nat>, dims: seq<nat>)
    requires Coded(data, words, enc) && |head| == 3 && Fits(head) && Fits(dims)
    requires Holds(data, o, U32s(enc, head)) && Holds(data, o + 12, U32s(enc, dims))
    ensures ReadU32s(words, o, 3) == Some(head) && ReadU32s(words, o + 12, |dims|) == Some(dims)
  {
    ReadAllWritten(data, words, enc, o, head);
    ReadAllWritten(data, words, enc, o + 12, dims);
  }

  lemma HeadFits(r: Record, count: Counter, head: seq<nat>)
    requires Storable(r, count) && head == [|r.dims|, |r.name|, r.dtype]
    ensures Fits(head)
  {
  }

  lemma ReadLaid(data: seq<Byte>, words: Words, enc: Encoder, o: nat, r: Record, count: Counter, head: seq<nat>)
    requires Coded(data, words, enc) && Storable(r, count) && head == [|r.dims|, |r.name|, r.dtype]
    requires Holds(data, o, U32s(enc, head)) && Holds(data, o + 12, U32s(enc, r.dims)) && Holds(data, o + 12 + 4 * |r.dims|, r.name)
    ensures ReadU32s(words, o, 3) == Some(head) && ReadU32s(words, o + 12, |r.dims|) == Some(r.dims)
    ensures Slice(data, o + 12 + 4 * |r.dims|, o + 12 + 4 * |r.dims| + |r.name|) == r.name
  {
    HeadFits(r, count, head);
    ReadNumbers(data, words, enc, o, head, r.dims);
    ReadName(data, o + 12 + 4 * |r.dims|, r.name);
  }

  /** A record is read back, and its data stands where the descriptor says. */
  lemma ReadRecord(data: seq<Byte>, words: Words, enc: Encoder, o: nat, r: Record, padded: bool, count: Counter)
    requires Coded(data, words, enc) && Holds(data, o, RecordBytes(enc, o, r, padded)) && Storable(r, count)
    ensures TensorAt(data, words, o, padded, count) == Some(Described(o, r, padded))
    ensures Holds(data, DataStart(o, r, padded), r.data)
    ensures o + |RecordBytes(enc, o, r, padded)| == DataStart(o, r, padded) + |r.data|
  {
    var head := [|r.dims|, |r.name|, r.dtype];
    RecordLayout(data, words, enc, o, r, padded, head);
    ReadLaid(data, words, enc, o, r, count, head);
    AssembleRecord(data, words, o, padded, count, head, r);
  }

  /** How a record is written at an offset. */
  type Writer = (nat, Record) -> seq<Byte>

  function RecordWriter(enc: Encoder, padded: bool): Writer {
    (o: nat, r: Record) => RecordBytes(enc, o, r, padded)
  }

  function RecordsBytes(write: Writer, o: nat, rs: seq<Record>): seq<Byte>
    decreases |rs|
  {
    if rs == [] then []
    else write(o, rs[0]) + RecordsBytes(write, o + |write(o, rs[0])|, rs[1..])
  }

  function AllDescribed(write: Writer, o: nat, rs: seq<Record>, padded: bool): (ts: seq<Tensor>)
    ensures |ts| == |rs|
    decreases |rs|
  {
    if rs == [] then []
    else [Described(o, rs[0], padded)] + AllDescribed(write, o + |write(o, rs[0])|, rs[1..], padded)
  }

  lemma MoreTensors(read: Reader, size: nat, o: nat, t: Tensor, next: nat, ts: seq<Tensor>, n: nat)
    requires o < size && read(o) == Some(t) && next == Next(t) && Rounds(read, size, next, n) == Done(ts, size)
    ensures Rounds(read, size, o, n + 1) == Done([t] + ts, size)
  {
  }

  lemma NextIs(t: Tensor, next: nat)
    requires t.start + t.len == next < WORD / 2
    ensures Next(t) == next
  {
    WrapSum(next);
  }

  /** The data of each record stands where its descriptor says. */
  predicate DataInPlace(data: seq<Byte>, ts: seq<Tensor>, rs: seq<Record>) {
    |ts| == |rs| && forall i :: 0 <= i < |rs| ==> ts[i].start >= 0 && Holds(data, ts[i].start, rs[i].data)
  }

  lemma MoreInPlace(data: seq<Byte>, t: Tensor, ts: seq<Tensor>, r: Record, rs: seq<Record>)
    requires DataInPlace(data, ts, rs) && t.start >= 0 && Holds(data, t.start, r.data)
    ensures DataInPlace(data, [t] + ts, [r] + rs)
  {
  }

  /** Wherever the record stands, it is read back, its data stands where the descriptor says, and
      reading goes on after it. */
  ghost predicate ReadBackAt(data: seq<Byte>, read: Reader, write: Writer, r: Record, padded: bool, o: nat) {
    Holds(data, o, write(o, r)) ==>
      && read(o) == Some(Described(o, r, padded))
      && Holds(data, DataStart(o, r, padded), r.data)
      && o + 12 <= DataStart(o, r, padded)
      && o + |write(o, r)| == DataStart(o, r, padded) + |r.data| <= |data|
  }

  lemma ReadBackRecord(data: seq<Byte>, enc: Encoder, o: nat, r: Record, padded: bool, count: Counter)
    requires Coded(data, WordsOf(data), enc) && Storable(r, count)
    ensures ReadBackAt(data, TensorReader(data, padded, count), RecordWriter(enc, padded), r, padded, o)
  {
    if Holds(data, o, RecordBytes(enc, o, r, padded)) {
      ReadRecord(data, WordsOf(data), enc, o, r, padded, count);
    }
  }

  /** One record, and where the next one starts. */
  lemma FirstRecord(data: seq<Byte>, read: Reader, write: Writer, o: nat, r: Record, padded: bool, rest: seq<Byte>, next: nat)
    requires ReadBackAt(data, read, write, r, padded, o) && Holds(data, o, write(o, r) + rest) && next == o + |write(o, r)|
    ensures Holds(data, next, rest) && Holds(data, DataStart(o, r, padded), r.data)
    ensures o < next <= |data| && read(o) == Some(Described(o, r, padded))
    ensures DataStart(o, r, padded) + |r.data| == next
  {
    HoldsSplit(data, o, write(o, r), rest);
  }

  /** One record in front of others that have been read. */
  lemma RecordRead(data: seq<Byte>, read: Reader, o: nat, t: Tensor, next: nat, ts: seq<Tensor>, n: nat)
    requires read(o) == Some(t) && o < next <= |data| < WORD / 2 && t.start + t.len == next
    requires Rounds(read, |data|, next, n) == Done(ts, |data|)
    ensures Rounds(read, |data|, o, n + 1) == Done([t] + ts, |data|)
  {
    NextIs(t, next);
    MoreTensors(read, |data|, o, t, next, ts, n);
  }

  /** Each of the records can be read back, wherever it stands. */
  ghost predicate AllReadBack(data: seq<Byte>, read: Reader, write: Writer, rs: seq<Record>, padded: bool) {
    forall o: nat, i :: 0 <= i < |rs| ==> ReadBackAt(data, read, write, rs[i], padded, o)
  }

  lemma AllReadBackRest(data: seq<Byte>, read: Reader, write: Writer, rs: seq<Record>, padded: bool)
    requires AllReadBack(data, read, write, rs, padded) && rs != []
    ensures AllReadBack(data, read, write, rs[1..], padded)
  {
    forall o: nat, i | 0 <= i < |rs| - 1 ensures ReadBackAt(data, read, write, rs[1..][i], padded, o) {
      assert rs[1..][i] == rs[i + 1];
    }
  }

  /** As long as records can be read back, so can a list of them. */
  lemma {:induction false} ReadRecords(
    data: seq<Byte>, read: Reader, write: Writer, o: nat, rs: seq<Record>, padded: bool, written: seq<Byte>, ts: seq<Tensor>)
    requires AllReadBack(data, read, write, rs, padded) && ts == AllDescribed(write, o, rs, padded)
    requires written == RecordsBytes(write, o, rs) && Holds(data, o, written) && |data| == o + |written| < WORD / 2
    ensures Rounds(read, |data|, o, |rs|) == Done(ts, |data|) && DataInPlace(data, ts, rs)
    decreases |rs|
  {
    if rs != [] {
      var r, next, tail := rs[0], o + |write(o, rs[0])|, rs[1..];
      var rest, us := RecordsBytes(write, next, tail), AllDescribed(write, next, tail, padded);
      FirstRecord(data, read, write, o, r, padded, rest, next);
      AllReadBackRest(data, read, write, rs, padded);
      ReadRecords(data, read, write, next, tail, padded, rest, us);
      RecordRead(data, read, o, Described(o, r, padded), next, us, |tail|);
      assert [r] + tail == rs;
      MoreInPlace(data, Described(o, r, padded), us, r, tail);
    }
  }

  // ---------------------------------------------------------------------
  // Whole files

  datatype File = File(header: Header, hyper: seq<nat>, items: seq<Item>, records: seq<Record>)

  function Scores(f: File): bool { !f.header.format.GGML? }
  function Padded(f: File): bool { f.header.format.GGJT? }

  function ItemsPart(f: File): seq<Byte> { ItemsBytes(WriterOf(Scores(f)), f.items) }

  /** Where the tensors start. */
  function RecordsStart(f: File): nat { HeaderSize(f.header) + 28 + |ItemsPart(f)| }

  function RecordsPart(f: File): seq<Byte> {
    RecordsBytes(RecordWriter(ENCODER, Padded(f)), RecordsStart(f), f.records)
  }

  function Image(f: File): seq<Byte> {
    HeaderBytes(f.header) + (U32s(ENCODER, f.hyper) + (ItemsPart(f) + RecordsPart(f)))
  }

  function TensorsOf(f: File): seq<Tensor> {
    AllDescribed(RecordWriter(ENCODER, Padded(f)), RecordsStart(f), f.records, Padded(f))
  }

  predicate Printable(f: File, sizes: Sizes, ffName: seq<Byte>) {
    && KnownHeader(f.header)
    && |f.hyper| == 7 && Fits(f.hyper) && KnownType(f.hyper[6]) && Convertible(f.header, f.hyper[6])
    && f.hyper[0] == |f.items| && (forall i :: 0 <= i < |f.items| ==> Writable(f.items[i], Scores(f)))
    && (forall i :: 0 <= i < |f.records| ==> Storable(f.records[i], CountOf(sizes)))
    && FeedForward(TensorsOf(f), ffName).Some? && |Image(f)| < WORD / 2
  }

  lemma HoldsAll(data: seq<Byte>)
    ensures Holds(data, 0, data)
  {
  }

  lemma FourParts(data: seq<Byte>, a: seq<Byte>, b: seq<Byte>, c: seq<Byte>, d: seq<Byte>)
    requires Holds(data, 0, a + (b + (c + d)))
    ensures Holds(data, 0, a) && Holds(data, |a|, b) && Holds(data, |a| + |b|, c) && Holds(data, |a| + |b| + |c|, d)
  {
    HoldsSplit(data, 0, a, b + (c + d));
    HoldsSplit(data, |a|, b, c + d);
    HoldsSplit(data, |a| + |b|, c, d);
  }

  /** The four parts of an image, each at its place. */
  lemma ImageParts(f: File, data: seq<Byte>)
    requires data == Image(f) && |f.hyper| == 7 && KnownHeader(f.header)
    ensures Holds(data, 0, HeaderBytes(f.header)) && Holds(data, HeaderSize(f.header), U32s(ENCODER, f.hyper))
    ensures Holds(data, HeaderSize(f.header) + 28, ItemsPart(f)) && Holds(data, RecordsStart(f), RecordsPart(f))
    ensures |data| == RecordsStart(f) + |RecordsPart(f)|
  {
    HeaderLength(f.header);
    CodedU32(data);
    U32sLength(data, WordsOf(data), ENCODER, f.hyper);
    HoldsAll(data);
    FourParts(data, HeaderBytes(f.header), U32s(ENCODER, f.hyper), ItemsPart(f), RecordsPart(f));
  }

  lemma HeaderLength(h: Header)
    ensures |HeaderBytes(h)| == HeaderSize(h)
  {
  }

  lemma LoadParts(data: seq<Byte>, sizes: Sizes, ffName: seq<Byte>, h: Header, hyper: seq<nat>, items: seq<Item>, at: nat, ts: seq<Tensor>, nFf: nat)
    requires HeaderAt(data, 0) == Some(h) && ReadU32s(WordsOf(data), HeaderSize(h), 7) == Some(hyper)
    requires |hyper| == 7 && KnownType(hyper[6]) && Convertible(h, hyper[6])
    requires ItemsAt(ItemsOf(data, !h.format.GGML?), HeaderSize(h) + 28, hyper[0]) == Some((items, at))
    requires TensorsAt(TensorReader(data, h.format.GGJT?, CountOf(sizes)), |data|, at) == Done(ts, |data|)
    requires FeedForward(ts, ffName) == Some(nFf)
    ensures LoadedFrom(data, sizes, ffName) == Loaded(Model(h, Hyper(hyper), items, ts, nFf, |data|))
  {
  }

  lemma ImageHead(f: File, data: seq<Byte>)
    requires data == Image(f) && KnownHeader(f.header) && |f.hyper| == 7 && Fits(f.hyper)
    ensures HeaderAt(data, 0) == Some(f.header)
    ensures ReadU32s(WordsOf(data), HeaderSize(f.header), 7) == Some(f.hyper)
  {
    ImageParts(f, data);
    ReadHeader(data, f.header);
    CodedU32(data);
    ReadAllWritten(data, WordsOf(data), ENCODER, HeaderSize(f.header), f.hyper);
  }

  lemma ImageVocab(f: File, data: seq<Byte>)
    requires data == Image(f) && KnownHeader(f.header) && |f.hyper| == 7
    requires forall i :: 0 <= i < |f.items| ==> Writable(f.items[i], Scores(f))
    ensures ItemsAt(ItemsOf(data, Scores(f)), HeaderSize(f.header) + 28, |f.items|) == Some((f.items, RecordsStart(f)))
  {
    ImageParts(f, data);
    VocabHeld(data, HeaderSize(f.header) + 28, f.items, Scores(f), ItemsPart(f));
  }

  lemma VocabHeld(data: seq<Byte>, o: nat, items: seq<Item>, scores: bool, written: seq<Byte>)
    requires forall i :: 0 <= i < |items| ==> Writable(items[i], scores)
    requires written == ItemsBytes(WriterOf(scores), items) && Holds(data, o, written)
    ensures ItemsAt(ItemsOf(data, scores), o, |items|) == Some((items, o + |written|))
  {
    ReadBackItems(data, items, scores);
    ReadItems(data, ItemsOf(data, scores), WriterOf(scores), o, items, written);
  }

  lemma ImageRecords(f: File, data: seq<Byte>, sizes: Sizes)
    requires data == Image(f) && KnownHeader(f.header) && |f.hyper| == 7 && |data| < WORD / 2
    requires forall i :: 0 <= i < |f.records| ==> Storable(f.records[i], CountOf(sizes))
    ensures TensorsAt(TensorReader(data, Padded(f), CountOf(sizes)), |data|, RecordsStart(f)) == Done(TensorsOf(f), |data|)
    ensures DataInPlace(data, TensorsOf(f), f.records)
  {
    ImageParts(f, data);
    CodedU32(data);
    var read, write := TensorReader(data, Padded(f), CountOf(sizes)), RecordWriter(ENCODER, Padded(f));
    forall o: nat, i | 0 <= i < |f.records| ensures ReadBackAt(data, read, write, f.records[i], Padded(f), o) {
      ReadBackRecord(data, ENCODER, o, f.records[i], Padded(f), CountOf(sizes));
    }
    assert AllReadBack(data, read, write, f.records, Padded(f));
    ReadRecords(data, read, write, RecordsStart(f), f.records, Padded(f), RecordsPart(f), TensorsOf(f));
    ReaderSound(data, Padded(f), sizes, read);
    EndsAlike(read, |data|, RecordsStart(f), |f.records|);
  }

  /** Loading the image of a file gives its header, hyperparameters, items and tensor descriptors, to
      the end of the image, and each tensor's data stands where its descriptor says. */
  lemma LoadImage(f: File, sizes: Sizes, ffName: seq<Byte>)
    requires Printable(f, sizes, ffName)
    ensures LoadedFrom(Image(f), sizes, ffName) ==
      Loaded(Model(f.header, Hyper(f.hyper), f.items, TensorsOf(f), FeedForward(TensorsOf(f), ffName).value, |Image(f)|))
    ensures DataInPlace(Image(f), TensorsOf(f), f.records)
  {
    hide Image, TensorsAt, HeaderAt, ReadU32s, ItemsAt, LoadedFrom, FeedForward, TensorsOf, DataInPlace, KnownType, Convertible, Writable, Storable;
    var data := Image(f);
    ImageHead(f, data);
    ImageVocab(f, data);
    ImageRecords(f, data, sizes);
    LoadParts(data, sizes, ffName, f.header, f.hyper, f.items, RecordsStart(f), TensorsOf(f), FeedForward(TensorsOf(f), ffName).value);
  }

  // ---------------------------------------------------------------------
  // Files that are never read to the end

  /** The tensors are reached, and start at `o`. */
  ghost predicate HeadRead(data: seq<Byte>, h: Header, hyper: seq<nat>, items: seq<Item>, o: nat) {
    && HeaderAt(data, 0) == Some(h) && HyperAt(WordsOf(data), HeaderSize(h)) == Some(Hyper(hyper))
    && |hyper| == 7 && Convertible(h, hyper[6])
    && ItemsAt(ItemsOf(data, !h.format.GGML?), HeaderSize(h) + 28, hyper[0]) == Some((items, o))
  }

  lemma HeadLoaded(data: seq<Byte>, sizes: Sizes, ffName: seq<Byte>, h: Header, hyper: seq<nat>, items: seq<Item>, o: nat)
    requires HeadRead(data, h, hyper, items, o)
    ensures LoadedFrom(data, sizes, ffName).Endless? <==>
      TensorsAt(TensorReader(data, h.format.GGJT?, CountOf(sizes)), |data|, o).Forever?
  {
  }

  lemma HeadMissing(data: seq<Byte>, sizes: Sizes, ffName: seq<Byte>)
    requires LoadedFrom(data, sizes, ffName).Endless?
    ensures exists h, hyper, items, o: nat :: HeadRead(data, h, hyper, items, o)
  {
    var h := HeaderAt(data, 0).value;
    var hp := HyperAt(WordsOf(data), HeaderSize(h)).value;
    var items := ItemsAt(ItemsOf(data, !h.format.GGML?), HeaderSize(h) + 28, hp.values[0]).value;
    assert HeadRead(data, h, hp.values, items.0, items.1);
  }

  lemma HeadEndless(data: seq<Byte>, sizes: Sizes, ffName: seq<Byte>, h: Header, hyper: seq<nat>, items: seq<Item>, o: nat)
    requires HeadRead(data, h, hyper, items, o)
    ensures LoadedFrom(data, sizes, ffName).Endless? <==>
      Revisits(TensorReader(data, h.format.GGJT?, CountOf(sizes)), |data|, o)
  {
    HeadLoaded(data, sizes, ffName, h, hyper, items, o);
    var read := TensorReader(data, h.format.GGJT?, CountOf(sizes));
    ReaderSound(data, h.format.GGJT?, sizes, read);
    ForeverExactly(read, |data|, o);
  }

  /** Loading a file never ends if and only if its header, hyperparameters and vocabulary are read and the
      loop over the tensors then reaches an offset twice. */
  lemma EndlessExactly(data: seq<Byte>, sizes: Sizes, ffName: seq<Byte>)
    ensures LoadedFrom(data, sizes, ffName).Endless? <==>
      exists h, hyper, items, o: nat ::
        HeadRead(data, h, hyper, items, o) && Revisits(TensorReader(data, h.format.GGJT?, CountOf(sizes)), |data|, o)
  {
    if LoadedFrom(data, sizes, ffName).Endless? {
      HeadMissing(data, sizes, ffName);
    }
    forall h, hyper, items, o: nat | HeadRead(data, h, hyper, items, o)
      ensures LoadedFrom(data, sizes, ffName).Endless? <==>
        Revisits(TensorReader(data, h.format.GGJT?, CountOf(sizes)), |data|, o)
    {
      HeadEndless(data, sizes, ffName, h, hyper, items, o);
    }
  }

  const STUCK_HEAD: seq<nat> := [2, 16, 0]
  const STUCK_DIMS: seq<nat> := [0x7FFF_FFFD, 0x8000_0003]
  const STUCK_HYPER: seq<nat> := [0, 0, 0, 0, 0, 0, 0]

  /** The oldest format, no vocabulary, and one record of 36 bytes whose size comes out as -36. */
  function StuckFile(name: seq<Byte>): seq<Byte> {
    LMGG + (U32s(ENCODER, STUCK_HYPER) + ([] + StuckRecord(name)))
  }

  function StuckRecord(name: seq<Byte>): seq<Byte> {
    RecordBytes(ENCODER, 32, Record(name, STUCK_DIMS, 0, []), false)
  }

  lemma StuckCount(size: Size)
    requires size == (1, 4)
    ensures ByteCount(STUCK_DIMS, size) == -36
  {
    assert STUCK_DIMS[1..] == [0x8000_0003] && STUCK_DIMS[1..][1..] == [];
    assert Product([]) == 1;
    assert Product([0x8000_0003]) == 0x8000_0003;
    assert Product(STUCK_DIMS) == 0x7FFF_FFFD * 0x8000_0003;
  }

  lemma StuckNext(data: seq<Byte>, words: Words, o: nat, count: Counter, name: seq<Byte>, t: Option<Tensor>)
    requires t == TensorAt(data, words, o, false, count)
    requires |name| == 16 && o < WORD / 2 && count(STUCK_DIMS, 0) == Some(-36)
    requires ReadU32s(words, o, 3) == Some(STUCK_HEAD) && ReadU32s(words, o + 12, 2) == Some(STUCK_DIMS)
    requires Slice(data, o + 20, o + 36) == name
    ensures t.Some? && Next(t.value) == o
  {
    Assemble(data, words, o, false, count, STUCK_HEAD, STUCK_DIMS, name);
    NextIs(t.value, o);
  }

  lemma StuckNumbers(data: seq<Byte>, words: Words, enc: Encoder, o: nat, name: seq<Byte>)
    requires Coded(data, words, enc) && |name| == 16 && Holds(data, o, RecordBytes(enc, o, Record(name, STUCK_DIMS, 0, []), false))
    ensures ReadU32s(words, o, 3) == Some(STUCK_HEAD) && ReadU32s(words, o + 12, 2) == Some(STUCK_DIMS)
    ensures Slice(data, o + 20, o + 36) == name
  {
    RecordLayout(data, words, enc, o, Record(name, STUCK_DIMS, 0, []), false, STUCK_HEAD);
    ReadNumbers(data, words, enc, o, STUCK_HEAD, STUCK_DIMS);
    ReadName(data, o + 20, name);
  }

  /** A 32-bit float tensor with these dimensions has a size that wraps to minus the length of its
      own record. */
  lemma StuckTensor(data: seq<Byte>, o: nat, sizes: Sizes, name: seq<Byte>, read: Reader)
    requires 0 in sizes && sizes[0] == (1, 4) && |name| == 16 && o < WORD / 2 && read == TensorReader(data, false, CountOf(sizes))
    requires Holds(data, o, RecordBytes(ENCODER, o, Record(name, STUCK_DIMS, 0, []), false))
    ensures read(o).Some? && Next(read(o).value) == o
  {
    CodedU32(data);
    StuckNumbers(data, WordsOf(data), ENCODER, o, name);
    StuckCount(sizes[0]);
    StuckNext(data, WordsOf(data), o, CountOf(sizes), name, read(o));
  }

  /** Where the parts of the file stand. */
  lemma StuckParts(data: seq<Byte>, name: seq<Byte>)
    requires data == StuckFile(name)
    ensures Holds(data, 0, LMGG) && Holds(data, 4, U32s(ENCODER, STUCK_HYPER)) && Holds(data, 32, StuckRecord(name))
    ensures |data| >= 44
  {
    CodedU32(data);
    U32sLength(data, WordsOf(data), ENCODER, STUCK_HYPER);
    U32sLength(data, WordsOf(data), ENCODER, STUCK_HEAD);
    HoldsAll(data);
    FourParts(data, LMGG, U32s(ENCODER, STUCK_HYPER), [], StuckRecord(name));
  }

  lemma StuckRead(data: seq<Byte>, name: seq<Byte>)
    requires data == StuckFile(name)
    ensures HeadRead(data, Header(GGML, 1), STUCK_HYPER, [], 32)
  {
    StuckParts(data, name);
    CodedU32(data);
    ReadAllWritten(data, WordsOf(data), ENCODER, 4, STUCK_HYPER);
  }

  /** Whatever the name in the record, this file is never read to the end. */
  lemma LoadsForever(name: seq<Byte>, sizes: Sizes, ffName: seq<Byte>)
    requires 0 in sizes && sizes[0] == (1, 4) && |name| == 16
    ensures LoadedFrom(StuckFile(name), sizes, ffName).Endless?
  {
    var data := StuckFile(name);
    var read := TensorReader(data, false, CountOf(sizes));
    StuckParts(data, name);
    StuckTensor(data, 32, sizes, name, read);
    StuckTwice(read, |data|, 32);
    StuckRead(data, name);
    HeadEndless(data, sizes, ffName, Header(GGML, 1), STUCK_HYPER, [], 32);
  }

  lemma StuckTwice(read: Reader, size: nat, o: int)
    requires o < size && read(o).Some? && Next(read(o).value) == o
    ensures Revisits(read, size, o)
  {
    assert Walk(read, size, o, 1) == Walk(read, size, o, 0);
    assert Reaches(read, size, o, 0, o) && Reaches(read, size, o, 1, o);
  }
}
