/** Legacy GGML model files: the loader, which reads a file record by record. */
module GgmlFile {

  import opened Basics

  // ---------------------------------------------------------------------
  // Reading bytes

  function Little(b0: int, b1: int, b2: int, b3: int): int {
    b0 + 0x100 * b1 + 0x1_0000 * b2 + 0x100_0000 * b3
  }

  /** A position as slices count it: from the end where negative, and inside the data. */
  function Clip(i: int, n: nat): (k: nat)
    ensures k <= n && (0 <= i <= n ==> k == i)
  {
    if i < 0 then if i + n < 0 then 0 else i + n else if i <= n then i else n
  }

  /** Python's `data[a:b]`. */
  function Slice(data: seq<Byte>, a: int, b: int): (s: seq<Byte>)
    ensures 0 <= a <= b <= |data| ==> s == data[a..b]
  {
    var i, j := Clip(a, |data|), Clip(b, |data|);
    if i < j then data[i..j] else []
  }

  /** A little-endian 32-bit number; None where the slice is too short. */
  function ReadU32(data: seq<Byte>, o: int): (r: Option<nat>)
    ensures r.Some? <==> 0 <= o <= |data| - 4 || -|data| <= o < -4
    ensures r.Some? ==> r.value < 0x1_0000_0000
  {
    var s := Slice(data, o, o + 4);
    if |s| != 4 then None else Some(Little(s[0], s[1], s[2], s[3]))
  }

  /** The number at each offset. */
  type Words = int -> Option<nat>

  function WordsOf(data: seq<Byte>): Words {
    (o: int) => ReadU32(data, o)
  }

  function ReadU32s(words: Words, o: int, n: nat): (r: Option<seq<nat>>)
    ensures r.Some? ==> |r.value| == n && (n > 0 ==> words(o).Some?)
    decreases n
  {
    if n == 0 then Some([])
    else
      var (x, xs) := (words(o), ReadU32s(words, o + 4, n - 1));
      if x.None? || xs.None? then None else Some([x.value] + xs.value)
  }

  /** Numbers can be read one by one exactly where the slice of all of them is long enough. */
  lemma {:induction false} ReadsWhole(data: seq<Byte>, o: int, n: nat)
    ensures ReadU32s(WordsOf(data), o, n).Some? <==> |Slice(data, o, o + 4 * n)| == 4 * n
    decreases n
  {
    if n > 0 {
      ReadsWhole(data, o + 4, n - 1);
    }
  }

  // ---------------------------------------------------------------------
  // Header and hyperparameters

  datatype Format = GGML | GGMF | GGJT

  datatype Header = Header(format: Format, version: nat)

  function HeaderSize(h: Header): nat {
    if h.format.GGML? then 4 else 8
  }

  const LMGG: seq<Byte> := [108, 109, 103, 103]
  const FMGG: seq<Byte> := [102, 109, 103, 103]
  const TJGG: seq<Byte> := [116, 106, 103, 103]

  /** A GGUF file is refused like any other whose first bytes are not one of the three. */
  function HeaderAt(data: seq<Byte>, o: nat): (r: Option<Header>)
    ensures r.Some? ==> o + HeaderSize(r.value) <= |data|
  {
    var magic := Slice(data, o, o + 4);
    if magic == LMGG then Some(Header(GGML, 1))
    else
      var version := ReadU32(data, o + 4);
      if version.None? then None
      else if magic == FMGG then if version.value != 1 then None else Some(Header(GGMF, 1))
      else if magic == TJGG then if 1 <= version.value <= 3 then Some(Header(GGJT, version.value)) else None
      else None
  }

  predicate KnownType(ftype: nat) {
    ftype <= 4 || 7 <= ftype <= 18
  }

  /** Which file types may be converted, by age of the file. */
  predicate Convertible(h: Header, ftype: nat) {
    if !h.format.GGJT? || h.version < 2 then ftype <= 1
    else h.version == 2 ==> !(2 <= ftype <= 4) && ftype != 7
  }

  /** Vocabulary size, embedding size, multiplier, heads, layers, rotation and file type. */
  datatype Hyper = Hyper(values: seq<nat>)

  function HyperAt(words: Words, o: nat): (r: Option<Hyper>)
    ensures r.Some? ==> |r.value.values| == 7
  {
    var v := ReadU32s(words, o, 7);
    if v.None? || !KnownType(v.value[6]) then None else Some(Hyper(v.value))
  }

  // ---------------------------------------------------------------------
  // Vocabulary

  /** A vocabulary item: its text and the bytes of its score. */
  datatype Item = Item(text: seq<Byte>, score: seq<Byte>)

  const ZERO: seq<Byte> := [0, 0, 0, 0]

  /** One item and the offset after it. */
  function ItemAt(data: seq<Byte>, o: nat, scores: bool): (r: Option<(Item, nat)>)
    ensures r.Some? ==> r.value.1 > o
  {
    var n := ReadU32(data, o);
    if n.None? || n.value >= 4096 then None
    else
      var (text, end) := (Slice(data, o + 4, o + 4 + n.value), o + 4 + n.value);
      if !scores then Some((Item(text, ZERO), end))
      else if ReadU32(data, end).None? then None
      else Some((Item(text, data[end..end + 4]), end + 4))
  }

  /** How the item at an offset is read. */
  type ItemReader = nat -> Option<(Item, nat)>

  function ItemsOf(data: seq<Byte>, scores: bool): ItemReader {
    (o: nat) => ItemAt(data, o, scores)
  }

  function ItemsAt(read: ItemReader, o: nat, n: nat): Option<(seq<Item>, nat)>
    decreases n
  {
    if n == 0 then Some(([], o))
    else
      var first := read(o);
      if first.None? then None
      else After([first.value.0], ItemsAt(read, first.value.1, n - 1))
  }

  function After(items: seq<Item>, r: Option<(seq<Item>, nat)>): Option<(seq<Item>, nat)> {
    if r.None? then None else Some((items + r.value.0, r.value.1))
  }

  lemma AfterTwice(items: seq<Item>, item: Item, r: Option<(seq<Item>, nat)>)
    ensures After(items, After([item], r)) == After(items + [item], r)
  {
    if r.Some? {
      assert items + ([item] + r.value.0) == items + [item] + r.value.0;
    }
  }

  lemma AfterNone(r: Option<(seq<Item>, nat)>)
    ensures After([], r) == r
  {
    if r.Some? {
      assert [] + r.value.0 == r.value.0;
    }
  }

  method LoadVocab(read: ItemReader, start: nat, n: nat) returns (r: Option<(seq<Item>, nat)>)
    ensures r == ItemsAt(read, start, n)
  {
    var items, offset, i := [], start, 0;
    AfterNone(ItemsAt(read, start, n));
    while i < n
      invariant 0 <= i <= n && After(items, ItemsAt(read, offset, n - i)) == ItemsAt(read, start, n)
    {
      var item := read(offset);
      if item.None? {
        return None;
      }
      AfterTwice(items, item.value.0, ItemsAt(read, item.value.1, n - i - 1));
      items, offset, i := items + [item.value.0], item.value.1, i + 1;
    }
    assert items + [] == items;
    return Some((items, offset));
  }

  // ---------------------------------------------------------------------
  // Tensors

  /** Elements per block and bytes per block, by tensor type. */
  type Size = p: (int, int) | 0 < p.0 < 0x1_0000_0000 && 0 < p.1 witness (1, 1)

  type Sizes = map<nat, Size>

  datatype Tensor = Tensor(name: seq<Byte>, dims: seq<nat>, dtype: nat, start: int, len: int)

  function Product(dims: seq<nat>): nat {
    if dims == [] then 1 else dims[0] * Product(dims[1..])
  }

  const WORD := 0x1_0000_0000_0000_0000

  /** A 64-bit signed integer holds a number modulo 2^64. */
  function Wrap(x: int): (w: int)
    ensures -WORD / 2 <= w < WORD / 2
  {
    (x + WORD / 2) % WORD - WORD / 2
  }

  /** The number of data bytes, as computed in 64-bit arithmetic. */
  function ByteCount(dims: seq<nat>, size: Size): int {
    Wrap(Wrap(Product(dims)) * size.1) / size.0
  }

  function Align(o: int, padded: bool): (a: int)
    ensures o <= a < o + 32 && (padded ==> a % 32 == 0)
  {
    if padded then (o + 31) / 32 * 32 else o
  }

  /** How many bytes of data given dimensions and a type take; None for an unknown type. */
  type Counter = (seq<nat>, nat) -> Option<int>

  function CountOf(sizes: Sizes): Counter {
    (dims: seq<nat>, dtype: nat) => if dtype in sizes then Some(ByteCount(dims, sizes[dtype])) else None
  }

  function TensorAt(data: seq<Byte>, words: Words, o: int, padded: bool, count: Counter): Option<Tensor> {
    var h := ReadU32s(words, o, 3);
    if h.None? || h.value[0] > 4 || h.value[1] >= 4096 then None
    else
      var (nDims, nameLen, dtype) := (h.value[0], h.value[1], h.value[2]);
      var (dims, at) := (ReadU32s(words, o + 12, nDims), o + 12 + 4 * nDims);
      if dims.None? then None
      else
        var len := count(dims.value, dtype);
        if len.None? then None
        else Some(Tensor(Slice(data, at, at + nameLen), dims.value, dtype, Align(at + nameLen, padded), len.value))
  }

  /** How the tensor at an offset is read. */
  type Reader = int -> Option<Tensor>

  function TensorReader(data: seq<Byte>, padded: bool, count: Counter): Reader {
    (o: int) => TensorAt(data, WordsOf(data), o, padded, count)
  }

  /** Where reading goes on after a tensor; offsets are 64-bit signed integers too. */
  function Next(t: Tensor): int {
    Wrap(t.start + t.len)
  }

  /** All tensors; or a failure; or a loop that does not end. */
  datatype Outcome = Done(tensors: seq<Tensor>, end: int) | Failed | Forever

  function Prepend(ts: seq<Tensor>, r: Outcome): Outcome {
    match r case Done(rest, end) => Done(ts + rest, end) case _ => r
  }

  /** The loop over the tensors, for at most `n` rounds. */
  function Rounds(read: Reader, size: nat, o: int, n: nat): Outcome
    decreases n
  {
    if o >= size then Done([], o)
    else if n == 0 then Forever
    else
      var t := read(o);
      if t.None? then Failed else Prepend([t.value], Rounds(read, size, Next(t.value), n - 1))
  }

  /** A size can be negative and reading then goes back, behind the start of the file too, where slices
      count from its end. A loop that makes more rounds than there are offsets never ends. */
  function TensorsAt(read: Reader, size: nat, o: int): Outcome {
    Rounds(read, size, o, 2 * size + 1)
  }

  /** The index of each name's last tensor. */
  function Names(ts: seq<Tensor>): map<seq<Byte>, nat> {
    if ts == [] then map[] else Names(ts[..|ts| - 1])[ts[|ts| - 1].name := |ts| - 1]
  }

  lemma PrependTwice(ts: seq<Tensor>, t: Tensor, r: Outcome)
    ensures Prepend(ts, Prepend([t], r)) == Prepend(ts + [t], r)
  {
    if r.Done? {
      assert ts + ([t] + r.tensors) == ts + [t] + r.tensors;
    }
  }

  lemma PrependNone(r: Outcome)
    ensures Prepend([], r) == r
  {
    if r.Done? {
      assert [] + r.tensors == r.tensors;
    }
  }

  method LoadTensors(read: Reader, size: nat, start: int) returns (r: Outcome, names: map<seq<Byte>, nat>)
    ensures r == TensorsAt(read, size, start)
    ensures r.Done? ==> names == Names(r.tensors)
  {
    var offset, tensors, n: nat := start, [], 2 * size + 1;
    names := map[];
    PrependNone(TensorsAt(read, size, start));
    while offset < size
      invariant Prepend(tensors, Rounds(read, size, offset, n)) == TensorsAt(read, size, start)
      invariant names == Names(tensors)
      decreases n
    {
      if n == 0 {
        return Forever, map[];
      }
      var t := read(offset);
      if t.None? {
        return Failed, map[];
      }
      PrependTwice(tensors, t.value, Rounds(read, size, Next(t.value), n - 1));
      names := names[t.value.name := |tensors|];
      assert (tensors + [t.value])[..|tensors|] == tensors;
      tensors, offset, n := tensors + [t.value], Next(t.value), n - 1;
    }
    assert tensors + [] == tensors;
    return Done(tensors, offset), names;
  }

  // ---------------------------------------------------------------------
  // The whole file

  /** The bytes of `layers.0.feed_forward.w1.weight` are given by the caller as `ffName`. */
  datatype Model = Model(header: Header, hyper: Hyper, items: seq<Item>, tensors: seq<Tensor>, nFf: nat, end: int)

  function FeedForward(ts: seq<Tensor>, ffName: seq<Byte>): Option<nat> {
    if ts == [] then None
    else if ts[|ts| - 1].name == ffName then
      if |ts[|ts| - 1].dims| > 1 then Some(ts[|ts| - 1].dims[1]) else None
    else FeedForward(ts[..|ts| - 1], ffName)
  }

  datatype Loading = Loaded(model: Model) | Refused | Endless

  function LoadedFrom(data: seq<Byte>, sizes: Sizes, ffName: seq<Byte>): Loading
  {
    var h := HeaderAt(data, 0);
    if h.None? then Refused
    else
      var hp := HyperAt(WordsOf(data), HeaderSize(h.value));
      if hp.None? || !Convertible(h.value, hp.value.values[6]) then Refused
      else
        var items := ItemsAt(ItemsOf(data, !h.value.format.GGML?), HeaderSize(h.value) + 28, hp.value.values[0]);
        if items.None? then Refused
        else
          match TensorsAt(TensorReader(data, h.value.format.GGJT?, CountOf(sizes)), |data|, items.value.1)
          case Failed => Refused
          case Forever => Endless
          case Done(ts, end) =>
            var nFf := FeedForward(ts, ffName);
            if nFf.None? then Refused
            else Loaded(Model(h.value, hp.value, items.value.0, ts, nFf.value, end))
  }

  lemma {:induction false} NamesFeedForward(ts: seq<Tensor>, ffName: seq<Byte>)
    ensures ffName in Names(ts) ==> Names(ts)[ffName] < |ts|
    ensures FeedForward(ts, ffName) ==
      if ffName in Names(ts) && |ts[Names(ts)[ffName]].dims| > 1 then Some(ts[Names(ts)[ffName]].dims[1]) else None
  {
    if ts != [] {
      NamesFeedForward(ts[..|ts| - 1], ffName);
    }
  }

  method Load(data: seq<Byte>, sizes: Sizes, ffName: seq<Byte>) returns (r: Loading)
    ensures r == LoadedFrom(data, sizes, ffName)
  {
    var h := HeaderAt(data, 0);
    if h.None? {
      return Refused;
    }
    var offset := HeaderSize(h.value);
    var hp := HyperAt(WordsOf(data), offset);
    if hp.None? || !Convertible(h.value, hp.value.values[6]) {
      return Refused;
    }
    offset := offset + 28;
    var items := LoadVocab(ItemsOf(data, !h.value.format.GGML?), offset, hp.value.values[0]);
    if items.None? {
      return Refused;
    }
    var ts, names := LoadTensors(TensorReader(data, h.value.format.GGJT?, CountOf(sizes)), |data|, items.value.1);
    if ts.Failed? {
      return Refused;
    }
    if ts.Forever? {
      return Endless;
    }
    NamesFeedForward(ts.tensors, ffName);
    if ffName !in names || |ts.tensors[names[ffName]].dims| <= 1 {
      return Refused;
    }
    return Loaded(Model(h.value, hp.value, items.value.0, ts.tensors, ts.tensors[names[ffName]].dims[1], ts.end));
  }
}
