/** What the loader guarantees for any file: when the size arithmetic overflows, when the loop over the
    tensors ends, and when the regions it finds are apart. */
module GgmlLaws {

  import opened Basics
  import opened GgmlFile

  // ---------------------------------------------------------------------
  // The size arithmetic

  lemma WrapProduct(x: int, y: int, k: int)
    requires Wrap(x) == x - k * WORD
    ensures Wrap(Wrap(x) * y) == Wrap(x * y)
  {
    var m := k * y;
    assert Wrap(x) * y == x * y - m * WORD;
    WrapShift(x * y, m);
  }

  lemma WrapShift(x: int, m: int)
    ensures Wrap(x - m * WORD) == Wrap(x)
  {
    var a := x + WORD / 2;
    var q, r := a / WORD, a % WORD;
    assert a == q * WORD + r;
    assert a - m * WORD == (q - m) * WORD + r;
    Residue(a - m * WORD, q - m, r);
  }

  lemma Residue(a: int, q: int, r: int)
    requires a == q * WORD + r && 0 <= r < WORD
    ensures a % WORD == r && a / WORD == q
  {
  }

  lemma WrapMultiple(x: int) returns (k: int)
    ensures Wrap(x) == x - k * WORD
  {
    k := (x + WORD / 2) / WORD;
  }

  lemma Larger(d: int, a: int, b: int)
    requires d > 0
    ensures b <= a ==> d * b <= d * a
  {
  }

  lemma Apart(w: int, x: int, d: int)
    requires 0 < d < 0x1_0000_0000 && w <= x - WORD
    ensures w / d < x / d
  {
    assert w == d * (w / d) + w % d && x == d * (x / d) + x % d;
    Larger(d, w / d, x / d);
  }

  /** The computed size is the true one exactly when that many bytes-per-block times elements fit
      in a signed 64-bit number. */
  lemma ByteCountExact(dims: seq<nat>, size: Size)
    ensures ByteCount(dims, size) == Product(dims) * size.1 / size.0 <==> Product(dims) * size.1 < WORD / 2
  {
    var p, x := Product(dims), Product(dims) * size.1;
    var k := WrapMultiple(p);
    WrapProduct(p, size.1, k);
    assert x >= 0 by { assert p >= 0 && size.1 > 0; }
    WrapRange(x);
    if x >= WORD / 2 {
      Apart(Wrap(x), x, size.0);
    }
  }

  lemma WrapRange(x: int)
    requires x >= 0
    ensures x < WORD / 2 ==> Wrap(x) == x
    ensures x >= WORD / 2 ==> Wrap(x) <= x - WORD
  {
    if x >= WORD / 2 {
      var k := WrapMultiple(x);
      assert k >= 1;
    }
  }

  lemma Quotient(x: int, d: int)
    requires x >= 0 && d > 0
    ensures x / d >= 0
  {
  }

  // ---------------------------------------------------------------------
  // Runs of the loop

  /** The offset after `n` rounds, None when the loop has ended before. */
  function Walk(read: Reader, size: nat, o: int, n: nat): Option<int>
    decreases n
  {
    if n == 0 then Some(o)
    else if o >= size || read(o).None? then None
    else Walk(read, size, Next(read(o).value), n - 1)
  }

  /** The loop reaches `p` after `n` rounds. */
  predicate Reaches(read: Reader, size: nat, o: int, n: nat, p: int) {
    Walk(read, size, o, n) == Some(p)
  }

  /** In round `n` the loop reads a tensor at `p`. */
  predicate Meets(read: Reader, size: nat, o: int, n: nat, p: int) {
    Reaches(read, size, o, n, p) && p < size && read(p).Some?
  }

  /** The loop makes `n` rounds. */
  predicate Lasts(read: Reader, size: nat, o: int, n: nat) {
    Walk(read, size, o, n).Some?
  }

  ghost predicate Endless(read: Reader, size: nat, o: int) {
    forall n: nat :: Lasts(read, size, o, n)
  }

  /** An offset is reached twice. */
  ghost predicate Revisits(read: Reader, size: nat, o: int) {
    exists i: nat, j: nat, p: int :: i < j && Reaches(read, size, o, i, p) && Reaches(read, size, o, j, p)
  }

  lemma {:induction false} WalkOn(read: Reader, size: nat, o: int, i: nat, p: int, n: nat)
    requires Reaches(read, size, o, i, p)
    ensures Walk(read, size, o, i + n) == Walk(read, size, p, n)
    decreases i
  {
    if i > 0 {
      WalkOn(read, size, Next(read(o).value), i - 1, p, n);
    }
  }

  lemma {:induction false} LastsLess(read: Reader, size: nat, o: int, i: nat, n: nat)
    requires Lasts(read, size, o, n) && i <= n
    ensures Lasts(read, size, o, i)
    decreases i
  {
    if i > 0 {
      LastsLess(read, size, Next(read(o).value), i - 1, n - 1);
    }
  }

  /** What a run reaches again it reaches later and later. */
  lemma {:induction false} Circles(read: Reader, size: nat, p: int, d: nat, n: nat) returns (k: nat)
    requires Reaches(read, size, p, d, p) && d > 0
    ensures k >= n && Reaches(read, size, p, k, p)
    decreases n
  {
    k := 0;
    if n > 0 {
      k := Circles(read, size, p, d, n - 1);
      WalkOn(read, size, p, k, p, d);
      k := k + d;
    }
  }

  lemma RevisitLasts(read: Reader, size: nat, o: int, i: nat, j: nat, p: int, n: nat)
    requires i < j && Reaches(read, size, o, i, p) && Reaches(read, size, o, j, p)
    ensures Lasts(read, size, o, n)
  {
    WalkOn(read, size, o, i, p, j - i);
    var k := Circles(read, size, p, j - i, n);
    WalkOn(read, size, o, i, p, k);
    LastsLess(read, size, o, n, i + k);
  }

  lemma RevisitEndless(read: Reader, size: nat, o: int)
    requires Revisits(read, size, o)
    ensures Endless(read, size, o)
  {
    var i: nat, j: nat, p: int :| i < j && Reaches(read, size, o, i, p) && Reaches(read, size, o, j, p);
    forall n: nat ensures Lasts(read, size, o, n) {
      RevisitLasts(read, size, o, i, j, p, n);
    }
  }

  // ---------------------------------------------------------------------
  // More rounds than offsets

  /** Nothing is read before the start of the file, counted from its end. */
  ghost predicate Inside(read: Reader, size: nat) {
    forall o: int :: read(o).Some? ==> 0 <= o + size
  }

  /** The offsets reached in the first rounds. */
  function Reached(read: Reader, size: nat, o: int, n: nat): (r: seq<int>)
    requires Lasts(read, size, o, n)
    ensures |r| == n
    decreases n
  {
    if n == 0 then [] else [o] + Reached(read, size, Next(read(o).value), n - 1)
  }

  lemma {:induction false} ReachedAt(read: Reader, size: nat, o: int, n: nat, k: nat)
    requires Lasts(read, size, o, n) && k < n && Inside(read, size)
    ensures Reaches(read, size, o, k, Reached(read, size, o, n)[k])
    ensures 0 <= Reached(read, size, o, n)[k] + size < 2 * size
    decreases n
  {
    if k > 0 {
      ReachedAt(read, size, Next(read(o).value), n - 1, k - 1);
    }
  }

  predicate Repeats(s: seq<int>) {
    exists i, j :: 0 <= i < j < |s| && s[i] == s[j]
  }

  function Members(s: seq<int>): set<int> {
    set i | 0 <= i < |s| :: s[i]
  }

  lemma MembersLast(s: seq<int>, n: nat)
    requires |s| == n + 1
    ensures Members(s) == Members(s[..n]) + {s[n]}
  {
    var front := s[..n];
    forall y ensures y in Members(s) <==> y in Members(front) + {s[n]} {
      if y in Members(front) {
        var i :| 0 <= i < n && front[i] == y;
        assert s[i] == y;
      }
      if y in Members(s) && y != s[n] {
        var i :| 0 <= i <= n && s[i] == y;
        assert front[i] == y;
      }
    }
  }

  lemma {:induction false} Distinct(s: seq<int>)
    ensures Repeats(s) || |Members(s)| == |s|
  {
    if s != [] {
      var n := |s| - 1;
      var front := s[..n];
      Distinct(front);
      MembersLast(s, n);
      if Repeats(front) {
        var i, j :| 0 <= i < j < n && front[i] == front[j];
        assert s[i] == s[j];
      } else if s[n] in Members(front) {
        var i :| 0 <= i < n && front[i] == s[n];
        assert s[i] == s[n];
      }
    }
  }

  function Offsets(a: int, n: nat): (r: set<int>)
    ensures forall x :: x in r <==> a <= x < a + n
    ensures |r| == n
  {
    if n == 0 then {} else Offsets(a, n - 1) + {a + n - 1}
  }

  lemma SubsetSize(a: set<int>, b: set<int>)
    requires a <= b
    ensures |a| <= |b|
  {
    assert b == a + (b - a);
  }

  /** More numbers than places. */
  lemma Pigeonhole(s: seq<int>, a: int, n: nat)
    requires |s| > n && forall i :: 0 <= i < |s| ==> a <= s[i] < a + n
    ensures Repeats(s)
  {
    Distinct(s);
    SubsetSize(Members(s), Offsets(a, n));
  }

  lemma LongRevisits(read: Reader, size: nat, o: int)
    requires Inside(read, size) && Lasts(read, size, o, 2 * size + 1)
    ensures Revisits(read, size, o)
  {
    var n := 2 * size + 1;
    var s := Reached(read, size, o, n);
    forall k | 0 <= k < n ensures Reaches(read, size, o, k, s[k]) && 0 <= s[k] + size < 2 * size {
      ReachedAt(read, size, o, n, k);
    }
    Pigeonhole(s, 0 - size, 2 * size);
    var i, j :| 0 <= i < j < n && s[i] == s[j];
    assert Reaches(read, size, o, i, s[i]) && Reaches(read, size, o, j, s[i]);
  }

  // ---------------------------------------------------------------------
  // When loading ends

  lemma {:induction false} RoundsForever(read: Reader, size: nat, o: int, n: nat)
    ensures Rounds(read, size, o, n).Forever? <==> Lasts(read, size, o, n) && Walk(read, size, o, n).value < size
    decreases n
  {
    if n > 0 && o < size && read(o).Some? {
      RoundsForever(read, size, Next(read(o).value), n - 1);
    }
  }

  /** More rounds do not change what a loop that ends comes to. */
  lemma {:induction false} RoundsMore(read: Reader, size: nat, o: int, n: nat, m: nat)
    requires !Rounds(read, size, o, n).Forever? && n <= m
    ensures Rounds(read, size, o, m) == Rounds(read, size, o, n)
    decreases n
  {
    if n > 0 && o < size && read(o).Some? {
      RoundsMore(read, size, Next(read(o).value), n - 1, m - 1);
    }
  }

  lemma {:induction false} LastsBefore(read: Reader, size: nat, o: int, n: nat)
    requires Lasts(read, size, o, n + 1)
    ensures Lasts(read, size, o, n) && Walk(read, size, o, n).value < size
    decreases n
  {
    if n > 0 {
      LastsBefore(read, size, Next(read(o).value), n - 1);
    }
  }

  /** The loop never ends if and only if it reaches an offset twice; and the outcome is that of the
      loop after any number of rounds in which it ends. */
  lemma ForeverExactly(read: Reader, size: nat, o: int)
    requires Inside(read, size)
    ensures TensorsAt(read, size, o).Forever? <==> Endless(read, size, o)
    ensures Endless(read, size, o) <==> Revisits(read, size, o)
    ensures forall n: nat :: !Rounds(read, size, o, n).Forever? ==> Rounds(read, size, o, n) == TensorsAt(read, size, o)
  {
    var m := 2 * size + 1;
    RoundsForever(read, size, o, m);
    if Endless(read, size, o) {
      assert Lasts(read, size, o, m + 1);
      LastsBefore(read, size, o, m);
    }
    if Lasts(read, size, o, m) {
      LongRevisits(read, size, o);
    }
    if Revisits(read, size, o) {
      RevisitEndless(read, size, o);
      assert Lasts(read, size, o, m);
    }
    forall n: nat | !Rounds(read, size, o, n).Forever? ensures Rounds(read, size, o, n) == TensorsAt(read, size, o) {
      EndsAlike(read, size, o, n);
    }
  }

  lemma EndsAlike(read: Reader, size: nat, o: int, n: nat)
    requires Inside(read, size) && !Rounds(read, size, o, n).Forever?
    ensures Rounds(read, size, o, n) == TensorsAt(read, size, o)
  {
    var m := 2 * size + 1;
    if n <= m {
      RoundsMore(read, size, o, n, m);
    } else {
      RoundsForever(read, size, o, m);
      if Lasts(read, size, o, m) {
        LongRevisits(read, size, o);
        RevisitEndless(read, size, o);
        assert Lasts(read, size, o, n + 1);
        LastsBefore(read, size, o, n);
        RoundsForever(read, size, o, n);
        assert false;
      }
      RoundsMore(read, size, o, m, n);
    }
  }

  // ---------------------------------------------------------------------
  // Going back

  /** Files shorter than 2^60 bytes. */
  predicate Addressable(size: nat) {
    size < 0x1000_0000_0000_0000
  }

  /** What is known of a tensor read at `o`. */
  predicate Steady(t: Tensor, o: int, size: nat, padded: bool) {
    && 0 <= o + size && o + 12 <= t.start < o + 0x2000 && (padded ==> t.start % 32 == 0)
    && -WORD / 2 <= t.len < WORD / 2
  }

  ghost predicate Sound(read: Reader, size: nat, padded: bool) {
    forall o: int :: read(o).Some? ==> Steady(read(o).value, o, size, padded)
  }

  /** The type of a tensor is known and its size is the computed one. */
  predicate Counted(t: Tensor, sizes: Sizes) {
    t.dtype in sizes && t.len == ByteCount(t.dims, sizes[t.dtype])
  }

  lemma TensorPlace(data: seq<Byte>, o: int, padded: bool, count: Counter, t: Tensor)
    requires TensorReader(data, padded, count)(o) == Some(t)
    ensures 0 <= o + |data| && o + 12 <= t.start < o + 0x2000 && (padded ==> t.start % 32 == 0)
    ensures count(t.dims, t.dtype) == Some(t.len)
  {
  }

  lemma TensorCounted(t: Tensor, sizes: Sizes)
    requires CountOf(sizes)(t.dims, t.dtype) == Some(t.len)
    ensures Counted(t, sizes) && -WORD / 2 <= t.len < WORD / 2
  {
    QuotientRange(Wrap(Wrap(Product(t.dims)) * sizes[t.dtype].1), sizes[t.dtype].0);
  }

  lemma QuotientRange(x: int, d: int)
    requires -WORD / 2 <= x < WORD / 2 && d > 0
    ensures -WORD / 2 <= x / d < WORD / 2
  {
    var q := x / d;
    assert x == d * q + x % d;
    if q > 0 {
      Larger(q, d, 1);
    } else if q < 0 {
      Larger(0 - q, d, 1);
    }
  }

  lemma TensorSteady(data: seq<Byte>, o: int, padded: bool, sizes: Sizes, t: Tensor)
    requires TensorReader(data, padded, CountOf(sizes))(o) == Some(t)
    ensures Steady(t, o, |data|, padded) && Counted(t, sizes)
  {
    TensorPlace(data, o, padded, CountOf(sizes), t);
    TensorCounted(t, sizes);
  }

  lemma ReaderSound(data: seq<Byte>, padded: bool, sizes: Sizes, read: Reader)
    requires read == TensorReader(data, padded, CountOf(sizes))
    ensures Sound(read, |data|, padded) && Inside(read, |data|)
  {
    forall o: int | read(o).Some? ensures Steady(read(o).value, o, |data|, padded) {
      TensorSteady(data, o, padded, sizes, read(o).value);
    }
  }

  lemma WrapSum(x: int)
    requires -WORD <= x < WORD
    ensures Wrap(x) == if x < -WORD / 2 then x + WORD else if x < WORD / 2 then x else x - WORD
  {
  }

  /** The size is at most minus the length of the record, or the end of the data is past the largest
      offset; offsets also wrap at the smallest. */
  predicate Backward(t: Tensor, o: int) {
    || (t.len <= -(t.start - o) && -WORD / 2 <= t.start + t.len)
    || t.start + t.len >= WORD / 2
  }

  /** After exactly such a tensor reading goes back. */
  lemma BackExactly(t: Tensor, o: int, size: nat, padded: bool)
    requires Addressable(size) && o < size && Steady(t, o, size, padded)
    ensures Next(t) <= o <==> Backward(t, o)
    ensures t.start + t.len >= WORD / 2 ==> Next(t) + size < 0
    ensures t.len >= 0 && t.start + t.len < WORD / 2 ==> Next(t) == t.start + t.len
  {
    WrapSum(t.start + t.len);
  }

  /** In some round reading goes back. */
  ghost predicate GoesBack(read: Reader, size: nat, o: int) {
    exists n: nat, p: int :: Meets(read, size, o, n, p) && Next(read(p).value) <= p
  }

  /** A run goes back exactly when it meets such a record. */
  lemma GoesBackExactly(read: Reader, size: nat, o: int, padded: bool)
    requires Sound(read, size, padded) && Addressable(size)
    ensures GoesBack(read, size, o) <==> exists n: nat, p: int :: Meets(read, size, o, n, p) && Backward(read(p).value, p)
  {
    forall n: nat, p: int | Meets(read, size, o, n, p) ensures Next(read(p).value) <= p <==> Backward(read(p).value, p) {
      BackExactly(read(p).value, p, size, padded);
    }
  }

  lemma {:induction false} Climbs(read: Reader, size: nat, o: int, i: nat, p: int, d: nat, q: int)
    requires !GoesBack(read, size, o) && Reaches(read, size, o, i, p) && Reaches(read, size, p, d, q)
    ensures p + d <= q
    decreases d
  {
    if d > 0 {
      var next := Next(read(p).value);
      assert Meets(read, size, o, i, p);
      WalkOn(read, size, o, i, p, 1);
      assert Walk(read, size, p, 1) == Walk(read, size, next, 0);
      Climbs(read, size, o, i + 1, next, d - 1, q);
    }
  }

  /** A loop that does not end goes back somewhere. */
  lemma EndlessGoesBack(read: Reader, size: nat, o: int)
    requires Inside(read, size) && Endless(read, size, o)
    ensures GoesBack(read, size, o)
  {
    ForeverExactly(read, size, o);
    var i: nat, j: nat, p: int :| i < j && Reaches(read, size, o, i, p) && Reaches(read, size, o, j, p);
    WalkOn(read, size, o, i, p, j - i);
    if !GoesBack(read, size, o) {
      Climbs(read, size, o, i, p, j - i, p);
    }
  }

  lemma TwoRounds(read: Reader, size: nat, p: int, t: Tensor)
    requires Inside(read, size) && p < size && read(p) == Some(t) && Next(t) + size < 0
    ensures Walk(read, size, p, 2).None?
  {
    assert Walk(read, size, p, 2) == Walk(read, size, Next(t), 1);
  }

  /** A loop that does not end meets a record whose size is at most minus its own length. */
  lemma EndlessSize(read: Reader, size: nat, o: int, padded: bool)
    requires Sound(read, size, padded) && Inside(read, size) && Addressable(size) && Endless(read, size, o)
    ensures exists n: nat, p: int :: Meets(read, size, o, n, p) && read(p).value.len <= -(read(p).value.start - p)
  {
    EndlessGoesBack(read, size, o);
    var n: nat, p: int :| Meets(read, size, o, n, p) && Next(read(p).value) <= p;
    var t := read(p).value;
    BackExactly(t, p, size, padded);
    assert Lasts(read, size, o, n + 2);
    if t.start + t.len >= WORD / 2 {
      WalkOn(read, size, o, n, p, 2);
      TwoRounds(read, size, p, t);
    }
  }

  /** The true size of the tensor fits in a signed 64-bit number. */
  predicate SizeFits(t: Tensor, sizes: Sizes) {
    t.dtype in sizes && Product(t.dims) * sizes[t.dtype].1 < WORD / 2
  }

  predicate TrueSize(t: Tensor, sizes: Sizes) {
    t.dtype in sizes && t.len == Product(t.dims) * sizes[t.dtype].1 / sizes[t.dtype].0
  }

  lemma FittingSize(t: Tensor, sizes: Sizes)
    requires Counted(t, sizes) && SizeFits(t, sizes)
    ensures t.len >= 0 && TrueSize(t, sizes)
  {
    ByteCountExact(t.dims, sizes[t.dtype]);
    Quotient(Product(t.dims) * sizes[t.dtype].1, sizes[t.dtype].0);
  }

  /** A load that does not end meets a record whose size does not fit. */
  lemma FittingEnds(data: seq<Byte>, o: int, padded: bool, sizes: Sizes, read: Reader)
    requires read == TensorReader(data, padded, CountOf(sizes)) && Addressable(|data|)
    requires TensorsAt(read, |data|, o).Forever?
    ensures exists n: nat, p: int :: Meets(read, |data|, o, n, p) && !SizeFits(read(p).value, sizes)
  {
    ReaderSound(data, padded, sizes, read);
    ForeverExactly(read, |data|, o);
    EndlessSize(read, |data|, o, padded);
    var n: nat, p: int :| Meets(read, |data|, o, n, p) && read(p).value.len <= -(read(p).value.start - p);
    TensorSteady(data, p, padded, sizes, read(p).value);
    if SizeFits(read(p).value, sizes) {
      FittingSize(read(p).value, sizes);
    }
  }

  // ---------------------------------------------------------------------
  // Regions

  /** Each tensor's data ends before the data of every later one. */
  predicate Ordered(ts: seq<Tensor>) {
    forall i, j :: 0 <= i < j < |ts| ==> ts[i].start + ts[i].len <= ts[j].start
  }

  predicate Placed(ts: seq<Tensor>, o: int) {
    forall i :: 0 <= i < |ts| ==> ts[i].start >= o + 12
  }

  predicate Sized(ts: seq<Tensor>) {
    forall i :: 0 <= i < |ts| ==> ts[i].start <= ts[i].start + ts[i].len
  }

  predicate Aligned(ts: seq<Tensor>) {
    forall i :: 0 <= i < |ts| ==> ts[i].start % 32 == 0
  }

  lemma OrderedFirst(t: Tensor, ts: seq<Tensor>, o: int, next: int)
    requires o < next == t.start + t.len && t.start >= o + 12
    requires Ordered(ts) && Placed(ts, next)
    ensures Ordered([t] + ts) && Placed([t] + ts, o)
  {
    var all := [t] + ts;
    forall i, j | 0 <= i < j < |all| ensures all[i].start + all[i].len <= all[j].start {
      assert all[j] == ts[j - 1];
      if i > 0 {
        assert all[i] == ts[i - 1];
      }
    }
  }

  lemma SizedRest(t: Tensor, ts: seq<Tensor>)
    requires Sized([t] + ts)
    ensures t.len >= 0 && Sized(ts)
  {
    var all := [t] + ts;
    assert all[0] == t;
    forall i | 0 <= i < |ts| ensures ts[i].start <= ts[i].start + ts[i].len {
      assert all[i + 1] == ts[i];
    }
  }

  lemma MoreRounds(read: Reader, size: nat, o: int, n: nat, ts: seq<Tensor>, end: int) returns (t: Tensor, rest: seq<Tensor>)
    requires Rounds(read, size, o, n) == Done(ts, end) && o < size
    ensures n > 0 && read(o) == Some(t) && Rounds(read, size, Next(t), n - 1) == Done(rest, end) && ts == [t] + rest
  {
    t := read(o).value;
    rest := Rounds(read, size, Next(t), n - 1).tensors;
  }

  lemma {:induction false} RegionsOrdered(
    read: Reader, size: nat, o: int, padded: bool, n: nat, ts: seq<Tensor>, end: int)
    requires Sound(read, size, padded) && Addressable(size) && Rounds(read, size, o, n) == Done(ts, end) && Sized(ts)
    ensures Ordered(ts) && Placed(ts, o)
    decreases n
  {
    if o < size {
      var t, rest := MoreRounds(read, size, o, n, ts, end);
      SizedRest(t, rest);
      assert Steady(read(o).value, o, size, padded);
      BackExactly(t, o, size, padded);
      assert read(Next(t)).Some? ==> Steady(read(Next(t)).value, Next(t), size, padded);
      RegionsOrdered(read, size, Next(t), padded, n - 1, rest, end);
      OrderedFirst(t, rest, o, Next(t));
    }
  }

  /** The tensors of a completed load, each read somewhere. */
  lemma {:induction false} RegionsRead(read: Reader, size: nat, o: int, n: nat, ts: seq<Tensor>, end: int, i: nat) returns (p: int)
    requires Rounds(read, size, o, n) == Done(ts, end) && i < |ts|
    ensures read(p) == Some(ts[i])
    decreases n
  {
    var t, rest := MoreRounds(read, size, o, n, ts, end);
    if i == 0 {
      p := o;
    } else {
      p := RegionsRead(read, size, Next(t), n - 1, rest, end, i - 1);
    }
  }

  lemma {:induction false} EndsPast(read: Reader, size: nat, o: int, n: nat, ts: seq<Tensor>, end: int)
    requires Rounds(read, size, o, n) == Done(ts, end)
    ensures end >= size
    decreases n
  {
    if o < size {
      var t, rest := MoreRounds(read, size, o, n, ts, end);
      EndsPast(read, size, Next(t), n - 1, rest, end);
    }
  }

  /** A completed load ends at the end of the file or past it, its tensors have the computed sizes and are
      aligned where the format pads; and their data regions are in order without overlap if and only if no
      computed size is negative. */
  lemma RegionsApart(data: seq<Byte>, o: int, padded: bool, sizes: Sizes, read: Reader, ts: seq<Tensor>, end: int)
    requires read == TensorReader(data, padded, CountOf(sizes)) && Addressable(|data|)
    requires TensorsAt(read, |data|, o) == Done(ts, end)
    ensures end >= |data| && (padded ==> Aligned(ts)) && forall i :: 0 <= i < |ts| ==> Counted(ts[i], sizes)
    ensures Sized(ts) && Ordered(ts) && Placed(ts, o) <==> forall i :: 0 <= i < |ts| ==> ts[i].len >= 0
  {
    var n := 2 * |data| + 1;
    ReaderSound(data, padded, sizes, read);
    EndsPast(read, |data|, o, n, ts, end);
    forall i | 0 <= i < |ts| ensures (padded ==> ts[i].start % 32 == 0) && Counted(ts[i], sizes) {
      var p := RegionsRead(read, |data|, o, n, ts, end, i);
      TensorSteady(data, p, padded, sizes, ts[i]);
    }
    if Sized(ts) {
      RegionsOrdered(read, |data|, o, padded, n, ts, end);
    }
  }

  /** So where the sizes fit, each region has its true size and the regions are apart. */
  lemma FittingRegions(data: seq<Byte>, o: int, padded: bool, sizes: Sizes, read: Reader, ts: seq<Tensor>, end: int)
    requires read == TensorReader(data, padded, CountOf(sizes)) && Addressable(|data|)
    requires TensorsAt(read, |data|, o) == Done(ts, end) && forall i :: 0 <= i < |ts| ==> SizeFits(ts[i], sizes)
    ensures Ordered(ts) && Placed(ts, o)
    ensures forall i :: 0 <= i < |ts| ==> TrueSize(ts[i], sizes)
  {
    RegionsApart(data, o, padded, sizes, read, ts, end);
    forall i | 0 <= i < |ts| ensures ts[i].len >= 0 && TrueSize(ts[i], sizes) {
      FittingSize(ts[i], sizes);
    }
  }
}
