/**
 * The chunk planner of the cumulative-analysis driver: `chunk_list_dynamic`
 * cuts the review list into contiguous slices of `max(1, len(data) // num_chunks)`
 * elements, one slice per start of `range(0, len(data), chunk_size)`.
 */
module ChunkPlanner {
  import opened Exceptions

  /** The elements of all chunks, in order. */
  function Flatten<T>(chunks: seq<seq<T>>): seq<T>
  {
    if chunks == [] then [] else chunks[0] + Flatten(chunks[1..])
  }

  lemma {:induction false} FlattenAppend<T>(a: seq<seq<T>>, b: seq<seq<T>>)
    ensures Flatten(a + b) == Flatten(a) + Flatten(b)
  {
    if a == [] {
      assert a + b == b;
    } else {
      assert (a + b)[1..] == a[1..] + b;
      FlattenAppend(a[1..], b);
    }
  }

  /** Python's `a // b` (rounds toward negative infinity; Dafny's `/` is Euclidean). */
  function FloorDiv(a: int, b: int): int
    requires b != 0
  {
    if b > 0 then a / b else (-a) / (-b)
  }

  /** `max(1, n // numChunks)`, the length of every chunk but the last. */
  function ChunkSize(n: nat, numChunks: int): (size: nat)
    requires numChunks != 0
    ensures size >= 1
    ensures numChunks > 0 && n >= numChunks ==> size * numChunks <= n < (size + 1) * numChunks
    ensures numChunks < 0 || n < numChunks ==> size == 1
  {
    var q := FloorDiv(n, numChunks);
    if q < 1 then 1 else q
  }

  /** `ceil(n / size)`. */
  function CeilDiv(n: nat, size: nat): nat
    requires size >= 1
  {
    (n + size - 1) / size
  }

  /** The slices `data[i:i + size]` for `i` in `range(start, len(data), size)`. */
  function Slices<T>(data: seq<T>, start: nat, size: nat): seq<seq<T>>
    requires size >= 1
    decreases |data| - start
  {
    if start >= |data| then []
    else [data[start..if start + size <= |data| then start + size else |data|]] + Slices(data, start + size, size)
  }

  /**
   * `list(chunk_list_dynamic(data, num_chunks))`. Integer division by a zero
   * `num_chunks` raises `ZeroDivisionError`; a negative one gives chunks of one.
   */
  function ChunkListDynamic<T>(data: seq<T>, numChunks: int): (r: Outcome<seq<seq<T>>>)
    ensures r.Raised? <==> numChunks == 0
    ensures r.Raised? ==> r.exc == Builtin(ZeroDivisionError, "integer division or modulo by zero")
  {
    if numChunks == 0 then Raised(Builtin(ZeroDivisionError, "integer division or modulo by zero"))
    else Returned(Slices(data, 0, ChunkSize(|data|, numChunks)))
  }

  // ----- properties of the slicing loop -----

  /** The slices from `start` on are exactly the rest of the list, in order. */
  lemma {:induction false} SlicesConcat<T>(data: seq<T>, start: nat, size: nat)
    requires size >= 1 && start <= |data|
    ensures Flatten(Slices(data, start, size)) == data[start..]
    decreases |data| - start
  {
    if start < |data| {
      var end := if start + size <= |data| then start + size else |data|;
      var rest := Slices(data, end, size);
      if start + size <= |data| {
        SlicesConcat(data, start + size, size);
      } else {
        assert Slices(data, start + size, size) == [];
        assert data[end..] == [];
      }
      assert Slices(data, start, size) == [data[start..end]] + Slices(data, start + size, size);
      assert Slices(data, start, size)[1..] == Slices(data, start + size, size);
      assert data[start..] == data[start..end] + data[end..];
    }
  }

  /** Every slice is non-empty; all but the last hold `size` elements, the last at most that. */
  lemma {:induction false} SlicesShape<T>(data: seq<T>, start: nat, size: nat)
    requires size >= 1
    ensures forall k :: 0 <= k < |Slices(data, start, size)| ==> 1 <= |Slices(data, start, size)[k]| <= size
    ensures forall k :: 0 <= k < |Slices(data, start, size)| - 1 ==> |Slices(data, start, size)[k]| == size
    decreases |data| - start
  {
    if start < |data| {
      SlicesShape(data, start + size, size);
      var cs := Slices(data, start, size);
      assert cs[1..] == Slices(data, start + size, size);
      assert start + size > |data| ==> Slices(data, start + size, size) == [];
    }
  }

  lemma MulAtLeast(a: int, q: int)
    requires a >= 1 && q >= 1
    ensures a * q >= q
  {
  }

  /** Euclidean division is unique: a quotient and remainder in range are `/` and `%`. */
  lemma DivUnique(x: int, q: int, d: int, m: int)
    requires q >= 1 && x == d * q + m && 0 <= m < q
    ensures x / q == d && x % q == m
  {
    var d', m' := x / q, x % q;
    assert x == d' * q + m';
    assert (d - d') * q == m' - m;
    if d - d' >= 1 {
      MulAtLeast(d - d', q);
    } else if d' - d >= 1 {
      MulAtLeast(d' - d, q);
    }
  }

  lemma CeilDivStep(m: nat, size: nat)
    requires size >= 1 && m > size
    ensures CeilDiv(m, size) == 1 + CeilDiv(m - size, size)
  {
    var x := m - size + size - 1;
    var d, r := x / size, x % size;
    assert m + size - 1 == (d + 1) * size + r;
    DivUnique(m + size - 1, size, d + 1, r);
  }

  lemma CeilDivOne(m: nat, size: nat)
    requires size >= 1 && 1 <= m <= size
    ensures CeilDiv(m, size) == 1
  {
    DivUnique(m + size - 1, size, 1, m - 1);
  }

  /** There are `ceil((len(data) - start) / size)` slices. */
  lemma {:induction false} SlicesCount<T>(data: seq<T>, start: nat, size: nat)
    requires size >= 1 && start <= |data|
    ensures |Slices(data, start, size)| == CeilDiv(|data| - start, size)
    decreases |data| - start
  {
    var m := |data| - start;
    if m == 0 {
      DivUnique(size - 1, size, 0, size - 1);
    } else if m <= size {
      CeilDivOne(m, size);
      assert Slices(data, start + size, size) == [];
    } else {
      SlicesCount(data, start + size, size);
      CeilDivStep(m, size);
    }
  }

  /** The `k`-th slice holds the elements at `k * size` up to the next multiple of `size`. */
  lemma {:induction false} SliceAt<T>(data: seq<T>, start: nat, size: nat, k: nat)
    requires size >= 1 && k < |Slices(data, start, size)|
    ensures start + k * size < |data|
    ensures Slices(data, start, size)[k] ==
            data[start + k * size..if start + (k + 1) * size <= |data| then start + (k + 1) * size else |data|]
    decreases k
  {
    assert start < |data|;
    if k > 0 {
      assert Slices(data, start, size)[k] == Slices(data, start + size, size)[k - 1];
      SliceAt(data, start + size, size, k - 1);
      MulShift(k, size);
    }
  }

  lemma MulShift(k: int, size: int)
    ensures (k - 1) * size == k * size - size
    ensures (k + 1) * size == k * size + size
  {
  }

  // ----- properties of chunk_list_dynamic -----

  /** Concatenating the chunks gives back the input: nothing lost, nothing reordered. */
  lemma ChunksPartition<T>(data: seq<T>, numChunks: int)
    requires numChunks != 0
    ensures Flatten(ChunkListDynamic(data, numChunks).value) == data
  {
    SlicesConcat(data, 0, ChunkSize(|data|, numChunks));
  }

  /**
   * Every chunk is non-empty; all but the last hold exactly `chunk_size`
   * elements and the last between one and `chunk_size`; and there are
   * `ceil(len(data) / chunk_size)` of them.
   */
  lemma ChunkShapes<T>(data: seq<T>, numChunks: int)
    requires numChunks != 0
    ensures var cs, size := ChunkListDynamic(data, numChunks).value, ChunkSize(|data|, numChunks);
      && |cs| == CeilDiv(|data|, size)
      && (forall k :: 0 <= k < |cs| ==> 1 <= |cs[k]| <= size)
      && (forall k :: 0 <= k < |cs| - 1 ==> |cs[k]| == size)
  {
    var size := ChunkSize(|data|, numChunks);
    SlicesShape(data, 0, size);
    SlicesCount(data, 0, size);
  }

  /** An empty list gives no chunks. */
  lemma EmptyInput<T>(data: seq<T>, numChunks: int)
    requires numChunks != 0 && data == []
    ensures ChunkListDynamic(data, numChunks) == Returned([])
  {
  }

  /** When `num_chunks` divides a non-empty list's length, there are exactly `num_chunks` chunks. */
  lemma ExactWhenDivides<T>(data: seq<T>, numChunks: int)
    requires numChunks >= 1 && |data| > 0 && |data| % numChunks == 0
    ensures |ChunkListDynamic(data, numChunks).value| == numChunks
  {
    var n, size := |data|, ChunkSize(|data|, numChunks);
    var q := n / numChunks;
    assert n == q * numChunks;
    assert q >= 1;
    assert size == q;
    SlicesCount(data, 0, size);
    assert n + size - 1 == numChunks * size + (size - 1);
    DivAddMultiple(numChunks, size - 1, size);
  }

  lemma DivAddMultiple(a: nat, b: nat, q: nat)
    requires q >= 1 && b < q
    ensures (a * q + b) / q == a
  {
    DivUnique(a * q + b, q, a, b);
  }

  /**
   * Contrary to the docstring's "`num_chunks` nearly equal parts", the count can
   * exceed `num_chunks`: seven items asked for two chunks come as 3, 3 and 1.
   */
  lemma SevenIntoTwo()
    ensures var cs := ChunkListDynamic([1, 2, 3, 4, 5, 6, 7], 2).value;
      |cs| == 3 && cs == [[1, 2, 3], [4, 5, 6], [7]]
  {
    var data := [1, 2, 3, 4, 5, 6, 7];
    assert ChunkSize(7, 2) == 3;
    assert Slices(data, 9, 3) == [];
    assert data[6..7] == [7];
    assert Slices(data, 6, 3) == [data[6..7]] + Slices(data, 9, 3) == [[7]];
    assert data[3..6] == [4, 5, 6];
    assert Slices(data, 3, 3) == [data[3..6]] + Slices(data, 6, 3);
    assert data[0..3] == [1, 2, 3];
    assert Slices(data, 0, 3) == [data[0..3]] + Slices(data, 3, 3);
  }

  /** Fewer items than `num_chunks` (or a negative `num_chunks`): one chunk per item. */
  lemma SmallInputSingletons<T>(data: seq<T>, numChunks: int)
    requires numChunks != 0 && (numChunks < 0 || |data| < numChunks)
    ensures var cs := ChunkListDynamic(data, numChunks).value;
      |cs| == |data| && forall k :: 0 <= k < |cs| ==> cs[k] == [data[k]]
  {
    var cs := ChunkListDynamic(data, numChunks).value;
    SlicesCount(data, 0, 1);
    assert CeilDiv(|data|, 1) == |data|;
    forall k | 0 <= k < |cs| ensures cs[k] == [data[k]] {
      SliceAt(data, 0, 1, k);
    }
  }

  /** The overshoot is bounded: never more than `2 * num_chunks - 1` chunks. */
  lemma AtMostTwiceRequested<T>(data: seq<T>, numChunks: int)
    requires numChunks >= 1
    ensures |ChunkListDynamic(data, numChunks).value| <= 2 * numChunks - 1
  {
    var n, size := |data|, ChunkSize(|data|, numChunks);
    SlicesCount(data, 0, size);
    if n >= numChunks {
      var r := n - size * numChunks;
      assert 0 <= r < numChunks;
      assert n + size - 1 == numChunks * size + (r + size - 1);
      DivSplit(numChunks, r + size - 1, size);
      CeilAtMost(r, size);
    } else {
      assert CeilDiv(n, 1) == n;
    }
  }

  lemma DivSplit(a: nat, b: nat, q: nat)
    requires q >= 1
    ensures (a * q + b) / q == a + b / q
  {
    var d, m := b / q, b % q;
    assert b == d * q + m;
    assert a * q + b == (a + d) * q + m;
    DivUnique(a * q + b, q, a + d, m);
  }

  lemma CeilAtMost(r: nat, size: nat)
    requires size >= 1
    ensures (r + size - 1) / size <= r
  {
    if r == 0 {
      DivUnique(size - 1, size, 0, size - 1);
    } else {
      MulMono(size, 1, r);
      assert (r + 1) * size == r * size + size;
      QuotientBelow(r + size - 1, size, r + 1);
    }
  }

  lemma MulMono(a: int, b: int, q: int)
    requires a >= b && q >= 0
    ensures a * q >= b * q
  {
    assert a * q - b * q == (a - b) * q;
  }

  lemma QuotientBelow(x: int, q: int, c: int)
    requires q >= 1 && 0 <= x < c * q
    ensures x / q < c
  {
    var d := x / q;
    assert x == d * q + x % q;
    if d >= c {
      MulMono(d, c, q);
    }
  }

  // ----- the evidently intended planner -----

  /**
   * A planner that keeps the docstring's promise: at most `num_chunks`
   * contiguous chunks, each of `ceil(remaining / chunks left)` elements.
   */
  function BalancedChunks<T>(data: seq<T>, numChunks: nat): seq<seq<T>>
    requires numChunks >= 1
    decreases numChunks
  {
    if data == [] then []
    else if numChunks == 1 then [data]
    else
      var size := CeilDiv(|data|, numChunks);
      CeilBounds(|data|, numChunks);
      [data[..size]] + BalancedChunks(data[size..], numChunks - 1)
  }

  lemma CeilBounds(n: nat, k: nat)
    requires n >= 1 && k >= 1
    ensures 1 <= CeilDiv(n, k) <= n
    ensures n >= k ==> CeilDiv(n, k) <= n - k + 1
    ensures n < k ==> CeilDiv(n, k) == 1
  {
    var x := n + k - 1;
    var d := x / k;
    assert x == d * k + x % k;
    if d < 1 {
      MulMono(0, d, k);
    }
    MulMono(k, 1, n);
    assert (n + 1) * k == n * k + k;
    QuotientBelow(x, k, n + 1);
    if n < k {
      DivUnique(x, k, 1, n - 1);
    } else {
      var m := n - k;
      MulMono(k, 1, m);
      assert (m + 2) * k == m * k + 2 * k;
      QuotientBelow(x, k, m + 2);
    }
  }

  /**
   * The intended planner partitions the list into exactly `min(len(data), num_chunks)`
   * non-empty, nearly equal chunks, so never more than asked for.
   */
  lemma BalancedPartition<T>(data: seq<T>, numChunks: nat)
    requires numChunks >= 1
    ensures Flatten(BalancedChunks(data, numChunks)) == data
    ensures |BalancedChunks(data, numChunks)| == if |data| < numChunks then |data| else numChunks
    ensures forall k :: 0 <= k < |BalancedChunks(data, numChunks)| ==> BalancedChunks(data, numChunks)[k] != []
    ensures NearlyEqual(BalancedChunks(data, numChunks))
  {
    BalancedShape(data, numChunks);
    BalancedNearlyEqual(data, numChunks);
  }

  /** The intended planner's chunks concatenate back to the input, and there are `min(n, k)` of them, none empty. */
  lemma {:induction false} BalancedShape<T>(data: seq<T>, numChunks: nat)
    requires numChunks >= 1
    ensures Flatten(BalancedChunks(data, numChunks)) == data
    ensures |BalancedChunks(data, numChunks)| == if |data| < numChunks then |data| else numChunks
    ensures forall k :: 0 <= k < |BalancedChunks(data, numChunks)| ==> BalancedChunks(data, numChunks)[k] != []
    decreases numChunks
  {
    if data == [] {
    } else if numChunks == 1 {
      assert Flatten([data]) == data + Flatten([]);
    } else {
      var size := CeilDiv(|data|, numChunks);
      CeilBounds(|data|, numChunks);
      var rest := data[size..];
      BalancedShape(rest, numChunks - 1);
      var cs := BalancedChunks(data, numChunks);
      assert cs == [data[..size]] + BalancedChunks(rest, numChunks - 1);
      assert cs[1..] == BalancedChunks(rest, numChunks - 1);
      assert data == data[..size] + rest;
    }
  }

  /** Every chunk has between `lo` and `hi` elements. */
  predicate SizesWithin<T>(cs: seq<seq<T>>, lo: int, hi: int)
  {
    forall i :: 0 <= i < |cs| ==> lo <= |cs[i]| <= hi
  }

  /** Nearly equal parts: no two chunks differ in length by more than one. */
  predicate NearlyEqual<T>(cs: seq<seq<T>>)
  {
    forall i, j :: 0 <= i < |cs| && 0 <= j < |cs| ==> |cs[i]| <= |cs[j]| + 1
  }

  /** The intended planner's chunks are nearly equal. */
  lemma BalancedNearlyEqual<T>(data: seq<T>, numChunks: nat)
    requires numChunks >= 1
    ensures NearlyEqual(BalancedChunks(data, numChunks))
  {
    BalancedSizes(data, numChunks);
    FloorCeil(|data|, numChunks);
    WithinOneApart(BalancedChunks(data, numChunks), |data| / numChunks, CeilDiv(|data|, numChunks));
  }

  /** Lengths in a range of width one are nearly equal. */
  lemma WithinOneApart<T>(cs: seq<seq<T>>, lo: int, hi: int)
    requires SizesWithin(cs, lo, hi) && hi <= lo + 1
    ensures NearlyEqual(cs)
  {
  }

  /** Every chunk of the intended planner has between `floor(n / k)` and `ceil(n / k)` elements. */
  lemma {:induction false} BalancedSizes<T>(data: seq<T>, numChunks: nat)
    requires numChunks >= 1
    ensures SizesWithin(BalancedChunks(data, numChunks), |data| / numChunks, CeilDiv(|data|, numChunks))
    decreases numChunks
  {
    var n := |data|;
    if data == [] {
    } else if numChunks == 1 {
      DivUnique(n, 1, n, 0);
    } else {
      var size := CeilDiv(n, numChunks);
      CeilBounds(n, numChunks);
      BalancedStep(n, numChunks);
      FloorCeil(n, numChunks);
      var rest := data[size..];
      BalancedSizes(rest, numChunks - 1);
      var cs := BalancedChunks(data, numChunks);
      var tail := BalancedChunks(rest, numChunks - 1);
      assert cs == [data[..size]] + tail;
      var lo := n / numChunks;
      assert |rest| == n - size;
      assert |rest| / (numChunks - 1) == lo;
      assert CeilDiv(|rest|, numChunks - 1) <= size;
      forall i | 0 <= i < |cs| ensures lo <= |cs[i]| <= size {
        if i > 0 {
          assert cs[i] == tail[i - 1];
        } else {
          assert |cs[0]| == size;
        }
      }
    }
  }

  /** The ceiling of `n / k` is the floor or one more. */
  lemma FloorCeil(n: nat, k: nat)
    requires k >= 1
    ensures n / k <= CeilDiv(n, k) <= n / k + 1
  {
    var q, r := n / k, n % k;
    assert n == q * k + r;
    if r == 0 {
      DivUnique(n + k - 1, k, q, k - 1);
    } else {
      DivUnique(n + k - 1, k, q + 1, r - 1);
    }
  }

  /**
   * After a chunk of `ceil(n / k)`, the rest split `k - 1` ways has the same
   * floor and no larger ceiling.
   */
  lemma BalancedStep(n: nat, k: nat)
    requires n >= 1 && k >= 2
    ensures CeilDiv(n, k) <= n
    ensures (n - CeilDiv(n, k)) / (k - 1) == n / k
    ensures CeilDiv(n - CeilDiv(n, k), k - 1) <= CeilDiv(n, k)
  {
    CeilBounds(n, k);
    var q, r := n / k, n % k;
    assert n == q * k + r;
    if r == 0 {
      StepExact(n, q, k);
    } else {
      StepRemainder(n, q, k, r);
    }
  }

  lemma MulPred(a: int, k: int)
    ensures a * k == a * (k - 1) + a
  {
  }

  /** `n == q * k`: the first chunk has `q` elements and so does every later one. */
  lemma StepExact(n: nat, q: nat, k: nat)
    requires k >= 2 && n == q * k
    ensures CeilDiv(n, k) == q
    ensures (n - q) / (k - 1) == q
    ensures CeilDiv(n - q, k - 1) == q
  {
    var m := k - 1;
    MulPred(q, k);
    DivUnique(n + k - 1, k, q, k - 1);
    DivUnique(n - q, m, q, 0);
    DivUnique(n - q + m - 1, m, q, m - 1);
  }

  /** `n == q * k + r` with `r >= 1`: the first chunk has `q + 1` elements. */
  lemma StepRemainder(n: nat, q: nat, k: nat, r: nat)
    requires k >= 2 && 1 <= r < k && n == q * k + r
    ensures CeilDiv(n, k) == q + 1
    ensures (n - (q + 1)) / (k - 1) == q
    ensures CeilDiv(n - (q + 1), k - 1) <= q + 1
  {
    var m := k - 1;
    MulPred(q, k);
    MulPred(q + 1, k);
    DivUnique(n + k - 1, k, q + 1, r - 1);
    var rest := n - (q + 1);
    assert rest == q * m + (r - 1);
    DivUnique(rest, m, q, r - 1);
    if r == 1 {
      DivUnique(rest + m - 1, m, q, m - 1);
    } else {
      MulPred(m, q + 1);
      assert (q + 1) * m == q * m + m;
      DivUnique(rest + m - 1, m, q + 1, r - 2);
    }
  }

  /** For the driver's own call (seven reviews, two chunks) the intended planner gives 4 and 3. */
  lemma SevenIntoTwoBalanced()
    ensures BalancedChunks([1, 2, 3, 4, 5, 6, 7], 2) == [[1, 2, 3, 4], [5, 6, 7]]
  {
    var data := [1, 2, 3, 4, 5, 6, 7];
    DivUnique(8, 2, 4, 0);
    assert CeilDiv(7, 2) == 4;
    assert data[..4] == [1, 2, 3, 4];
    assert data[4..] == [5, 6, 7];
    assert BalancedChunks(data[4..], 1) == [[5, 6, 7]];
  }
}
