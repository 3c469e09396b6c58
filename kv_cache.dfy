/**
  The start + recent key/value cache of a transformer (StartRecentKVCache).

  A cache is a list of layers; each layer holds a key tensor and a value
  tensor, each abstracted to its positions along its own sequence axis.
  Every operation is one list comprehension over the layers that rebuilds
  the key and the value of each layer by concatenating the same list of
  slices: the start block, optionally some kept ranges, and a tail block.
 */
module KVCache {
  import opened Slicing

  datatype Option<+T> = None | Some(value: T)

  /** The failures the source can raise. */
  datatype Error =
    | NoLayers        // `past_key_values[0]` on an empty layer list (IndexError)
    | RangeAssertion  // the `assert` of evict_range (AssertionError)

  datatype Result<+T> = Ok(value: T) | Err(error: Error)

  /** The configuration the constructor stores once; `cacheSize` is kept as
      a field, as the source does. The sequence axes of key and value only
      choose which axis is sliced and are abstracted away. */
  datatype Config = Config(startSize: int, recentSize: int, cacheSize: int) {
    /** What the constructor establishes. */
    predicate WellFormed() {
      cacheSize == startSize + recentSize
    }

    /** A constructed configuration with sizes that are not negative. */
    predicate Valid() {
      WellFormed() && 0 <= startSize && 0 <= recentSize
    }
  }

  const DefaultStartSize: int := 4
  const DefaultRecentSize: int := 512

  /** `StartRecentKVCache(start_size=4, recent_size=512, ...)`: the
      capacity is the two sizes together. */
  function Init(startSize: int := DefaultStartSize, recentSize: int := DefaultRecentSize): (c: Config)
    ensures c.startSize == startSize && c.recentSize == recentSize
    ensures c.cacheSize == startSize + recentSize
  {
    Config(startSize, recentSize, startSize + recentSize)
  }

  /** One layer: its key and its value, as positions along each one's
      sequence axis. */
  datatype Layer<K, V> = Layer(key: seq<K>, value: seq<V>)

  type Cache<K, V> = seq<Layer<K, V>>

  /** The `keeps` argument: `keeps[0]`, the kept-token budget, and
      `keeps[1]`, the (st, ed) ranges in the caller's order. */
  datatype Keeps = Keeps(keepSize: int, ranges: seq<(int, int)>)

  /** Every layer holds n positions in its key and n in its value. The
      source reads the length from layer 0's key only and relies on this. */
  predicate Uniform<K, V>(pkv: Cache<K, V>, n: int)
  {
    forall i :: 0 <= i < |pkv| ==> |pkv[i].key| == n && |pkv[i].value| == n
  }

  /** r is pkv with every layer's key and value cut down to the positions
      p, in the order p lists them. */
  ghost predicate Selects<K, V>(pkv: Cache<K, V>, r: Cache<K, V>, p: seq<int>)
  {
    && |r| == |pkv|
    && forall i :: 0 <= i < |r| ==>
         && |r[i].key| == |p| && |r[i].value| == |p|
         && forall j :: 0 <= j < |p| ==>
              && 0 <= p[j] < |pkv[i].key| && 0 <= p[j] < |pkv[i].value|
              && r[i].key[j] == pkv[i].key[p[j]]
              && r[i].value[j] == pkv[i].value[p[j]]
  }

  /** r is pkv with the positions [a, b) of n removed from every key and
      every value: what is left is the first a and the last n - b
      positions, in their original order. */
  ghost predicate Removed<K, V>(pkv: Cache<K, V>, r: Cache<K, V>, n: nat, a: int, b: int)
  {
    && Selects(pkv, r, Range(0, a) + Range(b, n))
    && Increasing(Range(0, a) + Range(b, n))
    && Uniform(r, n - (b - a))
  }

  /** The positions kept by a start block [0, a), the middle spans, and a
      tail block from b to the end. */
  function FramedPositions(n: nat, a: int, mid: seq<Span>, b: int): seq<int>
  {
    Range(0, a) + Positions(n, mid) + Range(Clamp(b, n), n)
  }

  /** r is pkv with every key and value rebuilt as its first a positions,
      then the slices mid in their order, then the positions from b on. */
  ghost predicate Framed<K, V>(pkv: Cache<K, V>, r: Cache<K, V>, n: nat, a: int, mid: seq<Span>, b: int)
    requires Uniform(pkv, n) && 0 <= a <= n
  {
    && Selects(pkv, r, FramedPositions(n, a, mid, b))
    && Uniform(r, |FramedPositions(n, a, mid, b)|)
    && forall i :: 0 <= i < |pkv| && i < |r| ==>
         r[i].key == pkv[i].key[..a] + Cat(pkv[i].key, mid) + Slice(pkv[i].key, b, n) &&
         r[i].value == pkv[i].value[..a] + Cat(pkv[i].value, mid) + Slice(pkv[i].value, b, n)
  }

  /** The comprehension over layers: key and value both cut by the same
      slices. */
  function CutLayers<K, V>(pkv: Cache<K, V>, spans: seq<Span>): (r: Cache<K, V>)
    ensures |r| == |pkv|
    ensures forall i :: 0 <= i < |r| ==>
      |r[i].key| == |Positions(|pkv[i].key|, spans)| && |r[i].value| == |Positions(|pkv[i].value|, spans)|
  {
    seq(|pkv|, i requires 0 <= i < |pkv| => Layer(Cat(pkv[i].key, spans), Cat(pkv[i].value, spans)))
  }

  /** Cutting uniform layers selects the same positions, Positions(n,
      spans), from every key and every value. */
  lemma {:induction false} CutSelects<K, V>(pkv: Cache<K, V>, n: nat, spans: seq<Span>)
    requires Uniform(pkv, n)
    ensures Selects(pkv, CutLayers(pkv, spans), Positions(n, spans))
    ensures Uniform(CutLayers(pkv, spans), |Positions(n, spans)|)
  {
    var r := CutLayers(pkv, spans);
    forall i | 0 <= i < |pkv|
      ensures |r[i].key| == |r[i].value| == |Positions(n, spans)|
      ensures forall j :: 0 <= j < |Positions(n, spans)| ==>
        r[i].key[j] == pkv[i].key[Positions(n, spans)[j]] &&
        r[i].value[j] == pkv[i].value[Positions(n, spans)[j]]
    {
      CatPositions(pkv[i].key, spans);
      CatPositions(pkv[i].value, spans);
    }
  }

  /** Cutting with the start block [0, a), some middle spans and a tail
      block from b: every layer is rebuilt as Framed describes. */
  lemma {:induction false} CutFramed<K, V>(pkv: Cache<K, V>, spans: seq<Span>, r: Cache<K, V>, n: nat, a: int, mid: seq<Span>, b: int)
    requires Uniform(pkv, n) && 0 <= a <= n
    requires spans == [Span(0, a)] + mid + [Span(b, n)] && r == CutLayers(pkv, spans)
    ensures Framed(pkv, r, n, a, mid, b)
  {
    var head, tail := Span(0, a), Span(b, n);
    assert Positions(n, spans) == FramedPositions(n, a, mid, b) by {
      PositionsFramed(n, head, mid, tail);
      assert Clamp(0, n) == 0 && Clamp(a, n) == a && Clamp(n, n) == n;
    }
    CutSelects(pkv, n, spans);
    forall i | 0 <= i < |pkv|
      ensures r[i].key == pkv[i].key[..a] + Cat(pkv[i].key, mid) + Slice(pkv[i].key, b, n)
      ensures r[i].value == pkv[i].value[..a] + Cat(pkv[i].value, mid) + Slice(pkv[i].value, b, n)
    {
      assert |pkv[i].key| == n && |pkv[i].value| == n;
      CatFramed(pkv[i].key, head, mid, tail);
      CatFramed(pkv[i].value, head, mid, tail);
    }
  }

  /** Keeping `[0, a)` and `[b, n)` of uniform layers removes [a, b) and
      leaves m = n - (b - a) positions. */
  lemma {:induction false} CutOut<K, V>(pkv: Cache<K, V>, spans: seq<Span>, r: Cache<K, V>, n: nat, a: int, b: int, m: int)
    requires Uniform(pkv, n) && 0 <= a <= b <= n && m == n - (b - a)
    requires spans == [Span(0, a), Span(b, n)] && r == CutLayers(pkv, spans)
    ensures Removed(pkv, r, n, a, b)
    ensures Uniform(r, m)
  {
    var head, tail := Span(0, a), Span(b, n);
    var p := Range(0, a) + Range(b, n);
    assert Positions(n, spans) == p by {
      assert spans == [head] + [] + [tail];
      PositionsFramed(n, head, [], tail);
      assert Clamp(0, n) == 0 && Clamp(a, n) == a && Clamp(b, n) == b && Clamp(n, n) == n;
    }
    assert |p| == m;
    CutSelects(pkv, n, spans);
    assert Increasing(p) by {
      assert spans[1..] == [tail];
      AscendingPositions(n, spans);
    }
  }

  // ---------------------------------------------------------------------
  // __call__: trim after the cache has grown

  /** `(st, ed)` of a kept range widened to `[st - 1 : ed + 1]`. */
  function Widened(ranges: seq<(int, int)>): (w: seq<Span>)
  {
    seq(|ranges|, k requires 0 <= k < |ranges| => Span(ranges[k].0 - 1, ranges[k].1 + 1))
  }

  /** The slices trim concatenates: the start block, each kept range
      widened by one position on both sides, the last recentSize positions. */
  function TrimSpans(c: Config, n: int, keeps: Option<Keeps>): seq<Span>
  {
    var head := Span(0, c.startSize);
    var tail := Span(n - c.recentSize, n);
    match keeps
    case None => [head, tail]
    case Some(k) => [head] + Widened(k.ranges) + [tail]
  }

  /** `__call__(past_key_values, keeps)`. */
  function Trim<K, V>(c: Config, pkv: Option<Cache<K, V>>, keeps: Option<Keeps>): (r: Result<Option<Cache<K, V>>>)
    ensures pkv.None? ==> r == Ok(None)
    ensures pkv.Some? ==> (r.Err? <==> |pkv.value| == 0) && (r.Err? ==> r.error == NoLayers)
    ensures pkv.Some? && r.Ok? ==> r.value.Some? && |r.value.value| == |pkv.value|
    ensures pkv.Some? && |pkv.value| > 0 && |pkv.value[0].key| <= c.cacheSize ==> r == Ok(pkv)
  {
    match pkv
    case None => Ok(None)
    case Some(layers) =>
      if |layers| == 0 then Err(NoLayers)
      else
        var n := |layers[0].key|;
        if n <= c.cacheSize then Ok(pkv)
        else Ok(Some(CutLayers(layers, TrimSpans(c, n, keeps))))
  }

  /** Trim without keeps past capacity removes the positions between the
      first startSize and the last recentSize of every key and value,
      keeps the rest in order, and leaves exactly cacheSize positions. */
  lemma {:induction false} TrimWindow<K, V>(c: Config, pkv: Cache<K, V>, n: nat)
    requires c.Valid() && |pkv| > 0 && Uniform(pkv, n) && n > c.cacheSize
    ensures Trim(c, Some(pkv), None).Ok? && Trim(c, Some(pkv), None).value.Some?
    ensures Removed(pkv, Trim(c, Some(pkv), None).value.value, n, c.startSize, n - c.recentSize)
    ensures Uniform(Trim(c, Some(pkv), None).value.value, c.cacheSize)
  {
    CutOut(pkv, TrimSpans(c, n, None), Trim(c, Some(pkv), None).value.value,
           n, c.startSize, n - c.recentSize, c.cacheSize);
  }

  /** Without keeps, trim returns its input exactly when the length is
      within capacity. */
  lemma {:induction false} TrimUnchangedIff<K, V>(c: Config, pkv: Cache<K, V>, n: nat)
    requires c.Valid() && |pkv| > 0 && Uniform(pkv, n)
    ensures Trim(c, Some(pkv), None) == Ok(Some(pkv)) <==> n <= c.cacheSize
  {
    if n > c.cacheSize {
      TrimWindow(c, pkv, n);
      assert |Trim(c, Some(pkv), None).value.value[0].key| == c.cacheSize;
    }
  }

  /** Trim with keeps past capacity gives, for every key and value, the
      start block, then each kept range widened to `[st-1, ed+1)` in the
      caller's order, then the last recentSize positions. */
  lemma {:induction false} TrimKeepsLayout<K, V>(c: Config, pkv: Cache<K, V>, n: nat, k: Keeps)
    requires c.Valid() && |pkv| > 0 && Uniform(pkv, n) && n > c.cacheSize
    ensures Trim(c, Some(pkv), Some(k)).Ok? && Trim(c, Some(pkv), Some(k)).value.Some?
    ensures Framed(pkv, Trim(c, Some(pkv), Some(k)).value.value, n, c.startSize, Widened(k.ranges), n - c.recentSize)
  {
    CutFramed(pkv, TrimSpans(c, n, Some(k)), Trim(c, Some(pkv), Some(k)).value.value,
              n, c.startSize, Widened(k.ranges), n - c.recentSize);
  }

  /** The widened ranges name two more positions each than the ranges. */
  lemma {:induction false} WidenedLength(ranges: seq<(int, int)>)
    ensures Length(Widened(ranges)) == Length(Verbatim(ranges)) + 2 * |ranges|
  {
    if ranges != [] {
      assert Widened(ranges)[1..] == Widened(ranges[1..]);
      assert Verbatim(ranges)[1..] == Verbatim(ranges[1..]);
      WidenedLength(ranges[1..]);
    }
  }

  /** When every widened range lies inside the sequence, trim with keeps
      leaves cacheSize positions plus the kept ones plus two per range. */
  lemma {:induction false} TrimKeepsLength<K, V>(c: Config, pkv: Cache<K, V>, n: nat, k: Keeps)
    requires c.Valid() && |pkv| > 0 && Uniform(pkv, n) && n > c.cacheSize
    requires Within(n, Widened(k.ranges))
    ensures Trim(c, Some(pkv), Some(k)).Ok? && Trim(c, Some(pkv), Some(k)).value.Some?
    ensures Uniform(Trim(c, Some(pkv), Some(k)).value.value,
                    c.cacheSize + Length(Verbatim(k.ranges)) + 2 * |k.ranges|)
  {
    TrimKeepsLayout(c, pkv, n, k);
    assert |FramedPositions(n, c.startSize, Widened(k.ranges), n - c.recentSize)|
        == c.cacheSize + Length(Verbatim(k.ranges)) + 2 * |k.ranges| by {
      var s := seq(n, j => 0);
      CatLength(s, Widened(k.ranges));
      WidenedLength(k.ranges);
    }
  }

  /** When the widened ranges lie inside the sequence, in order, after the
      start block and before the tail, trim with keeps keeps the positions
      in their original order: the result is an order-preserving
      subsequence. */
  lemma {:induction false} TrimKeepsOrdered(c: Config, n: nat, k: Keeps)
    requires c.Valid() && n > c.cacheSize
    requires Within(n, TrimSpans(c, n, Some(k))) && Ascending(TrimSpans(c, n, Some(k)))
    ensures Increasing(FramedPositions(n, c.startSize, Widened(k.ranges), n - c.recentSize))
  {
    var t := n - c.recentSize;
    var head, tail := Span(0, c.startSize), Span(t, n);
    var spans := TrimSpans(c, n, Some(k));
    assert spans == [head] + Widened(k.ranges) + [tail];
    PositionsFramed(n, head, Widened(k.ranges), tail);
    assert Clamp(0, n) == 0 && Clamp(c.startSize, n) == c.startSize && Clamp(t, n) == t && Clamp(n, n) == n;
    AscendingPositions(n, spans);
  }

  /** `keeps[0]` is read by trim but never used. */
  lemma {:induction false} TrimIgnoresKeepSize<K, V>(c: Config, pkv: Option<Cache<K, V>>, ranges: seq<(int, int)>, a: int, b: int)
    ensures Trim(c, pkv, Some(Keeps(a, ranges))) == Trim(c, pkv, Some(Keeps(b, ranges)))
  {
  }

  /** Every position of a kept range that starts at 1 or later is among
      the positions trim keeps (a range starting at 0 is not: see
      TrimDropsRangeAtZero in the Scenarios module). */
  lemma {:induction false} TrimRetainsKeptRanges(c: Config, n: nat, k: Keeps, q: nat, x: int)
    requires q < |k.ranges| && 1 <= k.ranges[q].0 <= x < k.ranges[q].1 <= n
    ensures x in FramedPositions(n, c.startSize, Widened(k.ranges), n - c.recentSize)
  {
    SpanKept(n, Widened(k.ranges), q, x);
  }

  // ---------------------------------------------------------------------
  // evict_for_space: make room before numComing positions are appended

  /** `(st, ed)` of a kept range taken as `[st : ed]`, with no widening. */
  function Verbatim(ranges: seq<(int, int)>): (v: seq<Span>)
  {
    seq(|ranges|, k requires 0 <= k < |ranges| => Span(ranges[k].0, ranges[k].1))
  }

  /** Where evict_for_space's tail block starts. Python's `keepsize // 4`
      floors; for the positive divisor 4, Dafny's `/` gives the same. */
  function EvictTailStart(c: Config, n: int, numComing: int, keeps: Option<Keeps>): int
  {
    match keeps
    case None => n - c.recentSize + numComing
    case Some(k) => n - c.recentSize + numComing + k.keepSize / 4
  }

  /** The slices evict_for_space concatenates. */
  function EvictSpans(c: Config, n: int, numComing: int, keeps: Option<Keeps>): seq<Span>
  {
    var head := Span(0, c.startSize);
    var tail := Span(EvictTailStart(c, n, numComing, keeps), n);
    match keeps
    case None => [head, tail]
    case Some(k) => [head] + Verbatim(k.ranges) + [tail]
  }

  /** `evict_for_space(past_key_values, num_coming, keeps)`. */
  function EvictForSpace<K, V>(c: Config, pkv: Option<Cache<K, V>>, numComing: int, keeps: Option<Keeps>): (r: Result<Option<Cache<K, V>>>)
    ensures pkv.None? ==> r == Ok(None)
    ensures pkv.Some? ==> (r.Err? <==> |pkv.value| == 0) && (r.Err? ==> r.error == NoLayers)
    ensures pkv.Some? && r.Ok? ==> r.value.Some? && |r.value.value| == |pkv.value|
    ensures pkv.Some? && |pkv.value| > 0 && |pkv.value[0].key| + numComing <= c.cacheSize ==> r == Ok(pkv)
  {
    match pkv
    case None => Ok(None)
    case Some(layers) =>
      if |layers| == 0 then Err(NoLayers)
      else
        var n := |layers[0].key|;
        if n + numComing <= c.cacheSize then Ok(pkv)
        else Ok(Some(CutLayers(layers, EvictSpans(c, n, numComing, keeps))))
  }

  /** Evicting without keeps, for at most recentSize incoming positions,
      removes the positions between the start block and
      `n - recentSize + numComing`; the two blocks left are disjoint and in
      order, and the new length plus numComing is exactly cacheSize. */
  lemma {:induction false} EvictForSpaceWindow<K, V>(c: Config, pkv: Cache<K, V>, n: nat, numComing: int)
    requires c.Valid() && |pkv| > 0 && Uniform(pkv, n)
    requires 0 <= numComing <= c.recentSize && n + numComing > c.cacheSize
    ensures c.startSize < n - c.recentSize + numComing <= n
    ensures EvictForSpace(c, Some(pkv), numComing, None).Ok?
    ensures EvictForSpace(c, Some(pkv), numComing, None).value.Some?
    ensures Removed(pkv, EvictForSpace(c, Some(pkv), numComing, None).value.value, n,
                    c.startSize, n - c.recentSize + numComing)
    ensures Uniform(EvictForSpace(c, Some(pkv), numComing, None).value.value, c.cacheSize - numComing)
  {
    CutOut(pkv, EvictSpans(c, n, numComing, None), EvictForSpace(c, Some(pkv), numComing, None).value.value,
           n, c.startSize, n - c.recentSize + numComing, c.cacheSize - numComing);
  }

  /** Without keeps, evict_for_space returns its input exactly when the
      incoming positions fit (for numComing up to recentSize). */
  lemma {:induction false} EvictForSpaceUnchangedIff<K, V>(c: Config, pkv: Cache<K, V>, n: nat, numComing: int)
    requires c.Valid() && |pkv| > 0 && Uniform(pkv, n)
    requires 0 <= numComing <= c.recentSize
    ensures EvictForSpace(c, Some(pkv), numComing, None) == Ok(Some(pkv)) <==> n + numComing <= c.cacheSize
  {
    if n + numComing > c.cacheSize {
      EvictForSpaceWindow(c, pkv, n, numComing);
      assert |EvictForSpace(c, Some(pkv), numComing, None).value.value[0].key| == c.cacheSize - numComing;
    }
  }

  /** Evicting without keeps for more than recentSize incoming positions
      puts the tail start past the end, so only the start block is left. */
  lemma {:induction false} EvictForSpaceStartOnly<K, V>(c: Config, pkv: Cache<K, V>, n: nat, numComing: int)
    requires c.Valid() && |pkv| > 0 && Uniform(pkv, n) && c.startSize <= n
    requires numComing > c.recentSize
    ensures EvictForSpace(c, Some(pkv), numComing, None).Ok?
    ensures EvictForSpace(c, Some(pkv), numComing, None).value.Some?
    ensures Removed(pkv, EvictForSpace(c, Some(pkv), numComing, None).value.value, n, c.startSize, n)
  {
    var t := n - c.recentSize + numComing;
    var r := EvictForSpace(c, Some(pkv), numComing, None).value.value;
    assert EvictSpans(c, n, numComing, None) == [Span(0, c.startSize)] + [] + [Span(t, n)];
    CutFramed(pkv, EvictSpans(c, n, numComing, None), r, n, c.startSize, [], t);
    assert Range(Clamp(t, n), n) == [] && Range(n, n) == [];
    assert FramedPositions(n, c.startSize, [], t) == Range(0, c.startSize) + Range(n, n);
  }

  /** Evicting with keeps gives, for every key and value, the start block,
      then each kept range taken verbatim in the caller's order, then the
      positions from `t = n - recentSize + numComing + keepSize / 4` on,
      which lies after the start block (past the end when numComing is
      large, and then the tail is empty). A position in both a kept range
      and the tail appears twice. */
  lemma {:induction false} EvictForSpaceKeepsLayout<K, V>(c: Config, pkv: Cache<K, V>, n: nat, numComing: int, k: Keeps)
    requires c.Valid() && |pkv| > 0 && Uniform(pkv, n) && c.startSize <= n
    requires 0 <= numComing && 0 <= k.keepSize && n + numComing > c.cacheSize
    ensures c.startSize < n - c.recentSize + numComing + k.keepSize / 4
    ensures EvictForSpace(c, Some(pkv), numComing, Some(k)).Ok?
    ensures EvictForSpace(c, Some(pkv), numComing, Some(k)).value.Some?
    ensures Framed(pkv, EvictForSpace(c, Some(pkv), numComing, Some(k)).value.value, n,
                   c.startSize, Verbatim(k.ranges), n - c.recentSize + numComing + k.keepSize / 4)
  {
    CutFramed(pkv, EvictSpans(c, n, numComing, Some(k)), EvictForSpace(c, Some(pkv), numComing, Some(k)).value.value,
              n, c.startSize, Verbatim(k.ranges), n - c.recentSize + numComing + k.keepSize / 4);
  }

  /** When the start block, the verbatim kept ranges and the tail lie
      inside the sequence and in order, evicting with keeps keeps the
      positions in their original order: an order-preserving subsequence
      with no duplicates. */
  lemma {:induction false} EvictForSpaceKeepsOrdered(c: Config, n: nat, numComing: int, k: Keeps)
    requires Within(n, EvictSpans(c, n, numComing, Some(k))) && Ascending(EvictSpans(c, n, numComing, Some(k)))
    ensures Increasing(FramedPositions(n, c.startSize, Verbatim(k.ranges), EvictTailStart(c, n, numComing, Some(k))))
  {
    var t := EvictTailStart(c, n, numComing, Some(k));
    var head, tail := Span(0, c.startSize), Span(t, n);
    var spans := EvictSpans(c, n, numComing, Some(k));
    assert spans == [head] + Verbatim(k.ranges) + [tail];
    assert spans[0] == head && spans[|spans| - 1] == tail;
    PositionsFramed(n, head, Verbatim(k.ranges), tail);
    assert Clamp(0, n) == 0 && Clamp(c.startSize, n) == c.startSize && Clamp(t, n) == t && Clamp(n, n) == n;
    AscendingPositions(n, spans);
  }

  /** When the kept ranges lie inside the sequence and the tail start t
      does not pass its end, evicting with keeps leaves
      `cacheSize - numComing` positions, plus the kept ones, less
      `keepSize / 4`. */
  lemma {:induction false} EvictForSpaceKeepsLength<K, V>(c: Config, pkv: Cache<K, V>, n: nat, numComing: int, k: Keeps)
    requires c.Valid() && |pkv| > 0 && Uniform(pkv, n)
    requires 0 <= numComing <= c.recentSize && 0 <= k.keepSize && n + numComing > c.cacheSize
    requires Within(n, Verbatim(k.ranges)) && n - c.recentSize + numComing + k.keepSize / 4 <= n
    ensures EvictForSpace(c, Some(pkv), numComing, Some(k)).Ok?
    ensures EvictForSpace(c, Some(pkv), numComing, Some(k)).value.Some?
    ensures Uniform(EvictForSpace(c, Some(pkv), numComing, Some(k)).value.value,
                    c.cacheSize - numComing + Length(Verbatim(k.ranges)) - k.keepSize / 4)
  {
    EvictForSpaceKeepsLayout(c, pkv, n, numComing, k);
    var t := n - c.recentSize + numComing + k.keepSize / 4;
    assert |FramedPositions(n, c.startSize, Verbatim(k.ranges), t)|
        == c.cacheSize - numComing + Length(Verbatim(k.ranges)) - k.keepSize / 4 by {
      var s := seq(n, j => 0);
      CatLength(s, Verbatim(k.ranges));
      assert Clamp(t, n) == t;
    }
  }

  // ---------------------------------------------------------------------
  // evict_range: cut out the span [start, end)

  /** `evict_range(past_key_values, start, end)`, as written: the assert
      checks `start <= end <= seq_len` only. The configuration is not used. */
  function EvictRange<K, V>(pkv: Option<Cache<K, V>>, start: int, end: int): (r: Result<Option<Cache<K, V>>>)
    ensures pkv.None? ==> r == Ok(None)
    ensures pkv.Some? && |pkv.value| == 0 ==> r == Err(NoLayers)
    ensures pkv.Some? && |pkv.value| > 0 ==>
      (r == Err(RangeAssertion) <==> !(start <= end <= |pkv.value[0].key|))
    ensures pkv.Some? ==> (r.Err? <==> |pkv.value| == 0 || !(start <= end <= |pkv.value[0].key|))
    ensures pkv.Some? && r.Ok? ==> r.value.Some? && |r.value.value| == |pkv.value|
  {
    match pkv
    case None => Ok(None)
    case Some(layers) =>
      if |layers| == 0 then Err(NoLayers)
      else
        var n := |layers[0].key|;
        if !(start <= end && end <= n) then Err(RangeAssertion)
        else Ok(Some(CutLayers(layers, [Span(0, start), Span(end, n)])))
  }

  /** For a range inside the sequence, evict_range removes exactly the
      positions [start, end) of every key and value, keeping the rest in
      order, so `n - (end - start)` positions are left. */
  lemma {:induction false} EvictRangeCut<K, V>(pkv: Cache<K, V>, n: nat, start: int, end: int)
    requires |pkv| > 0 && Uniform(pkv, n) && 0 <= start <= end <= n
    ensures EvictRange(Some(pkv), start, end).Ok? && EvictRange(Some(pkv), start, end).value.Some?
    ensures Removed(pkv, EvictRange(Some(pkv), start, end).value.value, n, start, end)
  {
    CutOut(pkv, [Span(0, start), Span(end, n)], EvictRange(Some(pkv), start, end).value.value,
           n, start, end, n - (end - start));
  }

  /** Evicting an empty range leaves every layer as it was. */
  lemma {:induction false} EvictRangeEmpty<K, V>(pkv: Cache<K, V>, n: nat, m: int)
    requires |pkv| > 0 && Uniform(pkv, n) && 0 <= m <= n
    ensures EvictRange(Some(pkv), m, m) == Ok(Some(pkv))
  {
    var r := EvictRange(Some(pkv), m, m).value.value;
    assert |r| == |pkv|;
    forall i | 0 <= i < |pkv| ensures r[i] == pkv[i] {
      assert |pkv[i].key| == n && |pkv[i].value| == n;
      CatAdjacent(pkv[i].key, m);
      CatAdjacent(pkv[i].value, m);
    }
    assert r == pkv;
  }

  // ---------------------------------------------------------------------
  // Corrected readings of two behaviours of the source (README, Findings)

  /** `(st, ed)` widened to `[max(st - 1, 0) : ed + 1]`: a range that starts
      at position 0 is not widened to -1, which Python reads as the last
      position. */
  function WidenedFromZero(ranges: seq<(int, int)>): (w: seq<Span>)
  {
    seq(|ranges|, k requires 0 <= k < |ranges| =>
      Span(if ranges[k].0 >= 1 then ranges[k].0 - 1 else 0, ranges[k].1 + 1))
  }

  function TrimFromZeroSpans(c: Config, n: int, keeps: Option<Keeps>): seq<Span>
  {
    var head := Span(0, c.startSize);
    var tail := Span(n - c.recentSize, n);
    match keeps
    case None => [head, tail]
    case Some(k) => [head] + WidenedFromZero(k.ranges) + [tail]
  }

  /** Trim with the widening of a kept range stopped at position 0. */
  function TrimFromZero<K, V>(c: Config, pkv: Option<Cache<K, V>>, keeps: Option<Keeps>): (r: Result<Option<Cache<K, V>>>)
    ensures pkv.None? ==> r == Ok(None)
    ensures pkv.Some? ==> (r.Err? <==> |pkv.value| == 0) && (r.Err? ==> r.error == NoLayers)
    ensures pkv.Some? && r.Ok? ==> r.value.Some? && |r.value.value| == |pkv.value|
    ensures pkv.Some? && |pkv.value| > 0 && |pkv.value[0].key| <= c.cacheSize ==> r == Ok(pkv)
  {
    match pkv
    case None => Ok(None)
    case Some(layers) =>
      if |layers| == 0 then Err(NoLayers)
      else
        var n := |layers[0].key|;
        if n <= c.cacheSize then Ok(pkv)
        else Ok(Some(CutLayers(layers, TrimFromZeroSpans(c, n, keeps))))
  }

  /** With the correction, every position of every kept range inside the
      sequence survives trim, in every key and every value, whatever the
      range's start. */
  lemma {:induction false} TrimFromZeroRetainsKeptRanges<K, V>(c: Config, pkv: Cache<K, V>, n: nat, k: Keeps, q: nat, x: int)
    requires c.Valid() && |pkv| > 0 && Uniform(pkv, n) && n > c.cacheSize
    requires q < |k.ranges| && 0 <= k.ranges[q].0 <= x < k.ranges[q].1 <= n
    ensures TrimFromZero(c, Some(pkv), Some(k)).Ok? && TrimFromZero(c, Some(pkv), Some(k)).value.Some?
    ensures var p := FramedPositions(n, c.startSize, WidenedFromZero(k.ranges), n - c.recentSize);
      Framed(pkv, TrimFromZero(c, Some(pkv), Some(k)).value.value, n, c.startSize, WidenedFromZero(k.ranges), n - c.recentSize)
      && x in p
  {
    var w := WidenedFromZero(k.ranges);
    CutFramed(pkv, TrimFromZeroSpans(c, n, Some(k)), TrimFromZero(c, Some(pkv), Some(k)).value.value,
              n, c.startSize, w, n - c.recentSize);
    SpanKept(n, w, q, x);
  }

  /** The correction changes nothing when no kept range starts at 0. */
  lemma {:induction false} TrimFromZeroAgrees<K, V>(c: Config, pkv: Option<Cache<K, V>>, k: Keeps)
    requires forall q :: 0 <= q < |k.ranges| ==> k.ranges[q].0 >= 1
    ensures TrimFromZero(c, pkv, Some(k)) == Trim(c, pkv, Some(k))
  {
    assert WidenedFromZero(k.ranges) == Widened(k.ranges);
  }

  /** `evict_range` with the range check extended to `0 <= start`. */
  function EvictRangeChecked<K, V>(pkv: Option<Cache<K, V>>, start: int, end: int): (r: Result<Option<Cache<K, V>>>)
    ensures pkv.None? ==> r == Ok(None)
    ensures pkv.Some? && |pkv.value| == 0 ==> r == Err(NoLayers)
    ensures pkv.Some? && |pkv.value| > 0 ==>
      (r == Err(RangeAssertion) <==> !(0 <= start <= end <= |pkv.value[0].key|))
    ensures pkv.Some? && |pkv.value| > 0 ==> (r.Ok? <==> 0 <= start <= end <= |pkv.value[0].key|)
    ensures pkv.Some? && r.Ok? ==> r.value.Some? && |r.value.value| == |pkv.value|
  {
    match pkv
    case None => Ok(None)
    case Some(layers) =>
      if |layers| == 0 then Err(NoLayers)
      else
        var n := |layers[0].key|;
        if !(0 <= start && start <= end && end <= n) then Err(RangeAssertion)
        else Ok(Some(CutLayers(layers, [Span(0, start), Span(end, n)])))
  }

  /** Whatever the arguments, a cache that the checked evict_range accepts
      agrees with evict_range and loses exactly the positions [start, end). */
  lemma {:induction false} EvictRangeCheckedShrinks<K, V>(pkv: Cache<K, V>, n: nat, start: int, end: int)
    requires |pkv| > 0 && Uniform(pkv, n)
    ensures EvictRangeChecked(Some(pkv), start, end).Ok? ==>
      && 0 <= start <= end <= n
      && EvictRangeChecked(Some(pkv), start, end) == EvictRange(Some(pkv), start, end)
      && EvictRangeChecked(Some(pkv), start, end).value.Some?
      && Removed(pkv, EvictRangeChecked(Some(pkv), start, end).value.value, n, start, end)
  {
    if 0 <= start <= end <= n {
      EvictRangeCut(pkv, n, start, end);
    }
  }
}
