/**
  Concrete runs of the cache operations on one layer whose positions carry
  their own index as a marker, so that each result shows which positions
  were kept and in which order.
 */
module Scenarios {
  import opened Slicing
  import opened KVCache

  /** The markers 0, 1, ..., n - 1. */
  function Markers(n: nat): (m: seq<int>)
    ensures |m| == n && forall i :: 0 <= i < n ==> m[i] == i
  {
    seq(n, i => i)
  }

  function OneLayer(m: seq<int>): Cache<int, int>
  {
    [Layer(m, m)]
  }

  /** A cut of the one-layer marker cache is read off its selected
      positions: the markers it keeps are the positions themselves. */
  lemma {:induction false} MarkersSelected(n: nat, r: Cache<int, int>, p: seq<int>)
    requires Selects(OneLayer(Markers(n)), r, p)
    ensures r == OneLayer(p)
  {
    var m := Markers(n);
    assert r[0].key == p by {
      forall j | 0 <= j < |p| ensures r[0].key[j] == p[j] {
        assert r[0].key[j] == m[p[j]];
      }
    }
    assert r[0].value == p by {
      forall j | 0 <= j < |p| ensures r[0].value[j] == p[j] {
        assert r[0].value[j] == m[p[j]];
      }
    }
    assert r[0] == Layer(p, p);
  }

  /** Sizes 4 and 8, twenty positions: trim keeps 0..3 and 12..19. */
  lemma {:induction false} TrimExample()
    ensures Trim(Init(4, 8), Some(OneLayer(Markers(20))), None)
         == Ok(Some(OneLayer([0, 1, 2, 3, 12, 13, 14, 15, 16, 17, 18, 19])))
  {
    var c := Init(4, 8);
    TrimWindow(c, OneLayer(Markers(20)), 20);
    assert Range(0, 4) + Range(12, 20) == [0, 1, 2, 3, 12, 13, 14, 15, 16, 17, 18, 19];
    MarkersSelected(20, Trim(c, Some(OneLayer(Markers(20))), None).value.value, Range(0, 4) + Range(12, 20));
  }

  /** Sizes 4 and 8, twelve positions, five coming: 12 + 5 > 12, so the
      tail starts at 12 - 8 + 5 = 9. */
  lemma {:induction false} EvictForSpaceExample()
    ensures EvictForSpace(Init(4, 8), Some(OneLayer(Markers(12))), 5, None)
         == Ok(Some(OneLayer([0, 1, 2, 3, 9, 10, 11])))
  {
    var c := Init(4, 8);
    EvictForSpaceWindow(c, OneLayer(Markers(12)), 12, 5);
    assert Range(0, 4) + Range(9, 12) == [0, 1, 2, 3, 9, 10, 11];
    MarkersSelected(12, EvictForSpace(c, Some(OneLayer(Markers(12))), 5, None).value.value, Range(0, 4) + Range(9, 12));
  }

  /** As above with the kept range (10, 12) and budget 2: the range is taken
      verbatim, the tail still starts at 9 + 2 / 4 = 9, and positions 10 and
      11 appear twice. */
  lemma {:induction false} EvictForSpaceKeepsExample()
    ensures EvictForSpace(Init(4, 8), Some(OneLayer(Markers(12))), 5, Some(Keeps(2, [(10, 12)])))
         == Ok(Some(OneLayer([0, 1, 2, 3, 10, 11, 9, 10, 11])))
  {
    var c := Init(4, 8);
    var k := Keeps(2, [(10, 12)]);
    EvictForSpaceKeepsLayout(c, OneLayer(Markers(12)), 12, 5, k);
    var p := FramedPositions(12, 4, Verbatim(k.ranges), 9);
    assert p == [0, 1, 2, 3, 10, 11, 9, 10, 11] by {
      assert Verbatim(k.ranges) == [Span(10, 12)];
      assert Positions(12, [Span(10, 12)]) == Range(10, 12) + Positions(12, []);
    }
    MarkersSelected(12, EvictForSpace(c, Some(OneLayer(Markers(12))), 5, Some(k)).value.value, p);
  }

  /** Trim with keeps of the one-layer marker cache past capacity: the
      markers left are the framed positions themselves. */
  lemma {:induction false} TrimKeepsMarkers(c: Config, n: nat, k: Keeps, p: seq<int>)
    requires c.Valid() && n > c.cacheSize
    requires p == FramedPositions(n, c.startSize, Widened(k.ranges), n - c.recentSize)
    ensures Trim(c, Some(OneLayer(Markers(n))), Some(k)) == Ok(Some(OneLayer(p)))
  {
    TrimKeepsLayout(c, OneLayer(Markers(n)), n, k);
    MarkersSelected(n, Trim(c, Some(OneLayer(Markers(n))), Some(k)).value.value, p);
  }

  /** The same for trim with the widening stopped at position 0. */
  lemma {:induction false} TrimFromZeroMarkers(c: Config, n: nat, k: Keeps, p: seq<int>)
    requires c.Valid() && n > c.cacheSize
    requires p == FramedPositions(n, c.startSize, WidenedFromZero(k.ranges), n - c.recentSize)
    ensures TrimFromZero(c, Some(OneLayer(Markers(n))), Some(k)) == Ok(Some(OneLayer(p)))
  {
    var pkv := OneLayer(Markers(n));
    var w := WidenedFromZero(k.ranges);
    CutFramed(pkv, TrimFromZeroSpans(c, n, Some(k)), TrimFromZero(c, Some(pkv), Some(k)).value.value,
              n, c.startSize, w, n - c.recentSize);
    MarkersSelected(n, TrimFromZero(c, Some(pkv), Some(k)).value.value, p);
  }

  /** Sizes 0 and 2, n >= 4 positions, kept range (0, 2): trim widens it
      to [-1 : 3], which Python reads as [n - 1 : 3], an empty slice, so
      positions 0 and 1 are lost and only the last two are left. */
  lemma {:induction false} TrimDropsRangeAtZero(n: nat)
    requires n >= 4
    ensures Trim(Init(0, 2), Some(OneLayer(Markers(n))), Some(Keeps(2, [(0, 2)])))
         == Ok(Some(OneLayer([n - 2, n - 1])))
  {
    var k := Keeps(2, [(0, 2)]);
    assert FramedPositions(n, 0, Widened(k.ranges), n - 2) == [n - 2, n - 1] by {
      assert Widened(k.ranges) == [Span(-1, 3)];
      assert Positions(n, [Span(-1, 3)]) == Range(n - 1, 3) + Positions(n, []);
      assert Range(0, 0) == [] && Range(n - 1, 3) == [] && Range(n - 2, n) == [n - 2, n - 1];
    }
    TrimKeepsMarkers(Init(0, 2), n, k, [n - 2, n - 1]);
  }

  /** The same runs with the widening stopped at 0 keep positions 0, 1
      and the one after them. */
  lemma {:induction false} TrimFromZeroKeepsRangeAtZero(n: nat)
    requires n >= 4
    ensures TrimFromZero(Init(0, 2), Some(OneLayer(Markers(n))), Some(Keeps(2, [(0, 2)])))
         == Ok(Some(OneLayer([0, 1, 2, n - 2, n - 1])))
  {
    var k := Keeps(2, [(0, 2)]);
    assert FramedPositions(n, 0, WidenedFromZero(k.ranges), n - 2) == [0, 1, 2, n - 2, n - 1] by {
      assert WidenedFromZero(k.ranges) == [Span(0, 3)];
      assert Positions(n, [Span(0, 3)]) == Range(0, 3) + Positions(n, []);
      assert Range(0, 0) == [] && Range(0, 3) == [0, 1, 2] && Range(n - 2, n) == [n - 2, n - 1];
    }
    TrimFromZeroMarkers(Init(0, 2), n, k, [0, 1, 2, n - 2, n - 1]);
  }

  /** Four positions, start -1, end 0: the assert lets it through, `[0:-1]`
      is positions 0..2 and `[0:4]` all four, so the result has seven
      positions, three of them twice, instead of three; the checked
      evict_range refuses it. */
  lemma {:induction false} EvictRangeNegativeStart()
    ensures EvictRange(Some(OneLayer(Markers(4))), -1, 0)
         == Ok(Some(OneLayer([0, 1, 2, 0, 1, 2, 3])))
    ensures EvictRangeChecked(Some(OneLayer(Markers(4))), -1, 0) == Err(RangeAssertion)
  {
    var m := Markers(4);
    var e := [0, 1, 2, 0, 1, 2, 3];
    var spans := [Span(0, -1), Span(0, 4)];
    assert EvictRange(Some(OneLayer(m)), -1, 0) == Ok(Some(CutLayers(OneLayer(m), spans)));
    assert Slice(m, 0, -1) == m[..3];
    assert spans[1..] == [Span(0, 4)];
    assert Cat(m, spans[1..]) == m + Cat(m, []);
    assert Cat(m, spans) == m[..3] + Cat(m, spans[1..]);
    assert m[..3] + m == e;
    assert CutLayers(OneLayer(m), spans)[0] == Layer(e, e);
    assert CutLayers(OneLayer(m), spans) == OneLayer(e);
  }
}
