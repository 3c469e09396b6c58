/**
  Slicing along one axis, with Python's rules for slice bounds, and the
  concatenation of several such slices that `torch.cat` performs.

  A tensor is abstracted to the sequence of its positions along its
  sequence axis: every other axis is carried through untouched by a slice
  along that axis, so only the positions matter here.
 */
module Slicing {

  /** Python's normalisation of one bound of `s[a:b]` for a sequence of
      length n: a negative bound counts from the end, and the bound is then
      clamped to [0, n]. */
  function Clamp(i: int, n: nat): (r: nat)
    ensures r <= n
  {
    if i < 0 then (if i + n < 0 then 0 else i + n)
    else if i > n then n
    else i
  }

  /** `s[a:b]` with a step of one: both bounds normalised, and empty when
      the normalised start is not below the normalised end. */
  function Slice<T>(s: seq<T>, a: int, b: int): (r: seq<T>)
    ensures |r| <= |s|
    ensures 0 <= a <= b <= |s| ==> r == s[a..b]
    ensures 0 <= b <= a ==> r == []
  {
    var lo, hi := Clamp(a, |s|), Clamp(b, |s|);
    if lo < hi then s[lo..hi] else []
  }

  /** The bounds `[lo:hi]` of one slice, as the caller writes them. */
  datatype Span = Span(lo: int, hi: int)

  /** `torch.cat([s[sp.lo:sp.hi] for sp in spans])` along the sequence axis. */
  function Cat<T>(s: seq<T>, spans: seq<Span>): (r: seq<T>)
    ensures |r| == |Positions(|s|, spans)|
  {
    if spans == [] then []
    else Slice(s, spans[0].lo, spans[0].hi) + Cat(s, spans[1..])
  }

  /** The consecutive indices a, a+1, ..., b-1 (none when b <= a). */
  function Range(a: int, b: int): (r: seq<int>)
  {
    seq(if a < b then b - a else 0, j => a + j)
  }

  /** The indices of a length-n sequence that Cat keeps, in output order. */
  function Positions(n: nat, spans: seq<Span>): (p: seq<int>)
    ensures forall j :: 0 <= j < |p| ==> 0 <= p[j] < n
  {
    if spans == [] then []
    else Range(Clamp(spans[0].lo, n), Clamp(spans[0].hi, n)) + Positions(n, spans[1..])
  }

  /** Every span names a stretch inside [0, n] with its bounds in order, so
      no bound is normalised. */
  predicate Within(n: nat, spans: seq<Span>)
  {
    forall k :: 0 <= k < |spans| ==> 0 <= spans[k].lo <= spans[k].hi <= n
  }

  /** Each span ends no later than the next one starts. */
  predicate Ascending(spans: seq<Span>)
  {
    forall k :: 0 <= k < |spans| - 1 ==> spans[k].hi <= spans[k + 1].lo
  }

  /** Total number of positions the spans name, counted without normalising. */
  function Length(spans: seq<Span>): int
  {
    if spans == [] then 0 else spans[0].hi - spans[0].lo + Length(spans[1..])
  }

  predicate Increasing(p: seq<int>)
  {
    forall i, j :: 0 <= i < j < |p| ==> p[i] < p[j]
  }

  /** Cat picks out exactly the positions Positions names: its j-th element
      is the element of s at Positions(|s|, spans)[j]. */
  lemma {:induction false} CatPositions<T>(s: seq<T>, spans: seq<Span>)
    ensures |Cat(s, spans)| == |Positions(|s|, spans)|
    ensures forall j :: 0 <= j < |Cat(s, spans)| ==>
      Cat(s, spans)[j] == s[Positions(|s|, spans)[j]]
  {
    if spans != [] {
      var lo, hi := Clamp(spans[0].lo, |s|), Clamp(spans[0].hi, |s|);
      var head, rest := Slice(s, spans[0].lo, spans[0].hi), Cat(s, spans[1..]);
      var range, more := Range(lo, hi), Positions(|s|, spans[1..]);
      CatPositions(s, spans[1..]);
      assert |head| == |range|;
      assert Cat(s, spans) == head + rest;
      assert Positions(|s|, spans) == range + more;
      forall j | 0 <= j < |head| + |rest|
        ensures (head + rest)[j] == s[(range + more)[j]]
      {
        if j < |head| {
          assert head[j] == s[lo + j];
        } else {
          assert (head + rest)[j] == rest[j - |head|];
          assert (range + more)[j] == more[j - |head|];
        }
      }
    }
  }

  /** With no bound normalised, Cat keeps as many positions as the spans
      name. */
  lemma {:induction false} CatLength<T>(s: seq<T>, spans: seq<Span>)
    requires Within(|s|, spans)
    ensures |Cat(s, spans)| == |Positions(|s|, spans)| == Length(spans)
  {
    CatPositions(s, spans);
    if spans != [] {
      assert Within(|s|, spans[1..]) by {
        forall k | 0 <= k < |spans[1..]| ensures 0 <= spans[1..][k].lo <= spans[1..][k].hi <= |s| {
          assert spans[1..][k] == spans[k + 1];
        }
      }
      CatLength(s, spans[1..]);
    }
  }

  /** Spans in order and inside the sequence keep the positions in
      strictly increasing order, each at or after the first span's start:
      the result is an order-preserving subsequence. */
  lemma {:induction false} AscendingPositions(n: nat, spans: seq<Span>)
    requires Within(n, spans) && Ascending(spans)
    ensures Increasing(Positions(n, spans))
    ensures spans != [] ==> forall j :: 0 <= j < |Positions(n, spans)| ==> spans[0].lo <= Positions(n, spans)[j]
  {
    if spans != [] {
      var rest := spans[1..];
      assert Within(n, rest) && Ascending(rest) by {
        forall k | 0 <= k < |rest| ensures rest[k] == spans[k + 1] { }
      }
      AscendingPositions(n, rest);
      var range := Range(spans[0].lo, spans[0].hi);
      var p := Positions(n, spans);
      assert p == range + Positions(n, rest);
      forall i, j | 0 <= i < j < |p| ensures p[i] < p[j] {
        if j >= |range| && i < |range| {
          assert rest[0] == spans[1];
        }
      }
      if rest != [] {
        assert spans[0].lo <= spans[0].hi <= rest[0].lo;
      }
    }
  }

  /** Cat distributes over a split of the span list, which is how torch.cat
      of a list built with `+` behaves. */
  lemma {:induction false} CatAppend<T>(s: seq<T>, a: seq<Span>, b: seq<Span>)
    ensures Cat(s, a + b) == Cat(s, a) + Cat(s, b)
  {
    if a == [] {
      assert a + b == b;
    } else {
      assert (a + b)[0] == a[0];
      assert (a + b)[1..] == a[1..] + b;
      CatAppend(s, a[1..], b);
    }
  }

  /** Positions distributes over a split of the span list likewise. */
  lemma {:induction false} PositionsAppend(n: nat, a: seq<Span>, b: seq<Span>)
    ensures Positions(n, a + b) == Positions(n, a) + Positions(n, b)
  {
    if a == [] {
      assert a + b == b;
    } else {
      assert (a + b)[0] == a[0];
      assert (a + b)[1..] == a[1..] + b;
      PositionsAppend(n, a[1..], b);
    }
  }

  /** Cat of a list made of a first span, some middle spans and a last
      span: the first slice, then the middle ones, then the last. */
  lemma CatFramed<T>(s: seq<T>, a: Span, mid: seq<Span>, b: Span)
    ensures Cat(s, [a] + mid + [b]) == Slice(s, a.lo, a.hi) + Cat(s, mid) + Slice(s, b.lo, b.hi)
  {
    CatAppend(s, [a] + mid, [b]);
    CatAppend(s, [a], mid);
    assert [a][1..] == [] && [b][1..] == [];
  }

  /** The positions of such a list, likewise. */
  lemma PositionsFramed(n: nat, a: Span, mid: seq<Span>, b: Span)
    ensures Positions(n, [a] + mid + [b]) ==
      Range(Clamp(a.lo, n), Clamp(a.hi, n)) + Positions(n, mid) + Range(Clamp(b.lo, n), Clamp(b.hi, n))
  {
    PositionsAppend(n, [a] + mid, [b]);
    PositionsAppend(n, [a], mid);
    assert [a][1..] == [] && [b][1..] == [];
  }

  /** A position of the k-th span (after normalisation) is among the kept
      positions. */
  lemma {:induction false} SpanKept(n: nat, spans: seq<Span>, k: nat, x: int)
    requires k < |spans|
    requires Clamp(spans[k].lo, n) <= x < Clamp(spans[k].hi, n)
    ensures x in Positions(n, spans)
  {
    var range := Range(Clamp(spans[0].lo, n), Clamp(spans[0].hi, n));
    if k == 0 {
      assert range[x - Clamp(spans[0].lo, n)] == x;
    } else {
      assert spans[1..][k - 1] == spans[k];
      SpanKept(n, spans[1..], k - 1, x);
    }
  }

  /** Cat of two spans that split [0, n] in order, with nothing between
      them, gives the sequence back: a cut of nothing is the identity. */
  lemma {:induction false} CatAdjacent<T>(s: seq<T>, m: int)
    requires 0 <= m <= |s|
    ensures Cat(s, [Span(0, m), Span(m, |s|)]) == s
  {
    var spans := [Span(0, m), Span(m, |s|)];
    var tail := spans[1..];
    assert tail == [Span(m, |s|)];
    assert tail[1..] == [];
    assert Cat(s, tail) == s[m..] + Cat(s, tail[1..]);
    assert Cat(s, spans) == s[..m] + Cat(s, tail);
    assert s[..m] + s[m..] == s;
  }
}
