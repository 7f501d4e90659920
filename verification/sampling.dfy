/**
 The two data producers of the page generator: full emission (`get_data`) and
 index-set emission (`sample_data`). The data file is a sequence of lines; the
 random draw of `random.sample(range(n), k)` is a given set of indices.
 */
module Sampling {

  /** The one error the data producers raise: `random.sample` rejects a
      sample size that is negative or larger than the population. */
  datatype Error = SampleSizeOutOfRange(k: int, population: nat)

  datatype Result<+T> = Success(value: T) | Failure(error: Error)

  /** `random.sample` accepts `k` for a population of `n` exactly when `0 <= k <= n`. */
  predicate ValidSampleSize(k: int, n: nat)
  {
    0 <= k <= n
  }

  /** A possible outcome of `set(random.sample(range(n), k))`: `k` distinct indices below `n`. */
  predicate IsDraw(draw: set<nat>, k: nat, n: nat)
  {
    |draw| == k && forall i :: i in draw ==> i < n
  }

  /** The index set `range(n)`. */
  function Range(n: nat): (r: set<nat>)
    ensures |r| == n
    ensures forall i: nat :: i in r <==> i < n
  {
    if n == 0 then {} else Range(n - 1) + {n - 1}
  }

  /** The members of `draw` that index a line of a file with `n` lines. */
  function Below(draw: set<nat>, n: nat): set<nat>
  {
    set i | i in draw && i < n
  }

  /**
   The indices a scan of an `n`-line file emits for `draw`, in the order it
   meets them.
   */
  function AscendingMembers(draw: set<nat>, n: nat): (p: seq<nat>)
    ensures forall a :: 0 <= a < |p| ==> p[a] < n
    ensures forall a, b :: 0 <= a < b < |p| ==> p[a] < p[b]
    ensures forall i: nat :: i in p <==> i in draw && i < n
  {
    if n == 0 then []
    else AscendingMembers(draw, n - 1) + (if n - 1 in draw then [n - 1] else [])
  }

  /**
   The lines of `data` whose 0-based index is in `draw`, in file order: the
   value of `sample_data` once its draw is fixed.
   */
  function Select(data: seq<string>, draw: set<nat>): (r: seq<string>)
    ensures |r| <= |data|
  {
    if |data| == 0 then []
    else
      var last := |data| - 1;
      Select(data[..last], draw) + (if last in draw then [data[last]] else [])
  }

  /**
   `get_data`: read the data file line by line and hand on every line.
   */
  method GetData(data: seq<string>) returns (out: seq<string>)
    ensures out == data
  {
    out := [];
    var i := 0;
    while i < |data|
      invariant 0 <= i <= |data|
      invariant out == data[..i]
    {
      out := out + [data[i]];
      i := i + 1;
    }
  }

  /**
   `sample_data(k)` with `draw` standing for the random draw: reject a sample
   size outside `[0, n]`, otherwise scan the data once and hand on the lines
   whose index is in the draw.
   */
  method SampleData(data: seq<string>, n: nat, k: int, draw: set<nat>) returns (r: Result<seq<string>>)
    requires ValidSampleSize(k, n) ==> IsDraw(draw, k, n)
    ensures r.Failure? <==> !ValidSampleSize(k, n)
    ensures r.Failure? ==> r.error == SampleSizeOutOfRange(k, n)
    ensures r.Success? ==> r.value == Select(data, draw)
    ensures r.Success? ==> |r.value| <= k
    ensures r.Success? && n <= |data| ==> |r.value| == k
  {
    if !ValidSampleSize(k, n) {
      return Failure(SampleSizeOutOfRange(k, n));
    }
    var out := [];
    var i := 0;
    while i < |data|
      invariant 0 <= i <= |data|
      invariant out == Select(data[..i], draw)
    {
      assert data[..i + 1][..i] == data[..i];
      if i in draw {
        out := out + [data[i]];
      }
      i := i + 1;
    }
    assert data[..|data|] == data;
    SelectLength(data, draw);
    BelowCardinality(draw, k, n, |data|);
    return Success(out);
  }

  /** A draw keeps at most `k` indices below any bound, and all of them once
      the bound reaches the population. */
  lemma BelowCardinality(draw: set<nat>, k: nat, n: nat, m: nat)
    requires IsDraw(draw, k, n)
    ensures |Below(draw, m)| <= k
    ensures n <= m ==> |Below(draw, m)| == k
  {
    SubsetCardinality(Below(draw, m), draw);
    if n <= m {
      assert Below(draw, m) == draw;
    }
  }

  /** A subset is no larger than its superset. */
  lemma SubsetCardinality<T>(a: set<T>, b: set<T>)
    requires a <= b
    ensures |a| <= |b|
  {
    assert b == a + (b - a);
  }

  /** Stepping the bound by one adds index `n` exactly when the draw holds it. */
  lemma BelowStep(draw: set<nat>, n: nat)
    ensures Below(draw, n + 1) == Below(draw, n) + (if n in draw then {n} else {})
  {
  }

  /** Sampled emission yields one line per drawn index that names a line. */
  lemma {:induction false} SelectLength(data: seq<string>, draw: set<nat>)
    ensures |Select(data, draw)| == |Below(draw, |data|)|
    decreases |data|
  {
    if |data| > 0 {
      var last := |data| - 1;
      SelectLength(data[..last], draw);
      BelowStep(draw, last);
    }
  }

  /**
   Sampled emission is the order-preserving subsequence of `data` at the
   drawn indices: its j-th line is the data line at the j-th smallest drawn
   index below `|data|`.
   */
  lemma {:induction false} SelectIsSubsequence(data: seq<string>, draw: set<nat>)
    ensures |Select(data, draw)| == |AscendingMembers(draw, |data|)|
    ensures forall j :: 0 <= j < |Select(data, draw)| ==>
      Select(data, draw)[j] == data[AscendingMembers(draw, |data|)[j]]
    decreases |data|
  {
    if |data| > 0 {
      var last := |data| - 1;
      SelectIsSubsequence(data[..last], draw);
      var p := AscendingMembers(draw, last);
      forall j | 0 <= j < |p|
        ensures data[..last][p[j]] == data[p[j]]
      {
        assert p[j] in p;
      }
    }
  }

  /** Sampled emission adds nothing of its own: every emitted line is a data line. */
  lemma {:induction false} SelectDrawsFromData(data: seq<string>, draw: set<nat>)
    ensures forall j :: 0 <= j < |Select(data, draw)| ==> Select(data, draw)[j] in data
  {
    SelectIsSubsequence(data, draw);
  }

  /** Indices at or beyond the end of the data never produce output. */
  lemma {:induction false} SelectIgnoresOutOfRange(data: seq<string>, draw: set<nat>)
    ensures Select(data, draw) == Select(data, Below(draw, |data|))
    decreases |data|
  {
    if |data| > 0 {
      var last := |data| - 1;
      SelectIgnoresOutOfRange(data[..last], draw);
      SelectIgnoresOutOfRange(data[..last], Below(draw, |data|));
      assert Below(Below(draw, |data|), last) == Below(draw, last);
    }
  }

  /** Lines past the last drawn index are never read into the output: a file
      longer than the population sampled from contributes only its first `m` lines. */
  lemma {:induction false} SelectPrefix(data: seq<string>, draw: set<nat>, m: nat)
    requires m <= |data|
    requires forall i :: i in draw ==> i < m
    ensures Select(data, draw) == Select(data[..m], draw)
    decreases |data|
  {
    if |data| > m {
      var last := |data| - 1;
      assert data[..last][..m] == data[..m];
      SelectPrefix(data[..last], draw, m);
    } else {
      assert data[..m] == data;
    }
  }

  /** A draw that covers every line index emits the whole file. */
  lemma {:induction false} SelectEverything(data: seq<string>, draw: set<nat>)
    requires forall i: nat :: i < |data| ==> i in draw
    ensures Select(data, draw) == data
    decreases |data|
  {
    if |data| > 0 {
      var last := |data| - 1;
      SelectEverything(data[..last], draw);
      assert data[..last] + [data[last]] == data;
    }
  }

  /** Drawing `n` indices out of `n` leaves no choice: the draw is all of `range(n)`. */
  lemma FullDrawIsRange(draw: set<nat>, n: nat)
    requires IsDraw(draw, n, n)
    ensures draw == Range(n)
  {
    var full := Range(n);
    assert draw <= full;
    if draw != full {
      var x :| x in full && x !in draw;
      SubsetCardinality(draw, full - {x});
    }
  }

  /** With `k == n` and a data file of exactly `n` lines, sampled emission is full emission. */
  lemma FullSampleIsEverything(data: seq<string>, draw: set<nat>, n: nat)
    requires IsDraw(draw, n, n)
    requires |data| == n
    ensures Select(data, draw) == data
  {
    FullDrawIsRange(draw, n);
    SelectEverything(data, draw);
  }

  /** A draw of zero indices emits nothing. */
  lemma {:induction false} EmptyDrawEmitsNothing(data: seq<string>)
    ensures Select(data, {}) == []
    decreases |data|
  {
    if |data| > 0 {
      EmptyDrawEmitsNothing(data[..|data| - 1]);
    }
  }
}
