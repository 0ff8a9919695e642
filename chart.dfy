/** The interval detector and the band selection that drive the chart fills:
    `find_continuous_ranges`, the index filters of the two fill builders, and
    the two detector runs of `create_chart`. */
module Chart {
  import opened Wrappers
  import opened Utils

  /** An inclusive, zero-based (start, end) pair of frame positions. */
  datatype IndexRange = IndexRange(first: nat, last: nat)

  /** Position i lies inside range r. */
  predicate Covers(r: IndexRange, i: int)
  {
    r.first <= i <= r.last
  }

  /** The elementwise `a < b` of two float columns; a comparison with NaN
      (None) is false, as in IEEE arithmetic. */
  predicate Less(a: Option<real>, b: Option<real>)
  {
    a.Some? && b.Some? && a.value < b.value
  }

  /** `mask = df[col1] < df[col2]`. */
  function Mask(col1: seq<Option<real>>, col2: seq<Option<real>>): (mask: seq<bool>)
    requires |col1| == |col2|
    ensures |mask| == |col1|
    ensures forall i :: 0 <= i < |mask| ==> (mask[i] <==> Less(col1[i], col2[i]))
  {
    seq(|col1|, i requires 0 <= i < |col1| => Less(col1[i], col2[i]))
  }

  /** Range r is a maximal run of true positions of `mask`: in bounds, true
      throughout, and not extendable by one position on either side. */
  predicate MaximalRun(mask: seq<bool>, r: IndexRange)
  {
    && r.first <= r.last < |mask|
    && (forall i :: r.first <= i <= r.last ==> mask[i])
    && (r.first == 0 || !mask[r.first - 1])
    && (r.last == |mask| - 1 || !mask[r.last + 1])
  }

  /** Ranges in strictly ascending order with at least one position between
      consecutive ones. */
  predicate Separated(rs: seq<IndexRange>)
  {
    forall k1, k2 :: 0 <= k1 < k2 < |rs| ==> rs[k1].last + 1 < rs[k2].first
  }

  /** What `find_continuous_ranges` returns for `mask`: maximal runs only,
      separated and ascending, covering every true position. */
  predicate IsRunList(mask: seq<bool>, rs: seq<IndexRange>)
  {
    && (forall k :: 0 <= k < |rs| ==> MaximalRun(mask, rs[k]))
    && Separated(rs)
    && (forall i :: 0 <= i < |mask| && mask[i] ==> exists k :: 0 <= k < |rs| && Covers(rs[k], i))
  }

  /** `find_continuous_ranges(df, col1, col2)`: one pass over the mask with an
      open-run start, closing a run at each true-to-false step and, after the
      loop, at the last position. */
  method FindContinuousRanges(col1: seq<Option<real>>, col2: seq<Option<real>>)
    returns (ranges: seq<IndexRange>)
    requires |col1| == |col2|
    ensures IsRunList(Mask(col1, col2), ranges)
    ensures ranges == [] <==> forall i :: 0 <= i < |col1| ==> !Less(col1[i], col2[i])
  {
    var mask := Mask(col1, col2);
    if true !in mask {
      return [];
    }
    ranges := [];
    var start: Option<nat> := None;
    for idx := 0 to |mask|
      invariant Scanned(mask, ranges, start, idx)
    {
      if mask[idx] && start.None? {
        ScanOpen(mask, ranges, idx);
        start := Some(idx);
      } else if !mask[idx] && start.Some? {
        ScanClose(mask, ranges, start.value, idx);
        ranges := ranges + [IndexRange(start.value, idx - 1)];
        start := None;
      } else {
        ScanKeep(mask, ranges, start, idx);
      }
    }
    ScanFinish(mask, ranges, start);
    if start.Some? {
      ranges := ranges + [IndexRange(start.value, |mask| - 1)];
    }
    NoRunsWithoutTruePositions(mask, ranges);
  }

  /** The state of the detector loop after positions 0 .. idx-1: the closed
      ranges are separated maximal runs that end before position idx-1; an
      open run starts after a false position, is true up to idx-1 and lies
      after every closed range; each true position seen so far is in a closed
      range or in the open run. */
  predicate Scanned(mask: seq<bool>, ranges: seq<IndexRange>, start: Option<nat>, idx: nat)
  {
    && idx <= |mask|
    && (forall k :: 0 <= k < |ranges| ==> MaximalRun(mask, ranges[k]) && ranges[k].last + 1 < idx)
    && Separated(ranges)
    && (start.None? ==> idx == 0 || !mask[idx - 1])
    && (start.Some? ==> start.value < idx && (start.value == 0 || !mask[start.value - 1]))
    && (start.Some? ==> forall j :: start.value <= j < idx ==> mask[j])
    && (start.Some? ==> forall k :: 0 <= k < |ranges| ==> ranges[k].last + 1 < start.value)
    && (forall j :: 0 <= j < idx && mask[j] ==>
          (exists k :: 0 <= k < |ranges| && Covers(ranges[k], j)) || (start.Some? && start.value <= j))
  }

  /** A true position with no open run opens one. */
  lemma ScanOpen(mask: seq<bool>, ranges: seq<IndexRange>, idx: nat)
    requires Scanned(mask, ranges, None, idx) && idx < |mask| && mask[idx]
    ensures Scanned(mask, ranges, Some(idx), idx + 1)
  {
  }

  /** A false position after an open run closes it at the position before. */
  lemma ScanClose(mask: seq<bool>, ranges: seq<IndexRange>, start: nat, idx: nat)
    requires Scanned(mask, ranges, Some(start), idx) && idx < |mask| && !mask[idx]
    ensures Scanned(mask, ranges + [IndexRange(start, idx - 1)], None, idx + 1)
  {
    AppendRun(mask, ranges, IndexRange(start, idx - 1), idx);
  }

  /** A position that neither opens nor closes a run leaves the state as it is. */
  lemma ScanKeep(mask: seq<bool>, ranges: seq<IndexRange>, start: Option<nat>, idx: nat)
    requires Scanned(mask, ranges, start, idx) && idx < |mask| && (mask[idx] <==> start.Some?)
    ensures Scanned(mask, ranges, start, idx + 1)
  {
  }

  /** After the last position, closing the open run (if any) at position n-1
      gives a run list. */
  lemma ScanFinish(mask: seq<bool>, ranges: seq<IndexRange>, start: Option<nat>)
    requires Scanned(mask, ranges, start, |mask|)
    ensures start.None? ==> IsRunList(mask, ranges)
    ensures start.Some? ==> IsRunList(mask, ranges + [IndexRange(start.value, |mask| - 1)])
  {
    if start.Some? {
      AppendRun(mask, ranges, IndexRange(start.value, |mask| - 1), |mask|);
    }
  }

  /** Appending a freshly closed maximal run that lies after every earlier range
      keeps the list separated and keeps every earlier position covered. */
  lemma AppendRun(mask: seq<bool>, ranges: seq<IndexRange>, r: IndexRange, upto: nat)
    requires upto <= |mask|
    requires forall k :: 0 <= k < |ranges| ==> MaximalRun(mask, ranges[k]) && ranges[k].last + 1 < r.first
    requires Separated(ranges)
    requires MaximalRun(mask, r) && r.last < upto
    requires forall j :: 0 <= j < r.first && mask[j] ==> exists k :: 0 <= k < |ranges| && Covers(ranges[k], j)
    ensures forall k :: 0 <= k < |ranges + [r]| ==> MaximalRun(mask, (ranges + [r])[k]) && (ranges + [r])[k].last < upto
    ensures Separated(ranges + [r])
    ensures forall j :: 0 <= j <= r.last && mask[j] ==>
      exists k :: 0 <= k < |ranges + [r]| && Covers((ranges + [r])[k], j)
  {
    var rs := ranges + [r];
    assert forall k :: 0 <= k < |ranges| ==> rs[k] == ranges[k];
    forall j | 0 <= j <= r.last && mask[j]
      ensures exists k :: 0 <= k < |rs| && Covers(rs[k], j)
    {
      if j < r.first {
        var k :| 0 <= k < |ranges| && Covers(ranges[k], j);
        assert Covers(rs[k], j);
      } else {
        assert Covers(rs[|ranges|], j);
      }
    }
  }

  // ------------------------------------------------------------ uniqueness

  /** Starts strictly ascend. */
  predicate Ascending(rs: seq<IndexRange>)
  {
    forall k1, k2 :: 0 <= k1 < k2 < |rs| ==> rs[k1].first < rs[k2].first
  }

  /** A run list holds exactly the maximal runs of the mask. */
  lemma RunListMembers(mask: seq<bool>, rs: seq<IndexRange>, r: IndexRange)
    requires IsRunList(mask, rs)
    ensures r in rs <==> MaximalRun(mask, r)
  {
    if MaximalRun(mask, r) {
      assert mask[r.first];
      var k :| 0 <= k < |rs| && Covers(rs[k], r.first);
      var q := rs[k];
      assert MaximalRun(mask, q);
      assert r.first == 0 || !mask[r.first - 1];
      assert q.first == 0 || !mask[q.first - 1];
      assert r.last == |mask| - 1 || !mask[r.last + 1];
      assert q.last == |mask| - 1 || !mask[q.last + 1];
      assert q == r;
    }
  }

  /** In an ascending list, the tail holds every member but the head. */
  lemma TailMembers(rs: seq<IndexRange>, r: IndexRange)
    requires Ascending(rs) && |rs| > 0
    ensures r in rs[1..] <==> r in rs && r != rs[0]
  {
  }

  /** Two ascending lists with the same members are equal. */
  lemma {:induction false} AscendingSameMembers(rs1: seq<IndexRange>, rs2: seq<IndexRange>)
    requires Ascending(rs1) && Ascending(rs2)
    requires forall r :: r in rs1 <==> r in rs2
    ensures rs1 == rs2
    decreases |rs1|
  {
    if |rs1| > 0 {
      assert rs1[0] in rs2;
    }
    if |rs2| > 0 {
      assert rs2[0] in rs1;
    }
    if |rs1| > 0 && |rs2| > 0 {
      var j :| 0 <= j < |rs2| && rs2[j] == rs1[0];
      var i :| 0 <= i < |rs1| && rs1[i] == rs2[0];
      assert rs1[0].first <= rs1[i].first;
      assert rs2[0].first <= rs2[j].first;
      assert rs1[0] == rs2[0];
      forall r ensures r in rs1[1..] <==> r in rs2[1..] {
        TailMembers(rs1, r);
        TailMembers(rs2, r);
      }
      AscendingSameMembers(rs1[1..], rs2[1..]);
      assert rs1 == [rs1[0]] + rs1[1..];
      assert rs2 == [rs2[0]] + rs2[1..];
    }
  }

  /** The contract of `find_continuous_ranges` fixes its result: a mask has
      exactly one run list. */
  lemma RunListUnique(mask: seq<bool>, rs1: seq<IndexRange>, rs2: seq<IndexRange>)
    requires IsRunList(mask, rs1) && IsRunList(mask, rs2)
    ensures rs1 == rs2
  {
    forall r ensures r in rs1 <==> r in rs2 {
      RunListMembers(mask, rs1, r);
      RunListMembers(mask, rs2, r);
    }
    AscendingSameMembers(rs1, rs2);
  }

  /** A run of true positions that reaches the last position is closed there:
      the last range ends at the last position. */
  lemma TrailingRunClosesAtEnd(mask: seq<bool>, rs: seq<IndexRange>)
    requires IsRunList(mask, rs)
    requires |mask| > 0 && mask[|mask| - 1]
    ensures |rs| > 0 && rs[|rs| - 1].last == |mask| - 1
  {
  }

  // --------------------------------------------------------------- examples

  /** The columns of the docstring example; their mask is T,T,T,F,T,T,F. */
  function ExampleA(): seq<Option<real>>
  {
    [Some(1.0), Some(2.0), Some(1.0), Some(4.0), Some(1.0), Some(1.0), Some(7.0)]
  }

  function ExampleB(): seq<Option<real>>
  {
    [Some(3.0), Some(3.0), Some(2.0), Some(3.0), Some(2.0), Some(2.0), Some(6.0)]
  }

  /** On the docstring example the code returns [(0, 2), (4, 5)], not the
      [(0, 1), (4, 5)] its docstring shows: position 2 has 1 < 2. */
  lemma DocstringExampleRanges(rs: seq<IndexRange>)
    requires IsRunList(Mask(ExampleA(), ExampleB()), rs)
    ensures rs == [IndexRange(0, 2), IndexRange(4, 5)]
    ensures rs != [IndexRange(0, 1), IndexRange(4, 5)]
  {
    var mask := Mask(ExampleA(), ExampleB());
    assert mask == [true, true, true, false, true, true, false];
    var expected := [IndexRange(0, 2), IndexRange(4, 5)];
    assert MaximalRun(mask, expected[0]);
    assert MaximalRun(mask, expected[1]);
    forall i | 0 <= i < |mask| && mask[i]
      ensures exists k :: 0 <= k < |expected| && Covers(expected[k], i)
    {
      if i <= 2 {
        assert Covers(expected[0], i);
      } else {
        assert Covers(expected[1], i);
      }
    }
    RunListUnique(mask, rs, expected);
  }

  /** A mask that is false everywhere has the empty run list. */
  lemma NoRunsWithoutTruePositions(mask: seq<bool>, rs: seq<IndexRange>)
    requires IsRunList(mask, rs)
    ensures rs == [] <==> forall i :: 0 <= i < |mask| ==> !mask[i]
  {
    if rs != [] {
      assert MaximalRun(mask, rs[0]);
      assert mask[rs[0].first];
    }
  }

  // --------------------------------------------------------- band selection

  function Max(a: int, b: int): int { if a < b then b else a }
  function Min(a: int, b: int): int { if a < b then a else b }

  /** `df[(df.index >= lo) & (df.index <= hi)]` over the default index
      0..n-1, restricted to positions from `from` on: the selected positions
      in index order. They are the contiguous positions from max(from, lo)
      to min(n-1, hi), so bounds outside the index select nothing extra. */
  function SelectPositions(n: nat, lo: int, hi: int, from: nat): (sel: seq<nat>)
    requires from <= n
    ensures |sel| == if Max(from, lo) <= Min(n - 1, hi) then Min(n - 1, hi) - Max(from, lo) + 1 else 0
    ensures forall k :: 0 <= k < |sel| ==> sel[k] == Max(from, lo) + k
    decreases n - from
  {
    if from == n then []
    else (if lo <= from <= hi then [from] else []) + SelectPositions(n, lo, hi, from + 1)
  }

  /** The rows `create_fill_for_negative_total_mining_cost` fills for range r:
      exactly the positions r.first .. r.last. */
  function NegativeBand(n: nat, r: IndexRange): (sel: seq<nat>)
    ensures forall k :: 0 <= k < |sel| ==> sel[k] < n && Covers(r, sel[k])
    ensures r.first <= r.last < n ==>
      |sel| == r.last - r.first + 1 && forall k :: 0 <= k < |sel| ==> sel[k] == r.first + k
  {
    SelectPositions(n, r.first, r.last, 0)
  }

  /** The rows `create_fill_for_positive_mining_cost` fills for range r: the
      range widened by one position on each side, clamped to 0 .. n-1. */
  function PositiveBand(n: nat, r: IndexRange): (sel: seq<nat>)
    ensures forall k :: 0 <= k < |sel| ==> sel[k] < n
    ensures r.first <= r.last < n ==>
      && |sel| == Min(n - 1, r.last + 1) - Max(0, r.first - 1) + 1
      && forall k :: 0 <= k < |sel| ==> sel[k] == Max(0, r.first - 1) + k
  {
    SelectPositions(n, r.first - 1, r.last + 1, 0)
  }

  /** The positive band is the negative band plus the neighbouring position on
      each side that exists. */
  lemma PositiveBandWidensNegative(n: nat, r: IndexRange)
    requires r.first <= r.last < n
    ensures PositiveBand(n, r) ==
      (if r.first > 0 then [r.first - 1] else []) + NegativeBand(n, r)
        + (if r.last + 1 < n then [r.last + 1] else [])
  {
  }

  // ------------------------------------------------------------ the chart

  /** The `btc_price` column of a frame. */
  function PriceColumn(frame: seq<DailyRecord>): (col: seq<Option<real>>)
    ensures |col| == |frame| && forall i :: 0 <= i < |frame| ==> col[i] == Some(frame[i].btcPrice)
  {
    seq(|frame|, i requires 0 <= i < |frame| => Some(frame[i].btcPrice))
  }

  /** The `total_mining_cost_in_usd` column of a frame (None where NaN). */
  function TotalCostColumn(frame: seq<DailyRecord>): (col: seq<Option<real>>)
    ensures |col| == |frame| && forall i :: 0 <= i < |frame| ==> col[i] == frame[i].totalMiningCost
  {
    seq(|frame|, i requires 0 <= i < |frame| => frame[i].totalMiningCost)
  }

  /** What `create_chart` hands to the renderer: the ranges where the price is
      below the total cost and their fill rows, and the ranges where the total
      cost is below the price and their (widened) fill rows. */
  datatype ChartFills = ChartFills(
    priceBelowCost: seq<IndexRange>, negativeBands: seq<seq<nat>>,
    costBelowPrice: seq<IndexRange>, positiveBands: seq<seq<nat>>)

  /** `create_chart`: the detector run twice with the operands swapped, and
      each range turned into the rows its fill covers. */
  method CreateChart(frame: seq<DailyRecord>) returns (fills: ChartFills)
    ensures IsRunList(Mask(PriceColumn(frame), TotalCostColumn(frame)), fills.priceBelowCost)
    ensures IsRunList(Mask(TotalCostColumn(frame), PriceColumn(frame)), fills.costBelowPrice)
    ensures forall k1, k2, i ::
      (0 <= k1 < |fills.priceBelowCost| && 0 <= k2 < |fills.costBelowPrice| && Covers(fills.priceBelowCost[k1], i))
      ==> !Covers(fills.costBelowPrice[k2], i)
    ensures |fills.negativeBands| == |fills.priceBelowCost|
    ensures forall k :: 0 <= k < |fills.negativeBands| ==>
      fills.negativeBands[k] == NegativeBand(|frame|, fills.priceBelowCost[k])
    ensures |fills.positiveBands| == |fills.costBelowPrice|
    ensures forall k :: 0 <= k < |fills.positiveBands| ==>
      fills.positiveBands[k] == PositiveBand(|frame|, fills.costBelowPrice[k])
  {
    var prices := PriceColumn(frame);
    var totals := TotalCostColumn(frame);
    var below := FindContinuousRanges(prices, totals);
    var negative := seq(|below|, k requires 0 <= k < |below| => NegativeBand(|frame|, below[k]));
    var above := FindContinuousRanges(totals, prices);
    var positive := seq(|above|, k requires 0 <= k < |above| => PositiveBand(|frame|, above[k]));
    SwappedRangesDisjoint(prices, totals, below, above);
    fills := ChartFills(below, negative, above, positive);
  }

  /** Both comparisons are strict, so a position never lies in a range of
      both detector runs. */
  lemma SwappedRangesDisjoint(a: seq<Option<real>>, b: seq<Option<real>>, rs1: seq<IndexRange>, rs2: seq<IndexRange>)
    requires |a| == |b|
    requires IsRunList(Mask(a, b), rs1) && IsRunList(Mask(b, a), rs2)
    ensures forall k1, k2, i :: 0 <= k1 < |rs1| && 0 <= k2 < |rs2| && Covers(rs1[k1], i) ==> !Covers(rs2[k2], i)
  {
    forall k1, k2, i | 0 <= k1 < |rs1| && 0 <= k2 < |rs2| && Covers(rs1[k1], i)
      ensures !Covers(rs2[k2], i)
    {
      assert MaximalRun(Mask(a, b), rs1[k1]);
      assert MaximalRun(Mask(b, a), rs2[k2]);
      assert Mask(a, b)[i];
      assert Mask(b, a)[i] == Less(b[i], a[i]);
    }
  }

  /** On a smoothed frame the first six total costs are NaN, so no range of
      either detector run touches the first six rows. */
  lemma WarmupRowsNeverFilled(frame: seq<DailyRecord>, rs: seq<IndexRange>, priceFirst: bool)
    requires forall i :: 0 <= i < |frame| && i < Window - 1 ==> frame[i].totalMiningCost.None?
    requires priceFirst ==> IsRunList(Mask(PriceColumn(frame), TotalCostColumn(frame)), rs)
    requires !priceFirst ==> IsRunList(Mask(TotalCostColumn(frame), PriceColumn(frame)), rs)
    ensures forall k :: 0 <= k < |rs| ==> rs[k].first >= Window - 1
  {
    forall k | 0 <= k < |rs| ensures rs[k].first >= Window - 1 {
      var i := rs[k].first;
      if priceFirst {
        assert MaximalRun(Mask(PriceColumn(frame), TotalCostColumn(frame)), rs[k]);
        assert Mask(PriceColumn(frame), TotalCostColumn(frame))[i];
      } else {
        assert MaximalRun(Mask(TotalCostColumn(frame), PriceColumn(frame)), rs[k]);
        assert Mask(TotalCostColumn(frame), PriceColumn(frame))[i];
      }
      assert frame[i].totalMiningCost.Some?;
    }
  }
}
