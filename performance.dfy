/**
 * The journal statistics of src/lib/calculator.ts: `calculatePerformanceStats`
 * (win rate, profit factor, expectancy, drawdown, streaks, long/short
 * totals) and `calculateSymbolPerformance`.
 */
module Performance {
  import opened Common
  import opened Types
  import Calculator

  // ---------------------------------------------------------------------
  // Selecting and ordering the trades
  // ---------------------------------------------------------------------

  /** A closed trade with a realized P/L: the only trades the statistics use. */
  predicate IsValidTrade(t: JournalEntry)
  {
    (t.status == Won || t.status == Lost) && t.realizedPnl.Some?
  }

  /** `journalData.filter(...)`: the valid trades, in journal order. */
  function ValidTrades(journal: seq<JournalEntry>): (vs: seq<JournalEntry>)
    ensures forall t :: t in vs ==> IsValidTrade(t)
    ensures forall t :: t in journal && IsValidTrade(t) ==> t in vs
    ensures forall t :: t in vs ==> t in journal
    ensures vs == [] <==> forall t :: t in journal ==> !IsValidTrade(t)
  {
    if journal == [] then []
    else
      var init := journal[..|journal| - 1];
      var t := journal[|journal| - 1];
      assert forall u :: u in journal ==> u in init || u == t;
      if IsValidTrade(t) then ValidTrades(init) + [t] else ValidTrades(init)
  }

  /** Trades ordered by the timestamp of their date; `timeOf` stands for `new Date(date).getTime()`. */
  predicate SortedByTime(ts: seq<JournalEntry>, timeOf: string -> int)
  {
    forall i, j :: 0 <= i < j < |ts| ==> timeOf(ts[i].date) <= timeOf(ts[j].date)
  }

  /** Inserts `t` after every trade whose time is not later than its own, which keeps the sort stable. */
  function InsertByTime(t: JournalEntry, sorted: seq<JournalEntry>, timeOf: string -> int): (r: seq<JournalEntry>)
    ensures multiset(r) == multiset(sorted) + multiset{t}
  {
    if sorted == [] then [t]
    else if timeOf(t.date) < timeOf(sorted[0].date) then [t] + sorted
    else
      assert sorted == [sorted[0]] + sorted[1..];
      [sorted[0]] + InsertByTime(t, sorted[1..], timeOf)
  }

  /** Inserting keeps every time at or above a bound that the trade and the sequence respect. */
  lemma {:induction false} InsertLowerBound(t: JournalEntry, s: seq<JournalEntry>, timeOf: string -> int, lo: int)
    requires forall k :: 0 <= k < |s| ==> lo <= timeOf(s[k].date)
    requires lo <= timeOf(t.date)
    ensures forall k :: 0 <= k < |InsertByTime(t, s, timeOf)| ==> lo <= timeOf(InsertByTime(t, s, timeOf)[k].date)
  {
    if s != [] && timeOf(t.date) >= timeOf(s[0].date) {
      InsertLowerBound(t, s[1..], timeOf, lo);
    }
  }

  lemma {:induction false} InsertKeepsSorted(t: JournalEntry, sorted: seq<JournalEntry>, timeOf: string -> int)
    requires SortedByTime(sorted, timeOf)
    ensures SortedByTime(InsertByTime(t, sorted, timeOf), timeOf)
  {
    if sorted != [] && timeOf(t.date) >= timeOf(sorted[0].date) {
      var tail := sorted[1..];
      var rest := InsertByTime(t, tail, timeOf);
      InsertKeepsSorted(t, tail, timeOf);
      InsertLowerBound(t, tail, timeOf, timeOf(sorted[0].date));
      SortedCons(sorted[0], rest, timeOf);
    }
  }

  /** A trade no later than every trade of a sorted sequence can go in front of it. */
  lemma SortedCons(x: JournalEntry, rest: seq<JournalEntry>, timeOf: string -> int)
    requires SortedByTime(rest, timeOf)
    requires forall k :: 0 <= k < |rest| ==> timeOf(x.date) <= timeOf(rest[k].date)
    ensures SortedByTime([x] + rest, timeOf)
  {
    var r := [x] + rest;
    forall i, j | 0 <= i < j < |r|
      ensures timeOf(r[i].date) <= timeOf(r[j].date)
    {
      assert r[j] == rest[j - 1];
      if i > 0 {
        assert r[i] == rest[i - 1];
      }
    }
  }

  /** `[...validTrades].sort(byDate)`: a stable sort on the trade timestamps. */
  function SortByTime(ts: seq<JournalEntry>, timeOf: string -> int): (r: seq<JournalEntry>)
    ensures multiset(r) == multiset(ts)
  {
    if ts == [] then []
    else
      var init := ts[..|ts| - 1];
      assert ts == init + [ts[|ts| - 1]];
      InsertByTime(ts[|ts| - 1], SortByTime(init, timeOf), timeOf)
  }

  /** The sort orders the trades by time. */
  lemma {:induction false} SortByTimeSorted(ts: seq<JournalEntry>, timeOf: string -> int)
    ensures SortedByTime(SortByTime(ts, timeOf), timeOf)
  {
    if ts != [] {
      SortByTimeSorted(ts[..|ts| - 1], timeOf);
      InsertKeepsSorted(ts[|ts| - 1], SortByTime(ts[..|ts| - 1], timeOf), timeOf);
    }
  }

  /** The realized P/L of a trade (0 where there is none, which the valid trades never lack). */
  function PnlOf(t: JournalEntry): real
  {
    if t.realizedPnl.Some? then t.realizedPnl.value else 0.0
  }

  /** `tradesWithPnl`: the realized P/L of each trade, in order. */
  function Pnls(ts: seq<JournalEntry>): (ps: seq<real>)
    ensures |ps| == |ts|
    ensures forall i :: 0 <= i < |ts| ==> ps[i] == PnlOf(ts[i])
  {
    if ts == [] then [] else Pnls(ts[..|ts| - 1]) + [PnlOf(ts[|ts| - 1])]
  }

  // ---------------------------------------------------------------------
  // Wins and losses
  // ---------------------------------------------------------------------

  /** A trade's outcome by the sign of its P/L. */
  datatype Outcome = Win | Loss | BreakEven

  function OutcomeOf(x: real): Outcome
  {
    if x > 0.0 then Win else if x < 0.0 then Loss else BreakEven
  }

  /** Number of trades with outcome `o`. */
  function CountOutcome(ps: seq<real>, o: Outcome): (n: nat)
    ensures n <= |ps|
  {
    if ps == [] then 0
    else CountOutcome(ps[..|ps| - 1], o) + if OutcomeOf(ps[|ps| - 1]) == o then 1 else 0
  }

  /** `totalProfit`: the sum of the winning P/Ls. */
  function TotalProfit(ps: seq<real>): real
  {
    if ps == [] then 0.0
    else TotalProfit(ps[..|ps| - 1]) + if ps[|ps| - 1] > 0.0 then ps[|ps| - 1] else 0.0
  }

  /** `totalLoss`: the sum of the absolute losing P/Ls. */
  function TotalLoss(ps: seq<real>): real
  {
    if ps == [] then 0.0
    else TotalLoss(ps[..|ps| - 1]) + if ps[|ps| - 1] < 0.0 then -ps[|ps| - 1] else 0.0
  }

  /** Profits and losses together make up the net P/L: `totalProfit - totalLoss == Σ pnl`. */
  lemma {:induction false} ProfitMinusLossIsNet(ps: seq<real>)
    ensures TotalProfit(ps) - TotalLoss(ps) == Sum(ps)
    ensures TotalProfit(ps) >= 0.0 && TotalLoss(ps) >= 0.0
  {
    if ps != [] {
      ProfitMinusLossIsNet(ps[..|ps| - 1]);
    }
  }

  /** There is a positive total loss exactly when some trade lost, and a positive total profit when some trade won. */
  lemma {:induction false} TotalsPositiveIffCounted(ps: seq<real>)
    ensures TotalLoss(ps) > 0.0 <==> CountOutcome(ps, Loss) > 0
    ensures TotalProfit(ps) > 0.0 <==> CountOutcome(ps, Win) > 0
  {
    if ps != [] {
      TotalsPositiveIffCounted(ps[..|ps| - 1]);
      ProfitMinusLossIsNet(ps[..|ps| - 1]);
    }
  }

  /** `Decimal.max(0, ...wins)`: the largest winning P/L, 0 without wins. */
  function LargestProfit(ps: seq<real>): real
  {
    if ps == [] then 0.0
    else Max(LargestProfit(ps[..|ps| - 1]), if ps[|ps| - 1] > 0.0 then ps[|ps| - 1] else 0.0)
  }

  /** `Decimal.max(0, ...|losses|)`: the largest absolute losing P/L, 0 without losses. */
  function LargestLoss(ps: seq<real>): real
  {
    if ps == [] then 0.0
    else Max(LargestLoss(ps[..|ps| - 1]), if ps[|ps| - 1] < 0.0 then -ps[|ps| - 1] else 0.0)
  }

  /** The largest profit bounds every win and is either 0 or one of them; likewise the largest loss. */
  lemma {:induction false} LargestAreMaxima(ps: seq<real>)
    ensures forall i :: 0 <= i < |ps| && ps[i] > 0.0 ==> ps[i] <= LargestProfit(ps)
    ensures forall i :: 0 <= i < |ps| && ps[i] < 0.0 ==> -ps[i] <= LargestLoss(ps)
    ensures LargestProfit(ps) == 0.0 || exists i :: 0 <= i < |ps| && ps[i] == LargestProfit(ps)
    ensures LargestLoss(ps) == 0.0 || exists i :: 0 <= i < |ps| && -ps[i] == LargestLoss(ps)
  {
    if ps != [] {
      var init := ps[..|ps| - 1];
      LargestAreMaxima(init);
      assert forall i :: 0 <= i < |init| ==> init[i] == ps[i];
      if LargestProfit(ps) != 0.0 && LargestProfit(ps) != ps[|ps| - 1] {
        var i :| 0 <= i < |init| && init[i] == LargestProfit(init);
        assert ps[i] == LargestProfit(ps);
      }
      if LargestLoss(ps) != 0.0 && LargestLoss(ps) != -ps[|ps| - 1] {
        var i :| 0 <= i < |init| && -init[i] == LargestLoss(init);
        assert -ps[i] == LargestLoss(ps);
      }
    }
  }

  // ---------------------------------------------------------------------
  // R multiples
  // ---------------------------------------------------------------------

  /** The trades the R-multiple average counts: those with a positive planned risk. */
  function RMultipleSum(ts: seq<JournalEntry>): real
  {
    if ts == [] then 0.0
    else
      var t := ts[|ts| - 1];
      RMultipleSum(ts[..|ts| - 1]) + if t.riskAmount > 0.0 then PnlOf(t) / t.riskAmount else 0.0
  }

  function RMultipleCount(ts: seq<JournalEntry>): (n: nat)
    ensures n <= |ts|
  {
    if ts == [] then 0
    else RMultipleCount(ts[..|ts| - 1]) + if ts[|ts| - 1].riskAmount > 0.0 then 1 else 0
  }

  /** The R-multiple loop: sums `pnl / riskAmount` over the trades with a positive risk amount. */
  method SumRMultiples(trades: seq<JournalEntry>) returns (totalRMultiples: real, tradesWithRisk: nat)
    ensures totalRMultiples == RMultipleSum(trades)
    ensures tradesWithRisk == RMultipleCount(trades)
  {
    totalRMultiples, tradesWithRisk := 0.0, 0;
    var i := 0;
    while i < |trades|
      invariant 0 <= i <= |trades|
      invariant totalRMultiples == RMultipleSum(trades[..i])
      invariant tradesWithRisk == RMultipleCount(trades[..i])
    {
      var trade := trades[i];
      assert trades[..i + 1][..i] == trades[..i];
      if trade.riskAmount > 0.0 {
        totalRMultiples := totalRMultiples + PnlOf(trade) / trade.riskAmount;
        tradesWithRisk := tradesWithRisk + 1;
      }
      i := i + 1;
    }
    assert trades[..|trades|] == trades;
  }

  /**
   * When every trade with a planned risk realized exactly `k` times that
   * risk, the R multiples add up to `k` per counted trade.
   */
  lemma {:induction false} UniformRMultiple(ts: seq<JournalEntry>, k: real)
    requires forall i :: 0 <= i < |ts| && ts[i].riskAmount > 0.0 ==> PnlOf(ts[i]) == k * ts[i].riskAmount
    ensures RMultipleSum(ts) == k * (RMultipleCount(ts) as real)
  {
    if ts != [] {
      var init := ts[..|ts| - 1];
      var t := ts[|ts| - 1];
      assert forall i :: 0 <= i < |init| ==> init[i] == ts[i];
      UniformRMultiple(init, k);
      if t.riskAmount > 0.0 {
        Calculator.MulDiv(k, t.riskAmount);
        assert PnlOf(t) / t.riskAmount == k;
        MulSucc(k, RMultipleCount(init));
      }
    }
  }

  /** `k` times one more is `k` more. */
  lemma MulSucc(k: real, n: nat)
    ensures k * ((n + 1) as real) == k * (n as real) + k
  {
  }

  // ---------------------------------------------------------------------
  // Drawdown
  // ---------------------------------------------------------------------

  /** The equity after the first `k` trades. */
  function Cum(ps: seq<real>, k: nat): real
    requires k <= |ps|
  {
    if k == 0 then 0.0 else Cum(ps, k - 1) + ps[k - 1]
  }

  /** The equity after all trades is the net P/L. */
  lemma {:induction false} CumIsSum(ps: seq<real>, k: nat)
    requires k <= |ps|
    ensures Cum(ps, k) == Sum(ps[..k])
  {
    if k > 0 {
      CumIsSum(ps, k - 1);
      assert ps[..k][..k - 1] == ps[..k - 1];
    }
  }

  /**
   * `dd` is the maximum drawdown of the equity curve that starts at 0: the
   * largest fall from an earlier (or equal) point to a later one.
   */
  predicate IsMaxDrawdown(ps: seq<real>, dd: real)
  {
    && (forall a, b :: 0 <= a <= b <= |ps| ==> Cum(ps, a) - Cum(ps, b) <= dd)
    && (exists a, b :: 0 <= a <= b <= |ps| && Cum(ps, a) - Cum(ps, b) == dd)
  }

  /**
   * The state of the drawdown loop after `i` trades: `peak` is the highest
   * equity so far (reached after `peakAt` trades) and `dd` the deepest fall
   * so far, from the equity after `ddFrom` trades to that after `ddTo`.
   */
  predicate DrawdownSoFar(ps: seq<real>, i: nat, peak: real, peakAt: nat, dd: real, ddFrom: nat, ddTo: nat)
    requires i <= |ps|
  {
    && peakAt <= i && peak == Cum(ps, peakAt)
    && (forall a :: 0 <= a <= i ==> Cum(ps, a) <= peak)
    && ddFrom <= ddTo <= i && dd == Cum(ps, ddFrom) - Cum(ps, ddTo)
    && (forall a, b :: 0 <= a <= b <= i ==> Cum(ps, a) - Cum(ps, b) <= dd)
  }

  /** One step of the drawdown loop: a new peak, then a possibly deeper fall below it. */
  lemma DrawdownAdvance(ps: seq<real>, i: nat, peak: real, peakAt: nat, dd: real, ddFrom: nat, ddTo: nat,
                        peak': real, peakAt': nat, dd': real, ddFrom': nat, ddTo': nat)
    requires i < |ps|
    requires DrawdownSoFar(ps, i, peak, peakAt, dd, ddFrom, ddTo)
    requires if Cum(ps, i + 1) > peak then peak' == Cum(ps, i + 1) && peakAt' == i + 1
             else peak' == peak && peakAt' == peakAt
    requires if peak' - Cum(ps, i + 1) > dd then dd' == peak' - Cum(ps, i + 1) && ddFrom' == peakAt' && ddTo' == i + 1
             else dd' == dd && ddFrom' == ddFrom && ddTo' == ddTo
    ensures DrawdownSoFar(ps, i + 1, peak', peakAt', dd', ddFrom', ddTo')
  {
    PeakAdvance(ps, i, peak, peak');
    DeepestAdvance(ps, i, peak', dd, dd');
    assert peakAt' <= i + 1 && peak' == Cum(ps, peakAt');
    assert ddFrom' <= ddTo' <= i + 1 && dd' == Cum(ps, ddFrom') - Cum(ps, ddTo');
  }

  /** The running peak after one more trade is still the highest equity so far. */
  lemma PeakAdvance(ps: seq<real>, i: nat, peak: real, peak': real)
    requires i < |ps|
    requires forall a :: 0 <= a <= i ==> Cum(ps, a) <= peak
    requires peak' == if Cum(ps, i + 1) > peak then Cum(ps, i + 1) else peak
    ensures forall a :: 0 <= a <= i + 1 ==> Cum(ps, a) <= peak'
  {
  }

  /** The deepest fall after one more trade bounds every fall so far, the new one included. */
  lemma DeepestAdvance(ps: seq<real>, i: nat, peak': real, dd: real, dd': real)
    requires i < |ps|
    requires forall a :: 0 <= a <= i + 1 ==> Cum(ps, a) <= peak'
    requires forall a, b :: 0 <= a <= b <= i ==> Cum(ps, a) - Cum(ps, b) <= dd
    requires dd' == if peak' - Cum(ps, i + 1) > dd then peak' - Cum(ps, i + 1) else dd
    ensures forall a, b :: 0 <= a <= b <= i + 1 ==> Cum(ps, a) - Cum(ps, b) <= dd'
  {
    forall a, b | 0 <= a <= b <= i + 1
      ensures Cum(ps, a) - Cum(ps, b) <= dd'
    {
      if b == i + 1 {
        assert Cum(ps, a) <= peak';
      }
    }
  }

  /** The drawdown loop: tracks equity, its running peak and the deepest fall below the peak. */
  method MaxDrawdown(ps: seq<real>) returns (cumulativeProfit: real, maxDrawdown: real)
    ensures cumulativeProfit == Sum(ps)
    ensures IsMaxDrawdown(ps, maxDrawdown)
  {
    cumulativeProfit := 0.0;
    var peakEquity := 0.0;
    maxDrawdown := 0.0;
    ghost var peakAt: nat := 0;
    ghost var ddFrom: nat, ddTo: nat := 0, 0;
    var i := 0;
    while i < |ps|
      invariant 0 <= i <= |ps|
      invariant cumulativeProfit == Cum(ps, i)
      invariant DrawdownSoFar(ps, i, peakEquity, peakAt, maxDrawdown, ddFrom, ddTo)
    {
      ghost var peak0, peakAt0, dd0, ddFrom0, ddTo0 := peakEquity, peakAt, maxDrawdown, ddFrom, ddTo;
      cumulativeProfit := cumulativeProfit + ps[i];
      if cumulativeProfit > peakEquity {
        peakEquity := cumulativeProfit;
        peakAt := i + 1;
      }
      var drawdown := peakEquity - cumulativeProfit;
      if drawdown > maxDrawdown {
        maxDrawdown := drawdown;
        ddFrom, ddTo := peakAt, i + 1;
      }
      DrawdownAdvance(ps, i, peak0, peakAt0, dd0, ddFrom0, ddTo0, peakEquity, peakAt, maxDrawdown, ddFrom, ddTo);
      i := i + 1;
    }
    CumIsSum(ps, |ps|);
    assert ps[..|ps|] == ps;
  }

  /** The maximum drawdown is never negative, and it is 0 when no trade lost. */
  lemma MaxDrawdownFacts(ps: seq<real>, dd: real)
    requires IsMaxDrawdown(ps, dd)
    ensures dd >= 0.0
    ensures (forall i :: 0 <= i < |ps| ==> ps[i] >= 0.0) ==> dd == 0.0
  {
    assert Cum(ps, 0) - Cum(ps, 0) <= dd;
    if forall i :: 0 <= i < |ps| ==> ps[i] >= 0.0 {
      var a, b :| 0 <= a <= b <= |ps| && Cum(ps, a) - Cum(ps, b) == dd;
      CumMonotone(ps, a, b);
    }
  }

  lemma {:induction false} CumMonotone(ps: seq<real>, a: nat, b: nat)
    requires a <= b <= |ps|
    requires forall i :: 0 <= i < |ps| ==> ps[i] >= 0.0
    ensures Cum(ps, a) <= Cum(ps, b)
    decreases b - a
  {
    if a < b {
      CumMonotone(ps, a, b - 1);
    }
  }

  // ---------------------------------------------------------------------
  // Streaks
  // ---------------------------------------------------------------------

  /** The number of trades at the end of `ps` that all have outcome `o`. */
  function TrailingRun(ps: seq<real>, o: Outcome): (n: nat)
    ensures n <= |ps|
  {
    if ps == [] || OutcomeOf(ps[|ps| - 1]) != o then 0 else TrailingRun(ps[..|ps| - 1], o) + 1
  }

  /** A prefix ending in a result of outcome `o` has one more trailing result of `o` than the prefix before it. */
  lemma TrailingRunStep(ps: seq<real>, i: int, o: Outcome)
    requires 0 <= i < |ps| && OutcomeOf(ps[i]) == o
    ensures TrailingRun(ps[..i + 1], o) == TrailingRun(ps[..i], o) + 1
  {
    assert ps[..i + 1][..i] == ps[..i];
  }

  /** The longest trailing run over all prefixes: what the streak loop keeps as its maximum. */
  function LongestRun(ps: seq<real>, o: Outcome): nat
  {
    if ps == [] then 0 else
      var prev := LongestRun(ps[..|ps| - 1], o);
      var cur := TrailingRun(ps, o);
      if cur > prev then cur else prev
  }

  predicate AllOutcome(s: seq<real>, o: Outcome)
  {
    forall k :: 0 <= k < |s| ==> OutcomeOf(s[k]) == o
  }

  /** The trailing run is a block of outcome `o`, and no longer block of `o` ends at the end of `ps`. */
  lemma {:induction false} TrailingRunIsMaximal(ps: seq<real>, o: Outcome)
    ensures AllOutcome(ps[|ps| - TrailingRun(ps, o)..], o)
    ensures forall lo :: 0 <= lo <= |ps| && AllOutcome(ps[lo..], o) ==> |ps| - lo <= TrailingRun(ps, o)
  {
    if ps != [] {
      var init := ps[..|ps| - 1];
      TrailingRunIsMaximal(init, o);
      if OutcomeOf(ps[|ps| - 1]) == o {
        var n := TrailingRun(init, o);
        assert ps[|ps| - TrailingRun(ps, o)..] == init[|init| - n..] + [ps[|ps| - 1]];
        forall lo | 0 <= lo <= |ps| && AllOutcome(ps[lo..], o)
          ensures |ps| - lo <= TrailingRun(ps, o)
        {
          if lo < |ps| {
            assert forall k :: 0 <= k < |init[lo..]| ==> init[lo..][k] == ps[lo..][k];
          }
        }
      } else {
        forall lo | 0 <= lo <= |ps| && AllOutcome(ps[lo..], o)
          ensures |ps| - lo <= 0
        {
          if lo < |ps| {
            assert ps[lo..][|ps| - 1 - lo] == ps[|ps| - 1];
          }
        }
      }
    }
  }

  /**
   * The longest streak of outcome `o` is the length of the longest block
   * of consecutive trades that all have outcome `o`.
   */
  lemma LongestRunIsLongestBlock(ps: seq<real>, o: Outcome)
    ensures forall lo, hi :: 0 <= lo <= hi <= |ps| && AllOutcome(ps[lo..hi], o) ==> hi - lo <= LongestRun(ps, o)
    ensures exists lo, hi :: 0 <= lo <= hi <= |ps| && hi - lo == LongestRun(ps, o) && AllOutcome(ps[lo..hi], o)
  {
    LongestRunBoundsBlocks(ps, o);
    LongestRunIsBlock(ps, o);
  }

  /** No block of outcome `o` is longer than the longest streak. */
  lemma {:induction false} LongestRunBoundsBlocks(ps: seq<real>, o: Outcome)
    ensures forall lo, hi :: 0 <= lo <= hi <= |ps| && AllOutcome(ps[lo..hi], o) ==> hi - lo <= LongestRun(ps, o)
  {
    if ps != [] {
      var init := ps[..|ps| - 1];
      LongestRunBoundsBlocks(init, o);
      TrailingRunIsMaximal(ps, o);
      forall lo, hi | 0 <= lo <= hi <= |ps| && AllOutcome(ps[lo..hi], o)
        ensures hi - lo <= LongestRun(ps, o)
      {
        if hi == |ps| {
          assert ps[lo..hi] == ps[lo..];
        } else {
          assert ps[lo..hi] == init[lo..hi];
        }
      }
    }
  }

  /** The longest streak is the length of some block of outcome `o`. */
  lemma {:induction false} LongestRunIsBlock(ps: seq<real>, o: Outcome)
    ensures exists lo, hi :: 0 <= lo <= hi <= |ps| && hi - lo == LongestRun(ps, o) && AllOutcome(ps[lo..hi], o)
  {
    if ps == [] {
      assert AllOutcome(ps[0..0], o);
      assert 0 - 0 == LongestRun(ps, o);
    } else {
      var init := ps[..|ps| - 1];
      LongestRunIsBlock(init, o);
      var n := LongestRun(ps, o);
      if TrailingRun(ps, o) > LongestRun(init, o) {
        TrailingRunIsMaximal(ps, o);
        assert ps[|ps| - n..|ps|] == ps[|ps| - TrailingRun(ps, o)..];
      } else {
        var lo, hi :| 0 <= lo <= hi <= |init| && hi - lo == n && AllOutcome(init[lo..hi], o);
        assert ps[lo..hi] == init[lo..hi];
      }
    }
  }

  /** The streak loop: the longest winning and the longest losing streak. */
  method LongestStreaks(ps: seq<real>) returns (longestWinningStreak: nat, longestLosingStreak: nat)
    ensures longestWinningStreak == LongestRun(ps, Win)
    ensures longestLosingStreak == LongestRun(ps, Loss)
  {
    longestWinningStreak, longestLosingStreak := 0, 0;
    var currentWinningStreak, currentLosingStreak := 0, 0;
    var i := 0;
    while i < |ps|
      invariant 0 <= i <= |ps|
      invariant currentWinningStreak == TrailingRun(ps[..i], Win)
      invariant currentLosingStreak == TrailingRun(ps[..i], Loss)
      invariant longestWinningStreak == LongestRun(ps[..i], Win)
      invariant longestLosingStreak == LongestRun(ps[..i], Loss)
    {
      assert ps[..i + 1][..i] == ps[..i];
      if ps[i] > 0.0 {
        currentWinningStreak := currentWinningStreak + 1;
        currentLosingStreak := 0;
      } else if ps[i] < 0.0 {
        currentLosingStreak := currentLosingStreak + 1;
        currentWinningStreak := 0;
      } else {
        currentWinningStreak := 0;
        currentLosingStreak := 0;
      }
      if currentWinningStreak > longestWinningStreak {
        longestWinningStreak := currentWinningStreak;
      }
      if currentLosingStreak > longestLosingStreak {
        longestLosingStreak := currentLosingStreak;
      }
      i := i + 1;
    }
    assert ps[..|ps|] == ps;
  }

  /** `currentStreakText`: `W<n>`, `L<n>` or `B/E <n>`. */
  function StreakText(o: Outcome, n: nat): string
  {
    match o
    case Win => "W" + NatToString(n)
    case Loss => "L" + NatToString(n)
    case BreakEven => "B/E " + NatToString(n)
  }

  /** The backward loops counting the streak the last trade belongs to. */
  method CurrentStreakText(ps: seq<real>) returns (text: string)
    ensures |ps| == 0 ==> text == "N/A"
    ensures |ps| > 0 ==> text == StreakText(OutcomeOf(ps[|ps| - 1]), TrailingRun(ps, OutcomeOf(ps[|ps| - 1])))
  {
    if |ps| == 0 {
      return "N/A";
    }
    var o := OutcomeOf(ps[|ps| - 1]);
    var currentStreak := 0;
    var i := |ps| - 1;
    assert ps[..i + 1] == ps;
    while i >= 0 && OutcomeOf(ps[i]) == o
      invariant -1 <= i < |ps|
      invariant currentStreak == |ps| - 1 - i
      invariant TrailingRun(ps, o) == currentStreak + TrailingRun(ps[..i + 1], o)
    {
      TrailingRunStep(ps, i, o);
      currentStreak := currentStreak + 1;
      i := i - 1;
    }
    text := StreakText(o, currentStreak);
  }

  /** The trade just before the trailing run of `o` does not have outcome `o`. */
  lemma {:induction false} TrailingRunStops(ps: seq<real>, o: Outcome)
    ensures TrailingRun(ps, o) < |ps| ==> OutcomeOf(ps[|ps| - TrailingRun(ps, o) - 1]) != o
  {
    if ps != [] && OutcomeOf(ps[|ps| - 1]) == o {
      var init := ps[..|ps| - 1];
      TrailingRunStops(init, o);
      var n := TrailingRun(init, o);
      if n < |init| {
        assert ps[|ps| - TrailingRun(ps, o) - 1] == init[|init| - n - 1];
      }
    }
  }

  /** The current streak counts at least the last trade, and the trade before it has another outcome. */
  lemma CurrentStreakBounds(ps: seq<real>)
    requires |ps| > 0
    ensures var o := OutcomeOf(ps[|ps| - 1]);
      var n := TrailingRun(ps, o);
      && 1 <= n <= |ps|
      && AllOutcome(ps[|ps| - n..], o)
      && (n < |ps| ==> OutcomeOf(ps[|ps| - n - 1]) != o)
  {
    var o := OutcomeOf(ps[|ps| - 1]);
    TrailingRunIsMaximal(ps, o);
    TrailingRunStops(ps, o);
  }

  // ---------------------------------------------------------------------
  // Long and short totals
  // ---------------------------------------------------------------------

  /** The split `profit` / `loss` of one direction: a P/L that is not positive counts as a loss. */
  function DirectionProfit(ts: seq<JournalEntry>, long: bool): real
  {
    if ts == [] then 0.0
    else
      var t := ts[|ts| - 1];
      DirectionProfit(ts[..|ts| - 1], long) + if (t.tradeType == Long) == long && PnlOf(t) > 0.0 then PnlOf(t) else 0.0
  }

  function DirectionLoss(ts: seq<JournalEntry>, long: bool): real
  {
    if ts == [] then 0.0
    else
      var t := ts[|ts| - 1];
      DirectionLoss(ts[..|ts| - 1], long) + if (t.tradeType == Long) == long && PnlOf(t) <= 0.0 then Abs(PnlOf(t)) else 0.0
  }

  /** The long/short loop: every trade that is not long counts as short. */
  method DirectionTotals(trades: seq<JournalEntry>)
    returns (totalProfitLong: real, totalLossLong: real, totalProfitShort: real, totalLossShort: real)
    ensures totalProfitLong == DirectionProfit(trades, true) && totalLossLong == DirectionLoss(trades, true)
    ensures totalProfitShort == DirectionProfit(trades, false) && totalLossShort == DirectionLoss(trades, false)
  {
    totalProfitLong, totalLossLong, totalProfitShort, totalLossShort := 0.0, 0.0, 0.0, 0.0;
    var i := 0;
    while i < |trades|
      invariant 0 <= i <= |trades|
      invariant totalProfitLong == DirectionProfit(trades[..i], true) && totalLossLong == DirectionLoss(trades[..i], true)
      invariant totalProfitShort == DirectionProfit(trades[..i], false) && totalLossShort == DirectionLoss(trades[..i], false)
    {
      var trade := trades[i];
      assert trades[..i + 1][..i] == trades[..i];
      var pnl := PnlOf(trade);
      if trade.tradeType == Long {
        if pnl > 0.0 {
          totalProfitLong := totalProfitLong + pnl;
        } else {
          totalLossLong := totalLossLong + Abs(pnl);
        }
      } else {
        if pnl > 0.0 {
          totalProfitShort := totalProfitShort + pnl;
        } else {
          totalLossShort := totalLossShort + Abs(pnl);
        }
      }
      i := i + 1;
    }
    assert trades[..|trades|] == trades;
  }

  /** The long and the short totals partition the overall profit and the overall loss. */
  lemma {:induction false} DirectionsPartitionTotals(ts: seq<JournalEntry>)
    ensures DirectionProfit(ts, true) + DirectionProfit(ts, false) == TotalProfit(Pnls(ts))
    ensures DirectionLoss(ts, true) + DirectionLoss(ts, false) == TotalLoss(Pnls(ts))
  {
    if ts != [] {
      var init := ts[..|ts| - 1];
      DirectionsPartitionTotals(init);
      assert Pnls(ts)[..|ts| - 1] == Pnls(init);
    }
  }

  // ---------------------------------------------------------------------
  // The statistics record
  // ---------------------------------------------------------------------

  datatype PerformanceStats = PerformanceStats(
    totalTrades: nat,
    winRate: real,
    profitFactor: Option<real>,
    expectancy: real,
    avgRMultiple: real,
    avgWin: real,
    avgLossOnly: real,
    winLossRatio: Option<real>,
    largestProfit: real,
    largestLoss: real,
    maxDrawdown: real,
    recoveryFactor: real,
    currentStreakText: string,
    longestWinningStreak: nat,
    longestLosingStreak: nat,
    totalProfitLong: real,
    totalLossLong: real,
    totalProfitShort: real,
    totalLossShort: real)

  /** `x.dividedBy(y)` when `y > 0`, otherwise `null`. */
  function OptionalRatio(a: real, b: real): (q: Option<real>)
    ensures q.Some? <==> b > 0.0
    ensures q.Some? ==> q.value * b == a
  {
    if b > 0.0 then Calculator.DivMul(a, b); Some(a / b) else None
  }

  /**
   * `calculatePerformanceStats`: `None` without a valid trade; otherwise the
   * statistics of the valid trades in date order.
   */
  method CalculatePerformanceStats(journal: seq<JournalEntry>, timeOf: string -> int) returns (r: Option<PerformanceStats>)
    ensures r.None? <==> ValidTrades(journal) == []
    ensures r.Some? ==> |ValidTrades(journal)| > 0 && Describes(SortByTime(ValidTrades(journal), timeOf), r.value)
  {
    var validTrades := ValidTrades(journal);
    if |validTrades| == 0 {
      return None;
    }
    var trades := SortByTime(validTrades, timeOf);
    assert |trades| == |validTrades| by {
      assert |multiset(trades)| == |multiset(validTrades)|;
    }
    var s := StatsOfTrades(trades);
    r := Some(s);
  }

  /** The statistics `s` describe the trades `trades`, taken in their order. */
  predicate Describes(trades: seq<JournalEntry>, s: PerformanceStats)
  {
    var ps := Pnls(trades);
    && s.totalTrades == |ps| > 0
    && RatesFit(s.winRate, s.profitFactor, s.avgWin, s.avgLossOnly, s.winLossRatio, s.expectancy,
         |ps|, CountOutcome(ps, Win), CountOutcome(ps, Loss), TotalProfit(ps), TotalLoss(ps))
    && IsMeanPnl(s.expectancy, ps)
    && LargestFit(s.largestProfit, s.largestLoss, ps)
    && IsMeanOf(s.avgRMultiple, RMultipleSum(trades), RMultipleCount(trades))
    && EquityFits(s.maxDrawdown, s.recoveryFactor, ps)
    && StreaksFit(s.currentStreakText, s.longestWinningStreak, s.longestLosingStreak, ps)
    && DirectionsFit(s.totalProfitLong, s.totalLossLong, s.totalProfitShort, s.totalLossShort, trades)
  }

  /** The statistics of a non-empty sequence of closed trades. */
  method StatsOfTrades(trades: seq<JournalEntry>) returns (s: PerformanceStats)
    requires |trades| > 0
    ensures Describes(trades, s)
  {
    var winRate, profitFactor, expectancy, avgRMultiple, avgWin, avgLossOnly, winLossRatio, largestProfit, largestLoss :=
      OutcomeStats(trades);
    var maxDrawdown, recoveryFactor, currentStreakText, longestWinningStreak, longestLosingStreak,
      totalProfitLong, totalLossLong, totalProfitShort, totalLossShort := SequenceStats(trades);
    s := PerformanceStats(|trades|, winRate, profitFactor, expectancy, avgRMultiple, avgWin, avgLossOnly,
      winLossRatio, largestProfit, largestLoss, maxDrawdown, recoveryFactor, currentStreakText,
      longestWinningStreak, longestLosingStreak, totalProfitLong, totalLossLong, totalProfitShort, totalLossShort);
  }

  /** The statistics that do not depend on the order of the trades. */
  method OutcomeStats(trades: seq<JournalEntry>)
    returns (winRate: real, profitFactor: Option<real>, expectancy: real, avgRMultiple: real, avgWin: real,
             avgLossOnly: real, winLossRatio: Option<real>, largestProfit: real, largestLoss: real)
    requires |trades| > 0
    ensures var ps := Pnls(trades);
      && RatesFit(winRate, profitFactor, avgWin, avgLossOnly, winLossRatio, expectancy,
           |ps|, CountOutcome(ps, Win), CountOutcome(ps, Loss), TotalProfit(ps), TotalLoss(ps))
      && IsMeanPnl(expectancy, ps)
      && LargestFit(largestProfit, largestLoss, ps)
      && IsMeanOf(avgRMultiple, RMultipleSum(trades), RMultipleCount(trades))
  {
    var ps := Pnls(trades);
    var totalProfit, totalLoss := TotalProfit(ps), TotalLoss(ps);
    TotalsPositiveIffCounted(ps);
    ProfitMinusLossIsNet(ps);
    winRate, profitFactor, avgWin, avgLossOnly, winLossRatio, expectancy :=
      RateStats(|ps|, CountOutcome(ps, Win), CountOutcome(ps, Loss), totalProfit, totalLoss);
    var totalRMultiples, tradesWithRisk := SumRMultiples(trades);
    avgRMultiple := AverageRMultiple(totalRMultiples, tradesWithRisk);
    largestProfit, largestLoss := LargestProfit(ps), LargestLoss(ps);
  }

  /** The statistics that follow the trades in date order: drawdown, streaks and the long/short split. */
  method SequenceStats(trades: seq<JournalEntry>)
    returns (maxDrawdown: real, recoveryFactor: real, currentStreakText: string, longestWinningStreak: nat,
             longestLosingStreak: nat, totalProfitLong: real, totalLossLong: real, totalProfitShort: real, totalLossShort: real)
    requires |trades| > 0
    ensures var ps := Pnls(trades);
      && EquityFits(maxDrawdown, recoveryFactor, ps)
      && StreaksFit(currentStreakText, longestWinningStreak, longestLosingStreak, ps)
      && DirectionsFit(totalProfitLong, totalLossLong, totalProfitShort, totalLossShort, trades)
  {
    var ps := Pnls(trades);
    maxDrawdown, recoveryFactor := EquityStats(ps);
    totalProfitLong, totalLossLong, totalProfitShort, totalLossShort := DirectionTotals(trades);
    longestWinningStreak, longestLosingStreak := LongestStreaks(ps);
    currentStreakText := CurrentStreakText(ps);
  }

  /** `avg` is the mean of `count` values totalling `total`, or 0 when there are none. */
  predicate IsMeanOf(avg: real, total: real, count: nat)
  {
    if count > 0 then avg * (count as real) == total else avg == 0.0
  }

  /** `avgRMultiple`: the mean R multiple over the trades with a risk amount. */
  function AverageRMultiple(total: real, count: nat): (avg: real)
    ensures IsMeanOf(avg, total, count)
  {
    Calculator.GuardedRatio(total, count as real, 1.0)
  }

  /** The expectancy `e` is the mean P/L per trade of `ps`. */
  predicate IsMeanPnl(e: real, ps: seq<real>)
  {
    e * (|ps| as real) == Sum(ps)
  }

  /**
   * The win/loss figures for `n` trades, `wins` of them totalling `profit`
   * and `losses` of them totalling `loss`.
   */
  predicate RatesFit(winRate: real, profitFactor: Option<real>, avgWin: real, avgLossOnly: real,
                     winLossRatio: Option<real>, expectancy: real,
                     n: nat, wins: nat, losses: nat, profit: real, loss: real)
  {
    && winRate * (n as real) == 100.0 * (wins as real)
    && (profitFactor.Some? <==> losses > 0)
    && (profitFactor.Some? ==> profitFactor.value * loss == profit)
    && avgWin * (wins as real) == profit
    && avgLossOnly * (losses as real) == loss
    && (winLossRatio.Some? <==> losses > 0)
    && (winLossRatio.Some? ==> winLossRatio.value * avgLossOnly == avgWin)
    && expectancy * (n as real) == profit - loss
  }

  /** `maxDrawdown` is the maximum drawdown of `ps` and `recoveryFactor` the net P/L over it (0 without a drawdown). */
  predicate EquityFits(maxDrawdown: real, recoveryFactor: real, ps: seq<real>)
  {
    && IsMaxDrawdown(ps, maxDrawdown)
    && (maxDrawdown > 0.0 ==> recoveryFactor * maxDrawdown == Sum(ps))
    && (maxDrawdown <= 0.0 ==> recoveryFactor == 0.0)
  }

  /** The current streak text and the longest winning and losing streaks of `ps`. */
  predicate StreaksFit(currentStreakText: string, longestWinningStreak: nat, longestLosingStreak: nat, ps: seq<real>)
  {
    && |ps| > 0
    && currentStreakText == StreakText(OutcomeOf(ps[|ps| - 1]), TrailingRun(ps, OutcomeOf(ps[|ps| - 1])))
    && longestWinningStreak == LongestRun(ps, Win) && longestLosingStreak == LongestRun(ps, Loss)
  }

  /** The largest win and the largest loss of `ps`. */
  predicate LargestFit(largestProfit: real, largestLoss: real, ps: seq<real>)
  {
    largestProfit == LargestProfit(ps) && largestLoss == LargestLoss(ps)
  }

  /** The profit and loss totals of the long and of the other trades. */
  predicate DirectionsFit(profitLong: real, lossLong: real, profitShort: real, lossShort: real, trades: seq<JournalEntry>)
  {
    && profitLong == DirectionProfit(trades, true) && lossLong == DirectionLoss(trades, true)
    && profitShort == DirectionProfit(trades, false) && lossShort == DirectionLoss(trades, false)
  }

  /**
   * Win rate, profit factor, averages, their ratio and the expectancy of
   * `totalTrades` trades of which `wins` won `totalProfit` in all and
   * `losses` lost `totalLoss` in all.
   */
  method RateStats(totalTrades: nat, wins: nat, losses: nat, totalProfit: real, totalLoss: real)
    returns (winRate: real, profitFactor: Option<real>, avgWin: real, avgLossOnly: real, winLossRatio: Option<real>, expectancy: real)
    requires totalTrades > 0
    requires totalProfit >= 0.0 && totalLoss >= 0.0
    requires totalProfit > 0.0 <==> wins > 0
    requires totalLoss > 0.0 <==> losses > 0
    ensures RatesFit(winRate, profitFactor, avgWin, avgLossOnly, winLossRatio, expectancy,
      totalTrades, wins, losses, totalProfit, totalLoss)
  {
    winRate := Calculator.GuardedRatio(wins as real, totalTrades as real, 100.0);
    profitFactor := OptionalRatio(totalProfit, totalLoss);
    avgWin := Calculator.GuardedRatio(totalProfit, wins as real, 1.0);
    avgLossOnly := Calculator.GuardedRatio(totalLoss, losses as real, 1.0);
    AverageLossPositive(totalLoss, losses);
    winLossRatio := OptionalRatio(avgWin, avgLossOnly);
    var lossRate := Calculator.GuardedRatio(losses as real, totalTrades as real, 100.0);
    expectancy := winRate / 100.0 * avgWin - lossRate / 100.0 * avgLossOnly;
    ExpectancyIsMeanPnl(totalTrades as real, wins as real, losses as real, totalProfit, totalLoss,
      winRate, lossRate, avgWin, avgLossOnly);
  }

  /** The drawdown loop and the recovery factor of `ps`. */
  method EquityStats(ps: seq<real>) returns (maxDrawdown: real, recoveryFactor: real)
    ensures EquityFits(maxDrawdown, recoveryFactor, ps)
  {
    var cumulativeProfit;
    cumulativeProfit, maxDrawdown := MaxDrawdown(ps);
    recoveryFactor := Calculator.GuardedRatio(cumulativeProfit, maxDrawdown, 1.0);
  }

  lemma AverageLossPositive(totalLoss: real, losses: nat)
    requires totalLoss > 0.0 <==> losses > 0
    ensures Calculator.GuardedRatio(totalLoss, losses as real, 1.0) > 0.0 <==> losses > 0
  {
    if losses > 0 {
      var q := Calculator.GuardedRatio(totalLoss, losses as real, 1.0);
      assert q * (losses as real) == totalLoss;
    }
  }

  /**
   * Expectancy, `winRate / 100 × avgWin - lossRate / 100 × avgLoss`, is the
   * mean P/L per trade over `n` trades with `w` wins totalling `profit` and
   * `l` losses totalling `loss`: breakeven trades count in `n` only.
   */
  lemma ExpectancyIsMeanPnl(n: real, w: real, l: real, profit: real, loss: real,
                            winRate: real, lossRate: real, avgWin: real, avgLoss: real)
    requires n > 0.0 && w >= 0.0 && l >= 0.0
    requires winRate * n == 100.0 * w && lossRate * n == 100.0 * l
    requires w > 0.0 ==> avgWin * w == profit
    requires l > 0.0 ==> avgLoss * l == loss
    requires w == 0.0 ==> profit == 0.0
    requires l == 0.0 ==> loss == 0.0
    ensures (winRate / 100.0 * avgWin - lossRate / 100.0 * avgLoss) * n == profit - loss
  {
    RateTimesAverage(winRate, avgWin, w, n, profit);
    RateTimesAverage(lossRate, avgLoss, l, n, loss);
    Distribute(winRate / 100.0 * avgWin, lossRate / 100.0 * avgLoss, n);
  }

  lemma Distribute(a: real, b: real, n: real)
    ensures (a - b) * n == a * n - b * n
  {
  }

  /** `(count/n × 100) / 100 × (total/count) × n == total`, also when the count is 0 (then the total is 0). */
  lemma RateTimesAverage(rate: real, avg: real, count: real, n: real, total: real)
    requires n > 0.0 && count >= 0.0
    requires rate * n == 100.0 * count
    requires count > 0.0 ==> avg * count == total
    requires count == 0.0 ==> total == 0.0
    ensures (rate / 100.0 * avg) * n == total
  {
    calc {
      (rate / 100.0 * avg) * n;
      (rate * n) / 100.0 * avg;
      count * avg;
    }
  }

  // ---------------------------------------------------------------------
  // Per-symbol performance
  // ---------------------------------------------------------------------

  datatype SymbolStats = SymbolStats(totalTrades: nat, wonTrades: nat, totalProfitLoss: real, totalPlannedProfitLoss: real)

  /**
   * The planned P/L of a closed trade: its planned net profit when won, its
   * planned net loss when lost (0 for an entry without one).
   */
  function PlannedPnl(t: JournalEntry): real
  {
    if t.status == Won then t.totalNetProfit else -(if t.netLoss.Some? then t.netLoss.value else 0.0)
  }

  /** One trade's contribution to the entry of its symbol. */
  function AddTrade(s: SymbolStats, t: JournalEntry): SymbolStats
  {
    var planned := s.totalPlannedProfitLoss + PlannedPnl(t);
    match t.realizedPnl
    case None => s.(totalPlannedProfitLoss := planned)
    case Some(pnl) =>
      if pnl == 0.0 then s.(totalProfitLoss := s.totalProfitLoss + pnl, totalPlannedProfitLoss := planned)
      else SymbolStats(s.totalTrades + 1, s.wonTrades + if pnl > 0.0 then 1 else 0, s.totalProfitLoss + pnl, planned)
  }

  /** Whether the per-symbol loop uses trade `t`: closed, with a non-empty symbol. */
  predicate CountsForSymbol(t: JournalEntry)
  {
    (t.status == Won || t.status == Lost) && t.symbol != ""
  }

  /** The per-symbol table after the loop has seen `ts`. */
  function SymbolPerformance(ts: seq<JournalEntry>): map<string, SymbolStats>
  {
    if ts == [] then map[]
    else
      var m := SymbolPerformance(ts[..|ts| - 1]);
      var t := ts[|ts| - 1];
      if !CountsForSymbol(t) then m
      else
        var s := if t.symbol in m then m[t.symbol] else SymbolStats(0, 0, 0.0, 0.0);
        m[t.symbol := AddTrade(s, t)]
  }

  /** `calculateSymbolPerformance`. */
  method CalculateSymbolPerformance(journal: seq<JournalEntry>) returns (perf: map<string, SymbolStats>)
    ensures perf == SymbolPerformance(journal)
  {
    perf := map[];
    var i := 0;
    while i < |journal|
      invariant 0 <= i <= |journal|
      invariant perf == SymbolPerformance(journal[..i])
    {
      var trade := journal[i];
      assert journal[..i + 1][..i] == journal[..i];
      if (trade.status == Won || trade.status == Lost) && trade.symbol != "" {
        if trade.symbol !in perf {
          perf := perf[trade.symbol := SymbolStats(0, 0, 0.0, 0.0)];
        }
        perf := perf[trade.symbol := AddTrade(perf[trade.symbol], trade)];
      }
      i := i + 1;
    }
    assert journal[..|journal|] == journal;
  }

  /** The trades of `ts` the loop counts for `sym`. */
  function TradesOf(ts: seq<JournalEntry>, sym: string): seq<JournalEntry>
  {
    if ts == [] then []
    else
      var t := ts[|ts| - 1];
      TradesOf(ts[..|ts| - 1], sym) + if CountsForSymbol(t) && t.symbol == sym then [t] else []
  }

  /** Number of trades with a realized P/L satisfying `pos` (positive) or just non-zero. */
  function CountRealized(ts: seq<JournalEntry>, positiveOnly: bool): nat
  {
    if ts == [] then 0
    else
      var t := ts[|ts| - 1];
      CountRealized(ts[..|ts| - 1], positiveOnly)
      + if t.realizedPnl.Some? && t.realizedPnl.value != 0.0 && (!positiveOnly || t.realizedPnl.value > 0.0) then 1 else 0
  }

  function SumRealized(ts: seq<JournalEntry>): real
  {
    if ts == [] then 0.0 else SumRealized(ts[..|ts| - 1]) + PnlOf(ts[|ts| - 1])
  }

  function SumPlanned(ts: seq<JournalEntry>): real
  {
    if ts == [] then 0.0 else SumPlanned(ts[..|ts| - 1]) + PlannedPnl(ts[|ts| - 1])
  }

  /**
   * The per-symbol table has an entry exactly for the symbols of the closed
   * trades, and each entry totals that symbol's trades: trades counted are
   * those with a non-zero realized P/L, wins those with a positive one.
   */
  lemma {:induction false} SymbolPerformanceTotals(ts: seq<JournalEntry>, sym: string)
    ensures sym in SymbolPerformance(ts) <==> TradesOf(ts, sym) != []
    ensures sym in SymbolPerformance(ts) ==>
      var s := SymbolPerformance(ts)[sym];
      && s.totalTrades == CountRealized(TradesOf(ts, sym), false)
      && s.wonTrades == CountRealized(TradesOf(ts, sym), true)
      && s.totalProfitLoss == SumRealized(TradesOf(ts, sym))
      && s.totalPlannedProfitLoss == SumPlanned(TradesOf(ts, sym))
  {
    if ts != [] {
      var init := ts[..|ts| - 1];
      var t := ts[|ts| - 1];
      SymbolPerformanceTotals(init, sym);
      var xs := TradesOf(init, sym);
      if CountsForSymbol(t) && t.symbol == sym {
        var ys := xs + [t];
        assert TradesOf(ts, sym) == ys;
        assert ys[..|ys| - 1] == xs;
      } else {
        assert TradesOf(ts, sym) == xs;
        assert sym in SymbolPerformance(ts) <==> sym in SymbolPerformance(init);
      }
    }
  }

  /** A symbol never has more wins than counted trades. */
  lemma {:induction false} WonAtMostTotal(ts: seq<JournalEntry>)
    ensures CountRealized(ts, true) <= CountRealized(ts, false)
  {
    if ts != [] {
      WonAtMostTotal(ts[..|ts| - 1]);
    }
  }
}
